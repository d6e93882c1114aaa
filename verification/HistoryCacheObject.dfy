/** The cache object on the heap: what it stores and what it hands out are copies, so nothing a
    caller does to a result reaches a stored entry. */
module HistoryCacheObject {
  import opened Values
  import opened HistoryCache

  /** A result dictionary. */
  class Record {
    var fields: Fields

    constructor (fields: Fields)
      ensures this.fields == fields
    {
      this.fields := fields;
    }
  }

  datatype Entry = Entry(key: Key, expires: real, value: Record?)

  class Cache {
    const cap: nat
    const ttl: real
    var entries: seq<Entry>
    /** The stored copies, and the entries with their copies' fields. */
    ghost var owned: set<Record>
    ghost var slots: seq<Slot>

    ghost predicate Shows(e: Entry, s: Slot)
      reads e.value
    {
      && e.key == s.key && e.expires == s.expires
      && s.value == if e.value == null then None else Some(e.value.fields)
    }

    ghost predicate Valid()
      reads this, owned
    {
      && |entries| == |slots| && DistinctKeys(slots)
      && (forall i :: 0 <= i < |entries| ==> entries[i].value == null || entries[i].value in owned)
      && (forall i :: 0 <= i < |entries| ==> Shows(entries[i], slots[i]))
    }

    constructor (cap: nat, ttl: real)
      ensures Valid() && slots == [] && fresh(owned) && this.cap == cap && this.ttl == ttl
    {
      this.cap, this.ttl := cap, ttl;
      entries, owned, slots := [], {}, [];
    }

    /** cache.get(key): its place among the entries. */
    method Locate(key: Key) returns (i: nat)
      requires Valid()
      ensures i == Find(slots, key)
    {
      i := 0;
      while i < |entries| && entries[i].key != key
        invariant i <= |entries| && forall j :: 0 <= j < i ==> entries[j].key != key
      {
        i := i + 1;
      }
      FoundAt(slots, key, i);
    }

    /** cache.pop(key, None), given the place of the key. */
    method RemoveAt(i: nat)
      requires Valid() && i <= |entries|
      modifies this`entries, this`slots
      ensures Valid() && slots == Without(old(slots), i)
    {
      WithoutKeeps(slots, i);
      slots := Without(slots, i);
      if i < |entries| { entries := entries[..i] + entries[i + 1..]; }
    }

    method Append(e: Entry, ghost s: Slot)
      requires Valid() && Shows(e, s) && (e.value == null || e.value in owned)
               && forall t :: t in slots ==> t.key != s.key
      modifies this`entries, this`slots
      ensures Valid() && slots == old(slots) + [s]
    {
      AppendKeeps(slots, s);
      entries, slots := entries + [e], slots + [s];
    }

    /** `_read_cache`: what it returns is a copy. */
    method ReadCache(key: Key, now: real) returns (result: Record?)
      requires Valid()
      modifies this`entries, this`slots
      ensures Valid() && (slots, if result == null then None else Some(result.fields))
              == AfterRead(old(slots), key, now)
      ensures result != null ==> fresh(result)
    {
      result := null;
      var i := Locate(key);
      if i == |entries| { return; }
      var e := entries[i];
      ghost var s := slots[i];
      WithoutKeeps(slots, i);
      RemoveAt(i);
      if e.expires <= now { return; }
      Append(e, s);
      if e.value != null { result := new Record(e.value.fields); }
    }

    /** while len(cache) > max_entries: popitem(last=False) */
    method EvictOldest()
      requires Valid()
      modifies this`entries, this`slots
      ensures Valid() && slots == Newest(old(slots), cap)
    {
      ghost var full := slots;
      while |entries| > cap
        invariant Valid() && |full| >= |entries| >= Min(cap, |full|) && slots == full[|full| - |entries|..]
        decreases |entries|
      {
        entries, slots := entries[1..], slots[1..];
      }
    }

    /** cache[key] = ...; move_to_end(key) */
    method Put(key: Key, expires: real, value: Record?)
      requires Valid() && (value == null || value in owned)
      modifies this`entries, this`slots
      ensures Valid()
      ensures slots == Without(old(slots), Find(old(slots), key))
              + [Slot(key, expires, if value == null then None else Some(value.fields))]
    {
      var i := Locate(key);
      WithoutKeeps(slots, i);
      RemoveAt(i);
      Append(Entry(key, expires, value), Slot(key, expires, if value == null then None else Some(value.fields)));
    }

    /** `_write_cache`: what it stores is a copy. */
    method WriteCache(key: Key, value: Record?, now: real)
      requires Valid()
      modifies this`entries, this`slots, this`owned
      ensures Valid() && fresh(owned - old(owned)) && old(owned) <= owned
      ensures slots == AfterWrite(old(slots), key, if value == null then None else Some(value.fields), now + ttl, cap)
    {
      hide Without, Find, DistinctKeys;
      var copy: Record? := null;
      if value != null {
        copy := new Record(value.fields);
        owned := owned + {copy};
      }
      Put(key, now + ttl, copy);
      EvictOldest();
    }
  }

  lemma {:induction false} FoundAt(slots: seq<Slot>, key: Key, i: nat)
    requires i <= |slots| && (i < |slots| ==> slots[i].key == key) && forall j :: 0 <= j < i ==> slots[j].key != key
    ensures Find(slots, key) == i
  {
    if i > 0 { FoundAt(slots[1..], key, i - 1); }
  }

  // ----- the callers -----

  /** What the repository answers to one call. */
  datatype Answer = Raises | Returns(value: Record?)

  /** `get_packet_detail` and its like: the cache, or else the repository, whose answer is remembered
      even when it is "not found". */
  method GetDetail(cache: Cache, key: Key, readAt: real, answer: Answer, writeAt: real)
    returns (failed: bool, result: Record?)
    requires cache.Valid() && (answer.Returns? && answer.value != null ==> answer.value !in cache.owned)
    modifies cache
    ensures cache.Valid() && fresh(cache.owned - old(cache.owned)) && (result != null ==> result !in cache.owned)
    ensures result != null ==> fresh(result) || (answer.Returns? && result == answer.value)
    ensures var (after, hit) := AfterRead(old(cache.slots), key, readAt);
            if hit.Some? then
              !failed && result != null && result.fields == hit.value && cache.slots == after
            else if answer.Raises? then failed && cache.slots == after
            else
              !failed && result == answer.value
              && cache.slots == AfterWrite(after, key, if answer.value == null then None else Some(answer.value.fields),
                                           writeAt + cache.ttl, cache.cap)
  {
    failed := false;
    result := cache.ReadCache(key, readAt);
    if result != null { return; }
    if answer.Raises? { return true, null; }
    result := answer.value;
    cache.WriteCache(key, result, writeAt);
  }

  /** `get_packets` and `get_alerts` add two fields to what they return, cached or not; the stored
      entry has only what the repository produced. */
  method GetList(cache: Cache, key: Key, readAt: real, answer: Answer, writeAt: real, queryMs: string, metrics: string)
    returns (failed: bool, result: Record?)
    requires cache.Valid() && (answer.Returns? ==> answer.value != null && answer.value !in cache.owned)
    modifies cache, if answer.Returns? then {answer.value} else {}
    ensures cache.Valid()
    ensures var (after, hit) := AfterRead(old(cache.slots), key, readAt);
            if hit.None? && answer.Raises? then failed && cache.slots == after
            else
              var produced := if hit.Some? then hit.value else old(answer.value.fields);
              && !failed && result != null
                 && result.fields == produced["query_ms" := queryMs]["observability" := metrics]
              && cache.slots == if hit.Some? then after
                                else AfterWrite(after, key, Some(produced), writeAt + cache.ttl, cache.cap)
  {
    failed, result := GetDetail(cache, key, readAt, answer, writeAt);
    if failed || result == null { return; }
    result.fields := result.fields["query_ms" := queryMs]["observability" := metrics];
  }
}
