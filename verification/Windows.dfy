/** Dictionaries of recent entries, pruned as time goes on, against the whole history of what was
    ever put into them. */
module Windows {
  import opened Sequences

  /** An entry filed under a key. */
  datatype Mark<K, E> = Mark(key: K, entry: E)

  function EntriesOf<K(==), E>(marks: seq<Mark<K, E>>, key: K): seq<E> {
    if marks == [] then []
    else
      var m := marks[|marks| - 1];
      if m.key == key then EntriesOf(marks[..|marks| - 1], key) + [m.entry] else EntriesOf(marks[..|marks| - 1], key)
  }

  function Since<E>(cutoff: int, time: E -> int): E -> bool { (e: E) => time(e) >= cutoff }

  function InWindow<E>(entries: seq<E>, now: int, window: int, time: E -> int): seq<E> {
    Filter(entries, Since(now - window, time))
  }

  function Get<K(==), E>(kept: map<K, seq<E>>, key: K): seq<E> { if key in kept then kept[key] else [] }

  function Push<K(==), E>(kept: map<K, seq<E>>, key: K, e: E): map<K, seq<E>> { kept[key := Get(kept, key) + [e]] }

  /** From `clock` on, what is kept of a key counts as much as everything ever filed under it. */
  ghost predicate Faithful<K(!new), E>(kept: map<K, seq<E>>, marks: seq<Mark<K, E>>, time: E -> int, window: K -> int,
                                       clock: int) {
    forall key, t :: t >= clock
      ==> InWindow(Get(kept, key), t, window(key), time) == InWindow(EntriesOf(marks, key), t, window(key), time)
  }

  /** Some entries of some keys, all of them out of the window, have been forgotten. */
  ghost predicate Prunes<K(!new), E>(before: map<K, seq<E>>, after: map<K, seq<E>>, time: E -> int, window: K -> int,
                                     now: int) {
    forall key :: Get(after, key) == Get(before, key)
      || Get(after, key) == InWindow(Get(before, key), now, window(key), time)
  }

  lemma PruningIsFaithful<K(!new), E>(before: map<K, seq<E>>, after: map<K, seq<E>>, marks: seq<Mark<K, E>>,
                                      time: E -> int, window: K -> int, clock: int, now: int)
    requires clock <= now && Faithful(before, marks, time, window, clock) && Prunes(before, after, time, window, now)
    ensures Faithful(after, marks, time, window, now)
  {
    forall key, t | t >= now
      ensures InWindow(Get(after, key), t, window(key), time) == InWindow(EntriesOf(marks, key), t, window(key), time)
    {
      assert InWindow(Get(before, key), t, window(key), time) == InWindow(EntriesOf(marks, key), t, window(key), time);
      FilterTwice(Get(before, key), Since(now - window(key), time), Since(t - window(key), time));
    }
  }

  lemma EntriesSnoc<K, E>(marks: seq<Mark<K, E>>, m: Mark<K, E>, key: K)
    ensures EntriesOf(marks + [m], key)
            == if m.key == key then EntriesOf(marks, key) + [m.entry] else EntriesOf(marks, key)
  {
    assert (marks + [m])[..|marks|] == marks;
  }

  lemma PushingIsFaithful<K(!new), E>(kept: map<K, seq<E>>, marks: seq<Mark<K, E>>, time: E -> int, window: K -> int,
                                      clock: int, key: K, e: E)
    requires Faithful(kept, marks, time, window, clock)
    ensures Faithful(Push(kept, key, e), marks + [Mark(key, e)], time, window, clock)
  {
    forall k, t | t >= clock
      ensures InWindow(Get(Push(kept, key, e), k), t, window(k), time)
              == InWindow(EntriesOf(marks + [Mark(key, e)], k), t, window(k), time)
    {
      assert InWindow(Get(kept, k), t, window(k), time) == InWindow(EntriesOf(marks, k), t, window(k), time);
      EntriesSnoc(marks, Mark(key, e), k);
      if k == key {
        FilterSnoc(Get(kept, k), e, Since(t - window(k), time));
        FilterSnoc(EntriesOf(marks, k), e, Since(t - window(k), time));
      }
    }
  }

  /** `_cleanup` of one dictionary: old entries go, and keys left without any. */
  method Clean<K(!new, ==), E>(kept: map<K, seq<E>>, now: int, window: int, time: E -> int)
    returns (after: map<K, seq<E>>)
    ensures forall key :: Get(after, key) == InWindow(Get(kept, key), now, window, time)
  {
    after := kept;
    var left := kept.Keys;
    while left != {}
      invariant left <= kept.Keys
      invariant forall key :: key in left ==> key in after && after[key] == kept[key]
      invariant forall key :: key !in left ==> Get(after, key) == InWindow(Get(kept, key), now, window, time)
      decreases |left|
    {
      var key :| key in left;
      var items := InWindow(after[key], now, window, time);
      if items == [] { after := after - {key}; } else { after := after[key := items]; }
      left := left - {key};
    }
  }

  /** A list pruned for one window answers for another exactly when that one is no longer. */
  lemma PruningServesShorterWindows(now: int, window: int, other: int)
    ensures (forall times: seq<int> ::
               InWindow(InWindow(times, now, window, Itself), now, other, Itself)
               == InWindow(times, now, other, Itself))
            <==> other <= window
  {
    if other <= window {
      forall times: seq<int>
        ensures InWindow(InWindow(times, now, window, Itself), now, other, Itself)
                == InWindow(times, now, other, Itself) {
        FilterTwice(times, Since(now - window, Itself), Since(now - other, Itself));
      }
    } else {
      var early := [now - other];
      assert forall i :: 0 <= i < |early| ==> early[i] == now - other && Itself(early[i]) == now - other;
      FilterNone(early, Since(now - window, Itself));
      FilterAll(early, Since(now - other, Itself));
      assert InWindow(InWindow(early, now, window, Itself), now, other, Itself) == [];
    }
  }

  function Itself(t: int): int { t }
}
