/** When a read of the history cache is a hit. */
module HistoryCacheLaws {
  import opened Values
  import opened HistoryCache

  /** A kept entry answers with what the last write of its key wrote, until a TTL after it, and an entry that is
      not kept answers nothing. */
  lemma ReadsAre(ops: seq<Op>, ttl: real, cap: nat, key: Key, now: real)
    ensures var slots, answer := Run(ops, ttl, cap), AfterRead(Run(ops, ttl, cap), key, now).1;
            if s :| s in slots && s.key == key
            then var w := LastWrite(ops, key);
                 w.Some? && answer == (if now < w.value.now + ttl then w.value.value else None)
            else answer == None
  {
    hide Run, LastWrite, DistinctKeys;
    RunIsSound(ops, ttl, cap);
    var slots := Run(ops, ttl, cap);
    if Find(slots, key) < |slots| { assert slots[Find(slots, key)] in slots; }
    KeyDecides(slots, key);
  }

  lemma KeyDecides(slots: seq<Slot>, key: Key)
    requires DistinctKeys(slots)
    ensures Find(slots, key) < |slots| <==> exists s :: s in slots && s.key == key
    ensures forall s :: s in slots && s.key == key ==> Find(slots, key) < |slots| && slots[Find(slots, key)] == s
  {
    if Find(slots, key) < |slots| { assert slots[Find(slots, key)] in slots; }
    forall s | s in slots && s.key == key ensures Find(slots, key) < |slots| && slots[Find(slots, key)] == s {
      var i :| 0 <= i < |slots| && slots[i] == s;
    }
  }

  /** A live entry that is read goes to the end, a dead one goes for good, and nothing else moves. */
  lemma ReadingMoves(slots: seq<Slot>, key: Key, now: real, before: seq<Slot>, s: Slot, after: seq<Slot>)
    requires slots == before + [s] + after && s.key == key && DistinctKeys(slots)
    ensures AfterRead(slots, key, now).0 == if now < s.expires then before + after + [s] else before + after
  {
    assert slots[|before|] == s;
    KeyDecides(slots, key);
    assert Find(slots, key) == |before|;
    assert slots[..|before|] == before && slots[|before| + 1..] == after;
  }

  /** A write puts its entry last, in place of an earlier one of its key, and drops from the front what exceeds
      the cap. */
  lemma WritingPutsLast(slots: seq<Slot>, key: Key, value: Option<Fields>, expires: real, cap: nat)
    requires DistinctKeys(slots) && |slots| <= cap && cap >= 1
    ensures var after := AfterWrite(slots, key, value, expires, cap);
            && after != [] && after[|after| - 1] == Slot(key, expires, value)
            && ((exists s :: s in slots && s.key == key) ==> |after| == |slots|)
            && ((forall s :: s in slots ==> s.key != key) && |slots| < cap
                ==> after == slots + [Slot(key, expires, value)])
            && ((forall s :: s in slots ==> s.key != key) && |slots| == cap
                ==> after == slots[1..] + [Slot(key, expires, value)])
  {
    KeyDecides(slots, key);
  }
}
