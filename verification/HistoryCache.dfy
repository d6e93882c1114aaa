/** The caches of backend/app/services/history_service.py: ordered dictionaries of expiring copies,
    and what every run of reads and writes guarantees about a hit. */
module HistoryCache {
  import opened Values

  datatype Mode = Sqlite | Memory

  datatype Key = Key(mode: Mode, operation: string, payload: string)

  type Fields = map<string, string>

  /** `None` is a cached "not found". */
  datatype Slot = Slot(key: Key, expires: real, value: Option<Fields>)

  predicate DistinctKeys(slots: seq<Slot>) { forall i, j :: 0 <= i < j < |slots| ==> slots[i].key != slots[j].key }

  function Find(slots: seq<Slot>, key: Key): (i: nat)
    ensures i <= |slots| && (i < |slots| ==> slots[i].key == key)
    ensures forall j :: 0 <= j < i ==> slots[j].key != key
  {
    if slots == [] || slots[0].key == key then 0 else 1 + Find(slots[1..], key)
  }

  function Without(slots: seq<Slot>, i: nat): (r: seq<Slot>) {
    if i < |slots| then slots[..i] + slots[i + 1..] else slots
  }

  /** `_read_cache`: a live entry moves to the end, an expired one goes. */
  function AfterRead(slots: seq<Slot>, key: Key, now: real): (seq<Slot>, Option<Fields>) {
    var i := Find(slots, key);
    if i == |slots| then (slots, None)
    else if slots[i].expires <= now then (Without(slots, i), None)
    else (Without(slots, i) + [slots[i]], slots[i].value)
  }

  function Newest(slots: seq<Slot>, cap: nat): seq<Slot> { if |slots| <= cap then slots else slots[|slots| - cap..] }

  /** `_write_cache`: the entry is replaced, moved to the end, and the oldest make room. */
  function AfterWrite(slots: seq<Slot>, key: Key, value: Option<Fields>, expires: real, cap: nat): seq<Slot> {
    Newest(Without(slots, Find(slots, key)) + [Slot(key, expires, value)], cap)
  }

  // ----- runs -----

  /** `source` is the repository that produced a written value: the mode flag is read once for the
      key and once more for the repository. */
  datatype Op = Read(key: Key, now: real) | Write(key: Key, value: Option<Fields>, now: real, source: Mode)

  function After(slots: seq<Slot>, op: Op, ttl: real, cap: nat): seq<Slot> {
    match op
    case Read(key, now) => AfterRead(slots, key, now).0
    case Write(key, value, now, _) => AfterWrite(slots, key, value, now + ttl, cap)
  }

  function Run(ops: seq<Op>, ttl: real, cap: nat): seq<Slot> {
    if ops == [] then [] else After(Run(ops[..|ops| - 1], ttl, cap), ops[|ops| - 1], ttl, cap)
  }

  function LastWrite(ops: seq<Op>, key: Key): (w: Option<Op>)
    ensures w.Some? ==> w.value.Write? && w.value.key == key
  {
    if ops == [] then None
    else if ops[|ops| - 1].Write? && ops[|ops| - 1].key == key then Some(ops[|ops| - 1])
    else LastWrite(ops[..|ops| - 1], key)
  }

  /** An entry holds what the last write of its key wrote, and expires a TTL after it. */
  ghost predicate FromWrite(ops: seq<Op>, ttl: real, s: Slot) {
    var w := LastWrite(ops, s.key);
    w.Some? && w.value.value == s.value && w.value.now + ttl == s.expires
  }

  lemma WithoutKeeps(slots: seq<Slot>, i: nat)
    requires DistinctKeys(slots)
    ensures DistinctKeys(Without(slots, i)) && forall s :: s in Without(slots, i) ==> s in slots
    ensures i < |slots| ==> forall s :: s in Without(slots, i) ==> s.key != slots[i].key
    ensures |Without(slots, i)| == if i < |slots| then |slots| - 1 else |slots|
  {
  }

  lemma NewestKeeps(slots: seq<Slot>, cap: nat)
    requires DistinctKeys(slots)
    ensures DistinctKeys(Newest(slots, cap)) && |Newest(slots, cap)| <= cap
            && forall s :: s in Newest(slots, cap) ==> s in slots
  {
  }

  lemma RunSnoc(ops: seq<Op>, op: Op, ttl: real, cap: nat)
    ensures Run(ops + [op], ttl, cap) == After(Run(ops, ttl, cap), op, ttl, cap)
    ensures forall key ::
              LastWrite(ops + [op], key) == if op.Write? && op.key == key then Some(op) else LastWrite(ops, key)
  {
    assert (ops + [op])[..|ops|] == ops;
  }

  /** What one operation leaves: entries that were there, and the one it wrote, if it is a write. */
  lemma StepKeeps(slots: seq<Slot>, op: Op, ttl: real, cap: nat)
    requires DistinctKeys(slots) && |slots| <= cap
    ensures var after := After(slots, op, ttl, cap);
            && DistinctKeys(after) && |after| <= cap
            && forall s :: s in after ==>
                 || (s in slots && (op.Write? ==> s.key != op.key))
                 || (op.Write? && s == Slot(op.key, op.now + ttl, op.value))
  {
    hide DistinctKeys, Without, Newest;
    var i := Find(slots, op.key);
    WithoutKeeps(slots, i);
    if op.Write? {
      AppendKeeps(Without(slots, i), Slot(op.key, op.now + ttl, op.value));
      NewestKeeps(Without(slots, i) + [Slot(op.key, op.now + ttl, op.value)], cap);
    } else if i < |slots| {
      AppendKeeps(Without(slots, i), slots[i]);
    }
  }

  lemma AppendKeeps(slots: seq<Slot>, s: Slot)
    requires DistinctKeys(slots) && forall t :: t in slots ==> t.key != s.key
    ensures DistinctKeys(slots + [s])
  {
    assert forall i :: 0 <= i < |slots| ==> slots[i] in slots;
  }

  lemma {:induction false} RunIsSound(ops: seq<Op>, ttl: real, cap: nat)
    ensures DistinctKeys(Run(ops, ttl, cap)) && |Run(ops, ttl, cap)| <= cap
    ensures forall s :: s in Run(ops, ttl, cap) ==> FromWrite(ops, ttl, s)
  {
    if ops != [] {
      hide Run, LastWrite, After;
      var init, op := ops[..|ops| - 1], ops[|ops| - 1];
      assert ops == init + [op];
      RunIsSound(init, ttl, cap);
      RunSnoc(init, op, ttl, cap);
      StepKeeps(Run(init, ttl, cap), op, ttl, cap);
    }
  }

  /** A hit is the value of the last write of the very same key, made less than the TTL ago. */
  lemma HitsAreFresh(ops: seq<Op>, ttl: real, cap: nat, key: Key, now: real)
    requires AfterRead(Run(ops, ttl, cap), key, now).1.Some?
    ensures var w := LastWrite(ops, key);
            w.Some? && w.value.value == AfterRead(Run(ops, ttl, cap), key, now).1 && now < w.value.now + ttl
  {
    hide Run, LastWrite;
    RunIsSound(ops, ttl, cap);
    var slots := Run(ops, ttl, cap);
    assert slots[Find(slots, key)] in slots;
  }

  /** The cache never holds more than its cap. */
  lemma SizeNeverExceedsCap(ops: seq<Op>, ttl: real, cap: nat)
    ensures |Run(ops, ttl, cap)| <= cap
  {
    RunIsSound(ops, ttl, cap);
  }

  /** A cached "not found" is a miss: the repository is asked again. */
  lemma NotFoundIsNeverServed(ops: seq<Op>, ttl: real, cap: nat, key: Key, now: real)
    requires LastWrite(ops, key).Some? && LastWrite(ops, key).value.value == None
    ensures AfterRead(Run(ops, ttl, cap), key, now).1 == None
  {
    if AfterRead(Run(ops, ttl, cap), key, now).1.Some? { HitsAreFresh(ops, ttl, cap, key, now); }
  }

  /** A call that reads the mode flag the same both times. */
  ghost predicate OneMode(op: Op) { op.Write? ==> op.source == op.key.mode }

  lemma {:induction false} LastWriteIsAnOp(ops: seq<Op>, key: Key)
    requires LastWrite(ops, key).Some?
    ensures exists i :: 0 <= i < |ops| && ops[i] == LastWrite(ops, key).value
  {
    var n := |ops| - 1;
    if !(ops[n].Write? && ops[n].key == key) {
      LastWriteIsAnOp(ops[..n], key);
      var i :| 0 <= i < n && ops[..n][i] == LastWrite(ops[..n], key).value;
      assert ops[i] == LastWrite(ops, key).value;
    }
  }

  /** When every call sees one mode, a hit was produced by the repository of its key's mode. */
  lemma HitsComeFromTheirMode(ops: seq<Op>, ttl: real, cap: nat, key: Key, now: real)
    requires AfterRead(Run(ops, ttl, cap), key, now).1.Some?
    requires forall i :: 0 <= i < |ops| ==> OneMode(ops[i])
    ensures var w := LastWrite(ops, key);
            w.Some? && w.value.value == AfterRead(Run(ops, ttl, cap), key, now).1 && w.value.source == key.mode
  {
    hide Run, LastWrite, AfterRead;
    HitsAreFresh(ops, ttl, cap, key, now);
    LastWriteIsAnOp(ops, key);
  }

  /** The entry just written stands last, under its key alone. */
  lemma WrittenIsFound(slots: seq<Slot>, s: Slot, cap: nat)
    requires DistinctKeys(slots) && |slots| <= cap && cap >= 1
    ensures var after := AfterWrite(slots, s.key, s.value, s.expires, cap);
            Find(after, s.key) < |after| && after[Find(after, s.key)] == s
  {
    hide Newest, Without;
    var i := Find(slots, s.key);
    WithoutKeeps(slots, i);
    AppendKeeps(Without(slots, i), s);
    NewestEndsAlike(Without(slots, i) + [s], cap);
  }

  lemma NewestEndsAlike(slots: seq<Slot>, cap: nat)
    requires DistinctKeys(slots) && slots != [] && cap >= 1
    ensures var kept := Newest(slots, cap);
            DistinctKeys(kept) && kept != [] && kept[|kept| - 1] == slots[|slots| - 1]
  {
  }

  /** After any run: when the flag flips between the two reads of one call, every reader of that key
      within the TTL is served the other repository's value. */
  lemma FlippedFlagPoisonsTheKey(ops: seq<Op>, key: Key, value: Fields, source: Mode, at: real, now: real, ttl: real,
                                 cap: nat)
    requires source != key.mode && cap >= 1 && now < at + ttl
    ensures var run := ops + [Write(key, Some(value), at, source)];
            && AfterRead(Run(run, ttl, cap), key, now).1 == Some(value)
            && LastWrite(run, key).Some? && LastWrite(run, key).value.source != key.mode
  {
    hide Run, LastWrite, AfterWrite;
    RunIsSound(ops, ttl, cap);
    RunSnoc(ops, Write(key, Some(value), at, source), ttl, cap);
    WrittenIsFound(Run(ops, ttl, cap), Slot(key, at + ttl, Some(value)), cap);
  }

  // ----- least recently touched -----

  /** Operation `j` moves this key to the end: it writes it or reads it alive. */
  predicate Touches(ops: seq<Op>, ttl: real, cap: nat, j: nat, key: Key)
    requires j < |ops|
  {
    ops[j].key == key &&
    (ops[j].Write? ||
     (var slots := Run(ops[..j], ttl, cap);
      var i := Find(slots, key);
      i < |slots| && slots[i].expires > ops[j].now))
  }

  /** One past the last touch of a key; 0 if there was none. */
  function LastTouch(ops: seq<Op>, ttl: real, cap: nat, key: Key): (n: nat)
    ensures n <= |ops|
  {
    if ops == [] then 0
    else if Touches(ops, ttl, cap, |ops| - 1, key) then |ops|
    else LastTouch(ops[..|ops| - 1], ttl, cap, key)
  }

  ghost predicate ByLastTouch(ops: seq<Op>, ttl: real, cap: nat, slots: seq<Slot>) {
    forall i, j :: 0 <= i < j < |slots|
      ==> LastTouch(ops, ttl, cap, slots[i].key) < LastTouch(ops, ttl, cap, slots[j].key)
  }

  lemma TouchSnoc(ops: seq<Op>, op: Op, ttl: real, cap: nat, key: Key)
    ensures var slots := Run(ops, ttl, cap);
            var i := Find(slots, op.key);
            var touched := op.key == key && (op.Write? || (i < |slots| && slots[i].expires > op.now));
            LastTouch(ops + [op], ttl, cap, key) == if touched then |ops| + 1 else LastTouch(ops, ttl, cap, key)
  {
    assert (ops + [op])[..|ops|] == ops && (ops + [op])[|ops|] == op;
  }

  lemma WithoutAt(slots: seq<Slot>, i: nat, a: nat, b: nat)
    requires a < b < |Without(slots, i)|
    ensures exists x, y :: 0 <= x < y < |slots| && Without(slots, i)[a] == slots[x] && Without(slots, i)[b] == slots[y]
  {
    var x, y := if a < i then a else a + 1, if b < i then b else b + 1;
    if i < |slots| {
      assert Without(slots, i)[a] == slots[x] && Without(slots, i)[b] == slots[y];
    } else {
      assert Without(slots, i)[a] == slots[a] && Without(slots, i)[b] == slots[b];
    }
  }

  lemma RestStands(ops: seq<Op>, op: Op, ttl: real, cap: nat, slots: seq<Slot>, i: nat)
    requires slots == Run(ops, ttl, cap) && i == Find(slots, op.key)
    requires DistinctKeys(slots) && ByLastTouch(ops, ttl, cap, slots)
    ensures ByLastTouch(ops + [op], ttl, cap, Without(slots, i))
    ensures forall s :: s in Without(slots, i) ==> LastTouch(ops + [op], ttl, cap, s.key) <= |ops|
  {
    hide Run, LastTouch, Find, Without, DistinctKeys;
    var rest := Without(slots, i);
    WithoutKeeps(slots, i);
    forall s | s in rest
      ensures s.key != op.key && LastTouch(ops + [op], ttl, cap, s.key) == LastTouch(ops, ttl, cap, s.key) {
      TouchSnoc(ops, op, ttl, cap, s.key);
    }
    forall a, b | 0 <= a < b < |rest|
      ensures LastTouch(ops + [op], ttl, cap, rest[a].key) < LastTouch(ops + [op], ttl, cap, rest[b].key) {
      assert rest[a] in rest && rest[b] in rest;
      WithoutAt(slots, i, a, b);
    }
  }

  lemma AppendStands(ops: seq<Op>, ttl: real, cap: nat, rest: seq<Slot>, s: Slot)
    requires ByLastTouch(ops, ttl, cap, rest)
             && forall t :: t in rest ==> LastTouch(ops, ttl, cap, t.key) < LastTouch(ops, ttl, cap, s.key)
    ensures ByLastTouch(ops, ttl, cap, rest + [s])
  {
    hide LastTouch;
    assert forall i :: 0 <= i < |rest| ==> rest[i] in rest;
  }

  /** The entries of a write before the oldest make room. */
  lemma WriteStands(ops: seq<Op>, op: Op, ttl: real, cap: nat)
    requires op.Write? && ByLastTouch(ops, ttl, cap, Run(ops, ttl, cap))
    ensures var slots := Run(ops, ttl, cap);
            ByLastTouch(ops + [op], ttl, cap,
                        Without(slots, Find(slots, op.key)) + [Slot(op.key, op.now + ttl, op.value)])
  {
    hide Run, ByLastTouch, LastTouch, DistinctKeys, Without;
    var slots := Run(ops, ttl, cap);
    var i := Find(slots, op.key);
    RunIsSound(ops, ttl, cap);
    RestStands(ops, op, ttl, cap, slots, i);
    TouchSnoc(ops, op, ttl, cap, op.key);
    AppendStands(ops + [op], ttl, cap, Without(slots, i), Slot(op.key, op.now + ttl, op.value));
  }

  lemma ReadStands(ops: seq<Op>, op: Op, ttl: real, cap: nat)
    requires op.Read? && ByLastTouch(ops, ttl, cap, Run(ops, ttl, cap))
    ensures ByLastTouch(ops + [op], ttl, cap, AfterRead(Run(ops, ttl, cap), op.key, op.now).0)
  {
    hide Run, ByLastTouch, LastTouch, DistinctKeys;
    var slots := Run(ops, ttl, cap);
    var i := Find(slots, op.key);
    RunIsSound(ops, ttl, cap);
    RestStands(ops, op, ttl, cap, slots, i);
    TouchSnoc(ops, op, ttl, cap, op.key);
    if i < |slots| && slots[i].expires > op.now { AppendStands(ops + [op], ttl, cap, Without(slots, i), slots[i]); }
  }

  lemma NewestStands(ops: seq<Op>, ttl: real, cap: nat, slots: seq<Slot>, keep: nat)
    requires ByLastTouch(ops, ttl, cap, slots)
    ensures ByLastTouch(ops, ttl, cap, Newest(slots, keep))
  {
    hide LastTouch;
  }

  /** The entries stand in the order of their last touch. */
  lemma {:induction false} EntriesStandByLastTouch(ops: seq<Op>, ttl: real, cap: nat)
    ensures ByLastTouch(ops, ttl, cap, Run(ops, ttl, cap))
  {
    if ops != [] {
      hide Run, ByLastTouch;
      var init, op := ops[..|ops| - 1], ops[|ops| - 1];
      assert ops == init + [op];
      EntriesStandByLastTouch(init, ttl, cap);
      OneMoreStands(init, op, ttl, cap);
    }
  }

  lemma OneMoreStands(init: seq<Op>, op: Op, ttl: real, cap: nat)
    requires ByLastTouch(init, ttl, cap, Run(init, ttl, cap))
    ensures ByLastTouch(init + [op], ttl, cap, Run(init + [op], ttl, cap))
  {
    hide Run, LastTouch, AfterRead, ByLastTouch, Newest, Without, Find;
    var slots := Run(init, ttl, cap);
    RunSnoc(init, op, ttl, cap);
    if op.Write? {
      WriteStands(init, op, ttl, cap);
      NewestStands(init + [op], ttl, cap, Without(slots, Find(slots, op.key)) + [Slot(op.key, op.now + ttl, op.value)],
                   cap);
    } else {
      ReadStands(init, op, ttl, cap);
    }
  }

  /** What is cut off the front stands before what is kept. */
  lemma CutStandsFirst(slots: seq<Slot>, cap: nat, gone: Slot, left: Slot)
    requires gone in slots && gone !in Newest(slots, cap) && left in Newest(slots, cap)
    ensures exists i, j :: 0 <= i < j < |slots| && slots[i] == gone && slots[j] == left
  {
    var cut := |slots| - cap;
    assert cut > 0;
    forall k | cut <= k < |slots| ensures slots[k] in Newest(slots, cap) {
      assert slots[k] == Newest(slots, cap)[k - cut];
    }
    var i :| 0 <= i < |slots| && slots[i] == gone;
    var j :| 0 <= j < |Newest(slots, cap)| && Newest(slots, cap)[j] == left;
    assert i < cut && slots[cut + j] == left;
  }

  /** What a write evicts was touched before everything it leaves. */
  lemma EvictionIsLeastRecentlyTouched(ops: seq<Op>, op: Op, ttl: real, cap: nat, gone: Slot, left: Slot)
    requires op.Write? && gone.key != op.key
    ensures var before, after := Run(ops, ttl, cap), Run(ops + [op], ttl, cap);
            gone in before && gone !in after && left in after
            ==> LastTouch(ops + [op], ttl, cap, gone.key) < LastTouch(ops + [op], ttl, cap, left.key)
  {
    hide Run, LastTouch, Newest;
    EntriesStandByLastTouch(ops, ttl, cap);
    WriteStands(ops, op, ttl, cap);
    RunSnoc(ops, op, ttl, cap);
    var slots := Run(ops, ttl, cap);
    if gone in slots && gone !in Run(ops + [op], ttl, cap) && left in Run(ops + [op], ttl, cap) {
      var i := Find(slots, op.key);
      var full := Without(slots, i) + [Slot(op.key, op.now + ttl, op.value)];
      assert gone in full;
      CutStandsFirst(full, cap, gone, left);
    }
  }
}
