/** core/ids_signature.py: flood, port-scan, SYN-flood and custom rules over pruned dictionaries,
    against the same rules over everything seen. */
module SignatureIds {
  import opened Text
  import opened Values
  import opened Windows
  import Sequences

  datatype Packet = Packet(src: Option<string>, dst: Option<string>, proto: string, dport: Option<int>, flags: string)

  /** A custom rule as edited; falsy fields stand for their defaults. */
  datatype Rule = Rule(present: bool, enabled: bool, srcIp: string, dport: int, window: int, threshold: int)

  datatype Params = Params(floodThreshold: int, floodWindow: int, scanThreshold: int, scanWindow: int,
                           synThreshold: int, synWindow: int, rules: seq<Rule>)

  /** The alert raised, with the count it reports; `Custom` also says which rule. */
  datatype Verdict = Quiet | Flood(count: nat) | PortScan(ports: set<int>) | SynFlood(count: nat)
                   | Custom(rule: nat, count: nat)

  datatype Seen = Seen(packet: Packet, at: int, verdict: Verdict)

  datatype Probe = Probe(at: int, port: int)

  type Pair = (string, string)

  type RuleKey = (nat, string, int)

  function ProbeTime(p: Probe): int { p.at }

  // ----- which packets a stage looks at -----

  predicate Truthy(s: Option<string>) { s.Some? && s.value != "" }

  predicate Addressed(p: Packet) { Truthy(p.src) && Truthy(p.dst) }

  predicate IsProbe(p: Packet) { Addressed(p) && p.dport.Some? && (p.proto == "TCP" || p.proto == "UDP") }

  predicate IsSyn(p: Packet) { Addressed(p) && p.proto == "TCP" && 'S' in p.flags && 'A' !in p.flags }

  function PairOf(p: Packet): Pair
    requires Addressed(p)
  {
    (p.src.value, p.dst.value)
  }

  function PortOf(p: Packet): int { if p.dport.Some? then p.dport.value else 0 }

  function RuleSrc(r: Rule): string { Strip(OrElse(r.srcIp, "*")) }

  function RuleWindow(r: Rule): int { if r.window == 0 then 30 else r.window }

  function RuleThreshold(r: Rule): int { if r.threshold == 0 then 10 else r.threshold }

  predicate Matches(r: Rule, p: Packet) {
    && r.present && r.enabled
    && (RuleSrc(r) == "*" || p.src == Some(RuleSrc(r)))
    && (r.dport == 0 || PortOf(p) == r.dport)
  }

  function RuleKeyOf(rule: nat, p: Packet): RuleKey { (rule, if Truthy(p.src) then p.src.value else "-", PortOf(p)) }

  // ----- what each stage has been shown -----

  function FloodMarks(history: seq<Seen>): seq<Mark<string, int>> {
    if history == [] then []
    else
      var before, s := FloodMarks(history[..|history| - 1]), history[|history| - 1];
      if Truthy(s.packet.src) then before + [Mark(s.packet.src.value, s.at)] else before
  }

  /** Only packets that raised no flood alert are looked at for scans. */
  function ScanMarks(history: seq<Seen>): seq<Mark<Pair, Probe>> {
    if history == [] then []
    else
      var before, s := ScanMarks(history[..|history| - 1]), history[|history| - 1];
      if IsProbe(s.packet) && !s.verdict.Flood?
      then before + [Mark(PairOf(s.packet), Probe(s.at, s.packet.dport.value))] else before
  }

  function SynMarks(history: seq<Seen>): seq<Mark<Pair, int>> {
    if history == [] then []
    else
      var before, s := SynMarks(history[..|history| - 1]), history[|history| - 1];
      if IsSyn(s.packet) && !s.verdict.Flood? && !s.verdict.PortScan? then before + [Mark(PairOf(s.packet), s.at)]
      else before
  }

  /** The rules that were tried on a packet: all that match, up to the one that fired. */
  function Tried(rules: seq<Rule>, p: Packet, at: int, upTo: nat): seq<Mark<RuleKey, int>>
    requires upTo <= |rules|
  {
    if upTo == 0 then []
    else
      var before := Tried(rules, p, at, upTo - 1);
      if Matches(rules[upTo - 1], p) then before + [Mark(RuleKeyOf(upTo - 1, p), at)] else before
  }

  function TriedOn(rules: seq<Rule>, s: Seen): seq<Mark<RuleKey, int>> {
    match s.verdict
    case Quiet => Tried(rules, s.packet, s.at, |rules|)
    case Custom(rule, _) => if rule < |rules| then Tried(rules, s.packet, s.at, rule + 1) else []
    case _ => []
  }

  function RuleMarks(rules: seq<Rule>, history: seq<Seen>): seq<Mark<RuleKey, int>> {
    if history == [] then [] else RuleMarks(rules, history[..|history| - 1]) + TriedOn(rules, history[|history| - 1])
  }

  // ----- the verdict over the whole history -----

  function Count<K(==)>(marks: seq<Mark<K, int>>, key: K, now: int, window: int): nat {
    |InWindow(EntriesOf(marks, key), now, window, Itself)|
  }

  function PortsOf(probes: seq<Probe>): set<int> { set p | p in probes :: p.port }

  function Scanned(marks: seq<Mark<Pair, Probe>>, key: Pair, now: int, window: int): set<int> {
    PortsOf(InWindow(EntriesOf(marks, key), now, window, ProbeTime))
  }

  function FirstRule(ps: Params, marks: seq<Mark<RuleKey, int>>, p: Packet, now: int, from: nat): Verdict
    requires from <= |ps.rules|
    decreases |ps.rules| - from
  {
    if from == |ps.rules| then Quiet
    else
      var r := ps.rules[from];
      var count := Count(marks, RuleKeyOf(from, p), now, RuleWindow(r)) + 1;
      if Matches(r, p) && count >= RuleThreshold(r) then Custom(from, count) else FirstRule(ps, marks, p, now, from + 1)
  }

  function FloodCount(ps: Params, history: seq<Seen>, p: Packet, now: int): nat {
    if Truthy(p.src) then Count(FloodMarks(history), p.src.value, now, ps.floodWindow) + 1 else 0
  }

  function ScannedPorts(ps: Params, history: seq<Seen>, p: Packet, now: int): set<int> {
    if !IsProbe(p) then {}
    else Scanned(ScanMarks(history) + [Mark(PairOf(p), Probe(now, p.dport.value))], PairOf(p), now, ps.scanWindow)
  }

  function SynCount(ps: Params, history: seq<Seen>, p: Packet, now: int): nat {
    if IsSyn(p) then Count(SynMarks(history) + [Mark(PairOf(p), now)], PairOf(p), now, ps.synWindow) else 0
  }

  function FloodVerdict(ps: Params, history: seq<Seen>, p: Packet, now: int): Verdict {
    var count := FloodCount(ps, history, p, now);
    if Truthy(p.src) && count >= ps.floodThreshold then Flood(count) else Quiet
  }

  function ScanVerdict(ps: Params, history: seq<Seen>, p: Packet, now: int): Verdict {
    var ports := ScannedPorts(ps, history, p, now);
    if IsProbe(p) && |ports| >= ps.scanThreshold then PortScan(ports) else Quiet
  }

  function SynVerdict(ps: Params, history: seq<Seen>, p: Packet, now: int): Verdict {
    var count := SynCount(ps, history, p, now);
    if IsSyn(p) && count >= ps.synThreshold then SynFlood(count) else Quiet
  }

  /** The alert a packet deserves: the packet itself counts, and flood comes before scan before SYN
      flood before the custom rules in their order. */
  function Deserved(ps: Params, history: seq<Seen>, p: Packet, now: int): Verdict {
    if FloodVerdict(ps, history, p, now) != Quiet then FloodVerdict(ps, history, p, now)
    else if ScanVerdict(ps, history, p, now) != Quiet then ScanVerdict(ps, history, p, now)
    else if SynVerdict(ps, history, p, now) != Quiet then SynVerdict(ps, history, p, now)
    else FirstRule(ps, RuleMarks(ps.rules, history), p, now, 0)
  }

  // ----- the detector -----

  function Always<K>(window: int): K -> int { (k: K) => window }

  function WindowOf(rules: seq<Rule>): RuleKey -> int {
    (k: RuleKey) => if k.0 < |rules| then RuleWindow(rules[k.0]) else 0
  }

  /** Every verdict so far is the one its packet deserved. */
  ghost predicate Justified(ps: Params, history: seq<Seen>) {
    forall i :: 0 <= i < |history|
      ==> history[i].verdict == Deserved(ps, history[..i], history[i].packet, history[i].at)
  }

  /** Exactly the entries of the window are kept. */
  ghost predicate Trimmed<K(!new), E>(kept: map<K, seq<E>>, now: int, window: int, time: E -> int) {
    forall key :: Get(kept, key) == InWindow(Get(kept, key), now, window, time)
  }

  method CleanFaithfully<K(!new, ==), E>(kept: map<K, seq<E>>, now: int, window: int, time: E -> int,
                                         ghost marks: seq<Mark<K, E>>, ghost clock: int) returns (after: map<K, seq<E>>)
    requires clock <= now && Faithful(kept, marks, time, Always(window), clock)
    ensures Faithful(after, marks, time, Always(window), now) && Trimmed(after, now, window, time)
  {
    after := Clean(kept, now, window, time);
    PruningIsFaithful(kept, after, marks, time, Always(window), clock, now);
    forall key ensures Get(after, key) == InWindow(Get(after, key), now, window, time) {
      Sequences.FilterTwice(Get(kept, key), Since(now - window, time), Since(now - window, time));
    }
  }

  lemma TrimmedIsExact<K(!new), E>(kept: map<K, seq<E>>, marks: seq<Mark<K, E>>, now: int, window: int, time: E -> int,
                                   key: K)
    requires Trimmed(kept, now, window, time) && Faithful(kept, marks, time, Always(window), now)
    ensures Get(kept, key) == InWindow(EntriesOf(marks, key), now, window, time)
  {
    assert InWindow(Get(kept, key), now, Always(window)(key), time)
           == InWindow(EntriesOf(marks, key), now, Always(window)(key), time);
  }

  lemma MarksSnoc(rules: seq<Rule>, history: seq<Seen>, s: Seen)
    ensures FloodMarks(history + [s])
            == if Truthy(s.packet.src) then FloodMarks(history) + [Mark(s.packet.src.value, s.at)]
               else FloodMarks(history)
    ensures ScanMarks(history + [s])
            == if IsProbe(s.packet) && !s.verdict.Flood?
               then ScanMarks(history) + [Mark(PairOf(s.packet), Probe(s.at, s.packet.dport.value))]
               else ScanMarks(history)
    ensures SynMarks(history + [s])
            == if IsSyn(s.packet) && !s.verdict.Flood? && !s.verdict.PortScan?
               then SynMarks(history) + [Mark(PairOf(s.packet), s.at)]
               else SynMarks(history)
    ensures RuleMarks(rules, history + [s]) == RuleMarks(rules, history) + TriedOn(rules, s)
  {
    assert (history + [s])[..|history|] == history;
  }

  lemma Regrouped<T>(a: seq<T>, b: seq<T>, x: T)
    ensures a + (b + [x]) == a + b + [x]
  {
  }

  lemma {:induction false} TriedElsewhere(marks: seq<Mark<RuleKey, int>>, rules: seq<Rule>, p: Packet, at: int,
                                          upTo: nat, key: RuleKey)
    requires upTo <= |rules| && upTo <= key.0
    ensures EntriesOf(marks + Tried(rules, p, at, upTo), key) == EntriesOf(marks, key)
  {
    if upTo == 0 {
      assert marks + [] == marks;
    } else {
      hide EntriesOf, Matches;
      var before := Tried(rules, p, at, upTo - 1);
      TriedElsewhere(marks, rules, p, at, upTo - 1, key);
      if Matches(rules[upTo - 1], p) {
        var m := Mark(RuleKeyOf(upTo - 1, p), at);
        EntriesSnoc(marks + before, m, key);
        Regrouped(marks, before, m);
      }
    }
  }

  /** Pruning and extending the entries of one rule's key, as the loop does for rule `i`. */
  lemma TryRule(custom: map<RuleKey, seq<int>>, marks: seq<Mark<RuleKey, int>>, rules: seq<Rule>, p: Packet, now: int,
                i: nat)
    requires i < |rules| && Matches(rules[i], p)
    requires Faithful(custom, marks + Tried(rules, p, now, i), Itself, WindowOf(rules), now)
    ensures var key := RuleKeyOf(i, p);
            var recent := InWindow(Get(custom, key), now, RuleWindow(rules[i]), Itself);
            && |recent| == Count(marks, key, now, RuleWindow(rules[i]))
            && Faithful(custom[key := recent + [now]], marks + Tried(rules, p, now, i + 1), Itself, WindowOf(rules),
                        now)
  {
    hide Matches, InWindow, EntriesOf, RuleWindow;
    var key, tried := RuleKeyOf(i, p), marks + Tried(rules, p, now, i);
    var recent := InWindow(Get(custom, key), now, RuleWindow(rules[i]), Itself);
    var pruned := custom[key := recent];
    TriedElsewhere(marks, rules, p, now, i, key);
    assert InWindow(Get(custom, key), now, WindowOf(rules)(key), Itself)
           == InWindow(EntriesOf(tried, key), now, WindowOf(rules)(key), Itself);
    PruningIsFaithful(custom, pruned, tried, Itself, WindowOf(rules), now, now);
    PushingIsFaithful(pruned, tried, Itself, WindowOf(rules), now, key, now);
    assert Push(pruned, key, now) == custom[key := recent + [now]];
    assert tried + [Mark(key, now)] == marks + Tried(rules, p, now, i + 1);
  }

  lemma {:induction false} RulesFireCustom(ps: Params, marks: seq<Mark<RuleKey, int>>, p: Packet, now: int, from: nat)
    requires from <= |ps.rules|
    ensures var v := FirstRule(ps, marks, p, now, from); v.Quiet? || v.Custom?
    decreases |ps.rules| - from
  {
    if from < |ps.rules| { RulesFireCustom(ps, marks, p, now, from + 1); }
  }

  /** Each stage raises its own kind of alert; an alert of another kind leaves the rules untried. */
  lemma KindsOfAlert(ps: Params, h: seq<Seen>, p: Packet, now: int, v: Verdict)
    ensures FloodVerdict(ps, h, p, now).Quiet? || FloodVerdict(ps, h, p, now).Flood?
    ensures ScanVerdict(ps, h, p, now).Quiet? || ScanVerdict(ps, h, p, now).PortScan?
    ensures SynVerdict(ps, h, p, now).Quiet? || SynVerdict(ps, h, p, now).SynFlood?
    ensures var r := FirstRule(ps, RuleMarks(ps.rules, h), p, now, 0); r.Quiet? || r.Custom?
    ensures v.Flood? || v.PortScan? || v.SynFlood?
            ==> RuleMarks(ps.rules, h) + TriedOn(ps.rules, Seen(p, now, v)) == RuleMarks(ps.rules, h)
  {
    RulesFireCustom(ps, RuleMarks(ps.rules, h), p, now, 0);
  }

  lemma JustifiedGrows(ps: Params, history: seq<Seen>, s: Seen)
    requires Justified(ps, history) && s.verdict == Deserved(ps, history, s.packet, s.at)
    ensures Justified(ps, history + [s])
  {
    hide Deserved;
    var longer := history + [s];
    assert longer[..|history|] == history;
    forall i | 0 <= i < |history| ensures longer[i] == history[i] && longer[..i] == history[..i] {}
  }

  class Detector {
    const params: Params
    var floods: map<string, seq<int>>
    var scans: map<Pair, seq<Probe>>
    var syns: map<Pair, seq<int>>
    var custom: map<RuleKey, seq<int>>
    ghost var history: seq<Seen>
    ghost var clock: int

    /** What the four dictionaries keep counts as much as the whole history. */
    ghost predicate Remembers(h: seq<Seen>, t: int)
      reads this
    {
      && Faithful(floods, FloodMarks(h), Itself, Always(params.floodWindow), t)
      && Faithful(scans, ScanMarks(h), ProbeTime, Always(params.scanWindow), t)
      && Faithful(syns, SynMarks(h), Itself, Always(params.synWindow), t)
      && Faithful(custom, RuleMarks(params.rules, h), Itself, WindowOf(params.rules), t)
    }

    ghost predicate Valid()
      reads this
    {
      Remembers(history, clock) && Justified(params, history)
    }

    constructor (params: Params)
      ensures Valid() && history == [] && this.params == params
    {
      this.params := params;
      floods, scans, syns, custom := map[], map[], map[], map[];
      history, clock := [], 0;
    }

    method Cleanup(now: int)
      requires Valid() && clock <= now
      modifies this`floods, this`scans, this`syns
      ensures Remembers(history, now)
      ensures Trimmed(floods, now, params.floodWindow, Itself) && Trimmed(scans, now, params.scanWindow, ProbeTime)
      ensures Trimmed(syns, now, params.synWindow, Itself)
    {
      scans := CleanFaithfully(scans, now, params.scanWindow, ProbeTime, ScanMarks(history), clock);
      syns := CleanFaithfully(syns, now, params.synWindow, Itself, SynMarks(history), clock);
      floods := CleanFaithfully(floods, now, params.floodWindow, Itself, FloodMarks(history), clock);
      PruningIsFaithful(custom, custom, RuleMarks(params.rules, history), Itself, WindowOf(params.rules), clock, now);
    }

    method CheckFlood(p: Packet, now: int, ghost h: seq<Seen>) returns (verdict: Verdict)
      requires Trimmed(floods, now, params.floodWindow, Itself)
      requires Faithful(floods, FloodMarks(h), Itself, Always(params.floodWindow), now)
      modifies this`floods
      ensures verdict == FloodVerdict(params, h, p, now)
      ensures Faithful(floods, if Truthy(p.src) then FloodMarks(h) + [Mark(p.src.value, now)] else FloodMarks(h),
                       Itself, Always(params.floodWindow), now)
    {
      verdict := Quiet;
      if Truthy(p.src) {
        TrimmedIsExact(floods, FloodMarks(h), now, params.floodWindow, Itself, p.src.value);
        PushingIsFaithful(floods, FloodMarks(h), Itself, Always(params.floodWindow), now, p.src.value, now);
        floods := Push(floods, p.src.value, now);
        var count := |floods[p.src.value]|;
        if count >= params.floodThreshold { verdict := Flood(count); }
      }
    }

    method CheckScan(p: Packet, now: int, ghost h: seq<Seen>) returns (verdict: Verdict)
      requires Faithful(scans, ScanMarks(h), ProbeTime, Always(params.scanWindow), now)
      modifies this`scans
      ensures verdict == ScanVerdict(params, h, p, now)
      ensures Faithful(scans,
                       if IsProbe(p) then ScanMarks(h) + [Mark(PairOf(p), Probe(now, p.dport.value))] else ScanMarks(h),
                       ProbeTime, Always(params.scanWindow), now)
    {
      hide ScanMarks, InWindow, EntriesOf, PortsOf;
      verdict := Quiet;
      if IsProbe(p) {
        var key, probe := PairOf(p), Probe(now, p.dport.value);
        PushingIsFaithful(scans, ScanMarks(h), ProbeTime, Always(params.scanWindow), now, key, probe);
        var pushed := Push(scans, key, probe);
        scans := pushed[key := InWindow(pushed[key], now, params.scanWindow, ProbeTime)];
        ghost var marks := ScanMarks(h) + [Mark(key, probe)];
        assert InWindow(Get(pushed, key), now, Always(params.scanWindow)(key), ProbeTime)
               == InWindow(EntriesOf(marks, key), now, Always(params.scanWindow)(key), ProbeTime);
        PruningIsFaithful(pushed, scans, marks, ProbeTime, Always(params.scanWindow), now, now);
        var ports := PortsOf(scans[key]);
        if |ports| >= params.scanThreshold { verdict := PortScan(ports); }
      }
    }

    method CheckSyn(p: Packet, now: int, ghost h: seq<Seen>) returns (verdict: Verdict)
      requires Faithful(syns, SynMarks(h), Itself, Always(params.synWindow), now)
      modifies this`syns
      ensures verdict == SynVerdict(params, h, p, now)
      ensures Faithful(syns, if IsSyn(p) then SynMarks(h) + [Mark(PairOf(p), now)] else SynMarks(h),
                       Itself, Always(params.synWindow), now)
    {
      hide SynMarks, InWindow, EntriesOf;
      verdict := Quiet;
      if IsSyn(p) {
        var key := PairOf(p);
        PushingIsFaithful(syns, SynMarks(h), Itself, Always(params.synWindow), now, key, now);
        var pushed := Push(syns, key, now);
        syns := pushed[key := InWindow(pushed[key], now, params.synWindow, Itself)];
        ghost var marks := SynMarks(h) + [Mark(key, now)];
        assert InWindow(Get(pushed, key), now, Always(params.synWindow)(key), Itself)
               == InWindow(EntriesOf(marks, key), now, Always(params.synWindow)(key), Itself);
        PruningIsFaithful(pushed, syns, marks, Itself, Always(params.synWindow), now, now);
        var count := |syns[key]|;
        if count >= params.synThreshold { verdict := SynFlood(count); }
      }
    }

    /** The rules are tried in order; the first whose count reaches its threshold fires and ends the loop. */
    method CheckCustomRules(p: Packet, now: int, ghost h: seq<Seen>) returns (verdict: Verdict)
      requires Faithful(custom, RuleMarks(params.rules, h), Itself, WindowOf(params.rules), now)
      modifies this`custom
      ensures verdict == FirstRule(params, RuleMarks(params.rules, h), p, now, 0)
      ensures Faithful(custom, RuleMarks(params.rules, h) + TriedOn(params.rules, Seen(p, now, verdict)), Itself,
                       WindowOf(params.rules), now)
    {
      hide Faithful, InWindow, Matches, RuleWindow, RuleThreshold, RuleMarks;
      ghost var marks := RuleMarks(params.rules, h);
      verdict := Quiet;
      var i := 0;
      assert marks + [] == marks;
      while i < |params.rules|
        invariant i <= |params.rules|
        invariant FirstRule(params, marks, p, now, 0) == FirstRule(params, marks, p, now, i)
        invariant Faithful(custom, marks + Tried(params.rules, p, now, i), Itself, WindowOf(params.rules), now)
      {
        var r := params.rules[i];
        if Matches(r, p) {
          TryRule(custom, marks, params.rules, p, now, i);
          var key := RuleKeyOf(i, p);
          var recent := InWindow(Get(custom, key), now, RuleWindow(r), Itself);
          custom := custom[key := recent + [now]];
          var count := |recent| + 1;
          if count >= RuleThreshold(r) { return Custom(i, count); }
        }
        i := i + 1;
      }
    }

    /** Every alert is the one the whole history calls for. */
    method AnalyzePacket(p: Packet, now: int) returns (verdict: Verdict)
      requires Valid() && clock <= now
      modifies this
      ensures Valid() && clock == now && history == old(history) + [Seen(p, now, verdict)]
      ensures verdict == Deserved(params, old(history), p, now)
    {
      hide Faithful, Trimmed, Justified, FloodMarks, ScanMarks, SynMarks, RuleMarks, FloodVerdict, ScanVerdict,
           SynVerdict, FirstRule, TriedOn;
      ghost var h := history;
      Cleanup(now);
      verdict := CheckFlood(p, now, h);
      if verdict == Quiet {
        verdict := CheckScan(p, now, h);
        if verdict == Quiet {
          verdict := CheckSyn(p, now, h);
          if verdict == Quiet { verdict := CheckCustomRules(p, now, h); }
        }
      }
      ghost var s := Seen(p, now, verdict);
      KindsOfAlert(params, h, p, now, verdict);
      MarksSnoc(params.rules, h, s);
      JustifiedGrows(params, h, s);
      history, clock := h + [s], now;
    }
  }
}
