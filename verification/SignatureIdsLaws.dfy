/** Which packets raise which alert, said of the packets' fields and of the packets seen before. */
module SignatureIdsLaws {
  import opened Sequences
  import opened Text
  import opened TextLaws
  import opened Values
  import opened Windows
  import opened SignatureIds

  // ----- the packets each stage is about -----

  predicate Has(text: Option<string>, value: string) { text == Some(value) && value != "" }

  predicate Between(p: Packet, src: string, dst: string) { Has(p.src, src) && Has(p.dst, dst) }

  /** TCP, with the S flag and without the A flag, from somewhere to somewhere. */
  predicate BareSyn(p: Packet) {
    && p.src.Some? && p.src.value != "" && p.dst.Some? && p.dst.value != "" && p.proto == "TCP"
    && (exists i :: 0 <= i < |p.flags| && p.flags[i] == 'S') && (forall i :: 0 <= i < |p.flags| ==> p.flags[i] != 'A')
  }

  /** TCP or UDP to a port, from somewhere to somewhere. */
  predicate Probing(p: Packet) {
    && p.src.Some? && p.src.value != "" && p.dst.Some? && p.dst.value != "" && p.dport.Some?
    && p.proto in {"TCP", "UDP"}
  }

  /** The rule is switched on, its source is a star or the packet's, its port 0 or the packet's. */
  predicate Concerns(r: Rule, p: Packet) {
    && r.present && r.enabled
    && (r.srcIp == "" || Strip(r.srcIp) == "*" || p.src == Some(Strip(r.srcIp)))
    && (r.dport == 0 || r.dport == if p.dport == None then 0 else p.dport.value)
  }

  lemma StagesLookAt(p: Packet, r: Rule)
    ensures IsSyn(p) <==> BareSyn(p)
    ensures IsProbe(p) <==> Probing(p)
    ensures Matches(r, p) <==> Concerns(r, p)
  {
    StrippedStays("*");
  }

  // ----- flood -----

  function SentBy(src: string, since: int): Seen -> bool { (s: Seen) => Has(s.packet.src, src) && s.at >= since }

  lemma CountSnoc<K>(marks: seq<Mark<K, int>>, m: Mark<K, int>, key: K, now: int, window: int)
    ensures Count(marks + [m], key, now, window)
            == Count(marks, key, now, window) + if m.key == key && m.entry >= now - window then 1 else 0
  {
    EntriesSnoc(marks, m, key);
    FilterSnoc(EntriesOf(marks, key), m.entry, Since(now - window, Windows.Itself));
  }

  lemma CountNone<K>(key: K, now: int, window: int)
    ensures Count([], key, now, window) == 0
  {
  }

  lemma {:induction false} FloodsCounted(h: seq<Seen>, src: string, now: int, window: int)
    requires src != ""
    ensures Count(FloodMarks(h), src, now, window) == |Filter(h, SentBy(src, now - window))|
  {
    if h == [] {
      CountNone(src, now, window);
    } else {
      hide Count, Filter;
      var init, s := h[..|h| - 1], h[|h| - 1];
      assert h == init + [s];
      FloodsCounted(init, src, now, window);
      FilterSnoc(init, s, SentBy(src, now - window));
      if Truthy(s.packet.src) { CountSnoc(FloodMarks(init), Mark(s.packet.src.value, s.at), src, now, window); }
    }
  }

  /** A flood is raised exactly when the source is named and has sent, this packet included, at least the
      threshold of packets within the window. */
  lemma FloodIff(ps: Params, h: seq<Seen>, p: Packet, now: int)
    ensures var v := Deserved(ps, h, p, now);
            if p.src == None || p.src.value == "" then !v.Flood?
            else
              var n := |Filter(h, SentBy(p.src.value, now - ps.floodWindow))| + 1;
              (v.Flood? <==> n >= ps.floodThreshold) && (v.Flood? ==> v == Flood(n))
  {
    hide ScanVerdict, SynVerdict, FirstRule, Count, Filter, RuleMarks, FloodMarks;
    KindsOfAlert(ps, h, p, now, Quiet);
    if p.src.Some? && p.src.value != "" { FloodsCounted(h, p.src.value, now, ps.floodWindow); }
  }

  // ----- port scan -----

  /** A probe of this pair that raised no flood. */
  function ProbedBy(src: string, dst: string, since: int): Seen -> bool {
    (s: Seen) => Probing(s.packet) && Between(s.packet, src, dst) && s.at >= since && !s.verdict.Flood?
  }

  ghost function PortsProbed(h: seq<Seen>, src: string, dst: string, since: int): set<int> {
    set s | s in h && ProbedBy(src, dst, since)(s) && s.packet.dport.Some? :: s.packet.dport.value
  }

  lemma ScannedSnoc(marks: seq<Mark<Pair, Probe>>, m: Mark<Pair, Probe>, key: Pair, now: int, window: int)
    ensures Scanned(marks + [m], key, now, window)
            == Scanned(marks, key, now, window)
               + if m.key == key && m.entry.at >= now - window then {m.entry.port} else {}
  {
    EntriesSnoc(marks, m, key);
    FilterSnoc(EntriesOf(marks, key), m.entry, Since(now - window, ProbeTime));
    assert ProbeTime(m.entry) == m.entry.at;
  }

  lemma ScannedNone(key: Pair, now: int, window: int)
    ensures Scanned([], key, now, window) == {}
  {
  }

  lemma ProbedSnoc(h: seq<Seen>, s: Seen, src: string, dst: string, since: int)
    ensures PortsProbed(h + [s], src, dst, since)
            == PortsProbed(h, src, dst, since)
               + if ProbedBy(src, dst, since)(s) && s.packet.dport.Some? then {s.packet.dport.value} else {}
  {
  }

  lemma ProbeMark(s: Seen, src: string, dst: string, now: int, window: int)
    requires src != "" && dst != ""
    ensures IsProbe(s.packet) <==> Probing(s.packet)
    ensures IsProbe(s.packet) && !s.verdict.Flood? ==>
              (ProbedBy(src, dst, now - window)(s) <==> PairOf(s.packet) == (src, dst) && s.at >= now - window)
    ensures !IsProbe(s.packet) || s.verdict.Flood? ==> !ProbedBy(src, dst, now - window)(s)
  {
  }

  lemma {:induction false} ScansCounted(h: seq<Seen>, src: string, dst: string, now: int, window: int)
    requires src != "" && dst != ""
    ensures Scanned(ScanMarks(h), (src, dst), now, window) == PortsProbed(h, src, dst, now - window)
  {
    if h == [] {
      ScannedNone((src, dst), now, window);
    } else {
      hide Scanned, PortsProbed, ProbedBy;
      var init, s := h[..|h| - 1], h[|h| - 1];
      assert h == init + [s];
      ScansCounted(init, src, dst, now, window);
      ProbedSnoc(init, s, src, dst, now - window);
      ProbeMark(s, src, dst, now, window);
      if IsProbe(s.packet) && !s.verdict.Flood? {
        ScannedSnoc(ScanMarks(init), Mark(PairOf(s.packet), Probe(s.at, s.packet.dport.value)), (src, dst), now,
                    window);
      }
    }
  }

  /** Where no flood is raised, a scan is raised exactly when the packet is a probe and its pair has probed, this
      packet included, at least the threshold of different ports within the window. */
  lemma PortScanIff(ps: Params, h: seq<Seen>, p: Packet, now: int)
    requires !Deserved(ps, h, p, now).Flood?
    ensures var v := Deserved(ps, h, p, now);
            if !Probing(p) then !v.PortScan?
            else
              var own := if ps.scanWindow >= 0 then {p.dport.value} else {};
              var ports := PortsProbed(h, p.src.value, p.dst.value, now - ps.scanWindow) + own;
              (v.PortScan? <==> |ports| >= ps.scanThreshold) && (v.PortScan? ==> v == PortScan(ports))
  {
    hide Scanned, PortsProbed, FloodVerdict, SynVerdict, FirstRule, RuleMarks, ScanMarks;
    KindsOfAlert(ps, h, p, now, Quiet);
    if Probing(p) {
      ScansCounted(h, p.src.value, p.dst.value, now, ps.scanWindow);
      ScannedSnoc(ScanMarks(h), Mark(PairOf(p), Probe(now, p.dport.value)), PairOf(p), now, ps.scanWindow);
    }
  }

  // ----- SYN flood -----

  /** A bare SYN of this pair that raised neither flood nor scan. */
  function SynOf(src: string, dst: string, since: int): Seen -> bool {
    (s: Seen) => BareSyn(s.packet) && Between(s.packet, src, dst) && s.at >= since
                 && !s.verdict.Flood? && !s.verdict.PortScan?
  }

  lemma {:induction false} SynsCounted(h: seq<Seen>, src: string, dst: string, now: int, window: int)
    requires src != "" && dst != ""
    ensures Count(SynMarks(h), (src, dst), now, window) == |Filter(h, SynOf(src, dst, now - window))|
  {
    if h == [] {
      CountNone((src, dst), now, window);
    } else {
      hide Count, Filter;
      var init, s := h[..|h| - 1], h[|h| - 1];
      assert h == init + [s];
      SynsCounted(init, src, dst, now, window);
      FilterSnoc(init, s, SynOf(src, dst, now - window));
      if IsSyn(s.packet) { CountSnoc(SynMarks(init), Mark(PairOf(s.packet), s.at), (src, dst), now, window); }
    }
  }

  /** A packet that is no bare SYN raises no SYN flood. Where neither flood nor scan is raised, a bare SYN raises
      one exactly when its pair has sent, this packet included, at least the threshold of them in the window. */
  lemma SynFloodIff(ps: Params, h: seq<Seen>, p: Packet, now: int)
    ensures var v := Deserved(ps, h, p, now);
            if !BareSyn(p) then !v.SynFlood?
            else
              var n := |Filter(h, SynOf(p.src.value, p.dst.value, now - ps.synWindow))|
                       + if ps.synWindow >= 0 then 1 else 0;
              && (v.SynFlood? ==> v == SynFlood(n))
              && (!v.Flood? && !v.PortScan? ==> (v.SynFlood? <==> n >= ps.synThreshold))
  {
    hide Count, FloodVerdict, ScanVerdict, FirstRule, RuleMarks, SynMarks, Filter;
    KindsOfAlert(ps, h, p, now, Quiet);
    if BareSyn(p) {
      SynsCounted(h, p.src.value, p.dst.value, now, ps.synWindow);
      CountSnoc(SynMarks(h), Mark(PairOf(p), now), PairOf(p), now, ps.synWindow);
    }
  }

  /** A packet that is no bare SYN changes no later SYN count, and one that is no probe no later port count. */
  lemma OtherPacketsLeaveNoTrace(h: seq<Seen>, s: Seen, src: string, dst: string, since: int)
    ensures !BareSyn(s.packet) ==> Filter(h + [s], SynOf(src, dst, since)) == Filter(h, SynOf(src, dst, since))
    ensures !Probing(s.packet) ==> PortsProbed(h + [s], src, dst, since) == PortsProbed(h, src, dst, since)
  {
    FilterSnoc(h, s, SynOf(src, dst, since));
    ProbedSnoc(h, s, src, dst, since);
  }

  // ----- custom rules -----

  function Label(p: Packet): string { if p.src.Some? && p.src.value != "" then p.src.value else "-" }

  function Port(p: Packet): int { if p.dport == None then 0 else p.dport.value }

  /** A packet with this label and port on which rule `i` was tried: it concerned the rule, and no alert came
      before the rule. */
  function TriedBy(rules: seq<Rule>, i: nat, origin: string, port: int, since: int): Seen -> bool {
    (s: Seen) => i < |rules| && Concerns(rules[i], s.packet) && Label(s.packet) == origin && Port(s.packet) == port
                 && s.at >= since
                 && (s.verdict.Quiet? || (s.verdict.Custom? && i <= s.verdict.rule < |rules|))
  }

  lemma TriedStep(rules: seq<Rule>, p: Packet, at: int, i: nat)
    requires i < |rules|
    ensures Tried(rules, p, at, i + 1) == Tried(rules, p, at, i)
                                          + if Concerns(rules[i], p) then [Mark((i, Label(p), Port(p)), at)] else []
  {
    hide Matches, Concerns;
    StagesLookAt(p, rules[i]);
    assert Tried(rules, p, at, i) + [] == Tried(rules, p, at, i);
  }

  /** Whether rule `key.0` is among the first `upTo` tried on this packet, under this key and in the window. */
  function Once(rules: seq<Rule>, p: Packet, at: int, upTo: nat, key: RuleKey, now: int, window: int): nat
    requires key.0 < |rules|
  {
    if key.0 < upTo && Concerns(rules[key.0], p) && key == (key.0, Label(p), Port(p)) && at >= now - window
    then 1 else 0
  }

  lemma OnceStep(rules: seq<Rule>, p: Packet, at: int, i: nat, key: RuleKey, now: int, window: int)
    requires i < |rules| && key.0 < |rules|
    ensures Once(rules, p, at, i + 1, key, now, window)
            == Once(rules, p, at, i, key, now, window)
               + if Concerns(rules[i], p) && key == (i, Label(p), Port(p)) && at >= now - window then 1 else 0
    ensures Once(rules, p, at, 0, key, now, window) == 0
  {
    hide Concerns, Label, Port;
  }

  lemma CountAppended(marks: seq<Mark<RuleKey, int>>, before: seq<Mark<RuleKey, int>>, m: Mark<RuleKey, int>,
                      key: RuleKey, now: int, window: int)
    ensures Count(marks + (before + [m]), key, now, window)
            == Count(marks + before, key, now, window) + if m.key == key && m.entry >= now - window then 1 else 0
  {
    hide Count;
    CountSnoc(marks + before, m, key, now, window);
    Regrouped(marks, before, m);
  }

  lemma {:induction false} TriedOnceEach(marks: seq<Mark<RuleKey, int>>, rules: seq<Rule>, p: Packet, at: int,
                                         upTo: nat, key: RuleKey, now: int, window: int)
    requires upTo <= |rules| && key.0 < |rules|
    ensures Count(marks + Tried(rules, p, at, upTo), key, now, window)
            == Count(marks, key, now, window) + Once(rules, p, at, upTo, key, now, window)
  {
    if upTo == 0 {
      assert Tried(rules, p, at, 0) == [] && marks + [] == marks;
    } else {
      hide Count, Tried, Concerns, Once, Label, Port;
      OnceStep(rules, p, at, upTo - 1, key, now, window);
      var before := Tried(rules, p, at, upTo - 1);
      TriedOnceEach(marks, rules, p, at, upTo - 1, key, now, window);
      TriedStep(rules, p, at, upTo - 1);
      if Concerns(rules[upTo - 1], p) {
        CountAppended(marks, before, Mark((upTo - 1, Label(p), Port(p)), at), key, now, window);
      } else {
        assert before + [] == before;
      }
    }
  }

  lemma {:induction false} RulesCounted(rules: seq<Rule>, h: seq<Seen>, i: nat, origin: string, port: int, now: int,
                                        window: int)
    requires i < |rules|
    ensures Count(RuleMarks(rules, h), (i, origin, port), now, window)
            == |Filter(h, TriedBy(rules, i, origin, port, now - window))|
  {
    if h == [] {
      CountNone((i, origin, port), now, window);
    } else {
      hide Count, Filter, Concerns, Tried;
      var init, s := h[..|h| - 1], h[|h| - 1];
      var marks, key := RuleMarks(rules, init), (i, origin, port);
      assert h == init + [s];
      RulesCounted(rules, init, i, origin, port, now, window);
      FilterSnoc(init, s, TriedBy(rules, i, origin, port, now - window));
      match s.verdict {
        case Quiet => TriedOnceEach(marks, rules, s.packet, s.at, |rules|, key, now, window);
        case Custom(rule, _) =>
          if rule < |rules| {
            TriedOnceEach(marks, rules, s.packet, s.at, rule + 1, key, now, window);
          } else {
            assert marks + [] == marks;
          }
        case _ => assert marks + [] == marks;
      }
    }
  }

  /** How often rule `i` would have been tried on packets like this one within its window, this one included. */
  function Tries(ps: Params, h: seq<Seen>, p: Packet, now: int, i: nat): nat
    requires i < |ps.rules|
  {
    var window := if ps.rules[i].window == 0 then 30 else ps.rules[i].window;
    |Filter(h, TriedBy(ps.rules, i, Label(p), Port(p), now - window))| + 1
  }

  predicate Fires(ps: Params, h: seq<Seen>, p: Packet, now: int, i: nat)
    requires i < |ps.rules|
  {
    var threshold := if ps.rules[i].threshold == 0 then 10 else ps.rules[i].threshold;
    Concerns(ps.rules[i], p) && Tries(ps, h, p, now, i) >= threshold
  }

  lemma FiringIs(ps: Params, h: seq<Seen>, p: Packet, now: int, i: nat)
    requires i < |ps.rules|
    ensures var count := Count(RuleMarks(ps.rules, h), RuleKeyOf(i, p), now, RuleWindow(ps.rules[i])) + 1;
            && count == Tries(ps, h, p, now, i)
            && (Matches(ps.rules[i], p) && count >= RuleThreshold(ps.rules[i]) <==> Fires(ps, h, p, now, i))
  {
    hide Count, Matches, Concerns, Filter, RuleMarks;
    RulesCounted(ps.rules, h, i, Label(p), Port(p), now, RuleWindow(ps.rules[i]));
    StagesLookAt(p, ps.rules[i]);
  }

  /** Rule `v.rule` is the first from `from` on that fires, and `v` reports it; or none fires. */
  ghost predicate FirstFiring(ps: Params, h: seq<Seen>, p: Packet, now: int, from: nat, v: Verdict) {
    if v.Custom? then
      && from <= v.rule < |ps.rules| && Fires(ps, h, p, now, v.rule) && v.count == Tries(ps, h, p, now, v.rule)
      && (forall i :: from <= i < v.rule ==> !Fires(ps, h, p, now, i))
    else
      v.Quiet? && forall i :: from <= i < |ps.rules| ==> !Fires(ps, h, p, now, i)
  }

  lemma {:induction false} FirstRuleIs(ps: Params, h: seq<Seen>, p: Packet, now: int, from: nat)
    requires from <= |ps.rules|
    ensures FirstFiring(ps, h, p, now, from, FirstRule(ps, RuleMarks(ps.rules, h), p, now, from))
    decreases |ps.rules| - from
  {
    if from < |ps.rules| {
      hide Count, Matches, Concerns, Filter, RuleMarks, Fires, Tries;
      FirstRuleIs(ps, h, p, now, from + 1);
      FiringIs(ps, h, p, now, from);
    }
  }

  /** Where no other stage raises an alert, the first rule that fires does, with its count; and none if none fires. */
  lemma CustomIff(ps: Params, h: seq<Seen>, p: Packet, now: int)
    ensures var v := Deserved(ps, h, p, now);
            v.Flood? || v.PortScan? || v.SynFlood? || FirstFiring(ps, h, p, now, 0, v)
  {
    hide FirstRule, FloodVerdict, ScanVerdict, SynVerdict, FirstFiring, RuleMarks;
    KindsOfAlert(ps, h, p, now, Quiet);
    FirstRuleIs(ps, h, p, now, 0);
  }
}
