/** core/flow_risk.py: a flow's risk score as the sum of the indicators that fire. */
module FlowRisk {
  import opened Sequences
  import opened Text
  import opened Values

  datatype Direction = Outbound | Inbound | Internal | Local

  datatype Level = LowRisk | MediumRisk | HighRisk | CriticalRisk

  /** What `score_flow` reads of a flow. */
  datatype Features = Features(alerts: multiset<string>, app: string, direction: Direction, unusualPort: bool,
                               packets: nat, bytes: nat, dnsFailures: nat, isNew: bool, hasSni: bool, process: string)

  /** The fixed sentences of `score_flow`. */
  datatype Reason = AlertDensity | UnknownProtocol | UncommonProtocol | UnusualPort | ManyPackets | ManyBytes
                  | DnsFailures
                  | NewSni | NewDestination | SensitiveProcess | NoIndicators

  datatype Risk = Risk(score: nat, level: Level, reasons: seq<Reason>)

  datatype Indicator = Indicator(fires: bool, points: nat, reason: Reason)

  const WEIGHTS: seq<(string, nat)> := [("critical", 34), ("high", 20), ("medium", 10), ("low", 3)]

  const COMMON := {"DNS", "HTTP", "TLS", "SSH", "ICMP"}

  const SENSITIVE := ["powershell", "cmd", "wscript", "cscript", "rundll32"]

  function RiskLevel(score: nat): Level {
    if score >= 80 then CriticalRisk else if score >= 60 then HighRisk else if score >= 30 then MediumRisk else LowRisk
  }

  predicate IsSensitive(process: string) {
    exists i :: 0 <= i < |SENSITIVE| && Contains(Lower(process), SENSITIVE[i])
  }

  function App(f: Features): string { Upper(OrElse(f.app, "UNKNOWN")) }

  predicate External(d: Direction) { d.Outbound? || d.Inbound? }

  /** At most two alerts of a severity count. */
  function AlertPoints(alerts: multiset<string>, severities: nat): nat
    requires severities <= |WEIGHTS|
  {
    if severities == 0 then 0
    else
      var (severity, weight) := WEIGHTS[severities - 1];
      AlertPoints(alerts, severities - 1) + weight * Min(alerts[severity], 2)
  }

  function Indicators(f: Features): (table: seq<Indicator>)
    ensures |table| == 9
  {
    [ Indicator(f.alerts["critical"] > 0 || f.alerts["high"] > 0, 10, AlertDensity),
      Indicator(App(f) == "UNKNOWN" && External(f.direction), 22, UnknownProtocol),
      Indicator(App(f) != "UNKNOWN" && App(f) !in COMMON && f.direction.Outbound?, 9, UncommonProtocol),
      Indicator(f.unusualPort, 14, UnusualPort),
      Indicator(f.packets >= 1000, 12, ManyPackets),
      Indicator(f.bytes >= 50 * 1024 * 1024, 12, ManyBytes),
      Indicator(f.dnsFailures >= 3, 20, DnsFailures),
      Indicator(f.direction.Outbound? && f.isNew, 10,
                if App(f) == "TLS" && f.hasSni then NewSni else NewDestination),
      Indicator(f.direction.Outbound? && IsSensitive(f.process), 18, SensitiveProcess) ]
  }

  function PointsOf(table: seq<Indicator>, count: nat): nat
    requires count <= |table|
  {
    if count == 0 then 0
    else PointsOf(table, count - 1) + if table[count - 1].fires then table[count - 1].points else 0
  }

  function ReasonsOf(table: seq<Indicator>, count: nat): seq<Reason>
    requires count <= |table|
  {
    if count == 0 then []
    else if table[count - 1].fires then ReasonsOf(table, count - 1) + [table[count - 1].reason]
    else ReasonsOf(table, count - 1)
  }

  function RiskOf(f: Features): Risk {
    var table := Indicators(f);
    var score := Min(100, AlertPoints(f.alerts, |WEIGHTS|) + PointsOf(table, |table|));
    var reasons := ReasonsOf(table, |table|);
    Risk(score, RiskLevel(score), if reasons == [] then [NoIndicators] else reasons)
  }

  // ----- the method accumulates exactly that -----

  method AddAlertPoints(alerts: multiset<string>) returns (score: nat)
    ensures score == AlertPoints(alerts, |WEIGHTS|)
  {
    score := 0;
    for i := 0 to |WEIGHTS|
      invariant score == AlertPoints(alerts, i)
    {
      var (severity, weight) := WEIGHTS[i];
      var count := alerts[severity];
      if count > 0 { score := score + Min(weight * count, weight * 2); }
    }
  }

  method FindSensitive(process: string) returns (found: bool)
    ensures found == IsSensitive(process)
  {
    found := false;
    for i := 0 to |SENSITIVE|
      invariant found == exists j :: 0 <= j < i && Contains(Lower(process), SENSITIVE[j])
    {
      if Contains(Lower(process), SENSITIVE[i]) { found := true; }
    }
  }

  /** `score` and `reasons` take in the first `count` indicators. */
  ghost predicate Tallied(f: Features, count: nat, score: nat, reasons: seq<Reason>)
    requires count <= 9
  {
    score == AlertPoints(f.alerts, |WEIGHTS|) + PointsOf(Indicators(f), count)
      && reasons == ReasonsOf(Indicators(f), count)
  }

  method AddProtocolPoints(f: Features, before: nat, found: seq<Reason>) returns (score: nat, reasons: seq<Reason>)
    requires Tallied(f, 1, before, found)
    ensures Tallied(f, 3, score, reasons)
  {
    score, reasons := before, found;
    var app := Upper(OrElse(f.app, "UNKNOWN"));
    if app == "UNKNOWN" && (f.direction.Inbound? || f.direction.Outbound?) {
      score, reasons := score + 22, reasons + [UnknownProtocol];
    } else if app !in COMMON && f.direction.Outbound? {
      score, reasons := score + 9, reasons + [UncommonProtocol];
    }
    assert PointsOf(Indicators(f), 2) == PointsOf(Indicators(f), 1) + if Indicators(f)[1].fires then 22 else 0;
  }

  method AddConnectionPoints(f: Features, before: nat) returns (score: nat, reasons: seq<Reason>)
    requires Tallied(f, 0, before, [])
    ensures Tallied(f, 4, score, reasons)
  {
    score, reasons := before, [];
    if f.alerts["critical"] > 0 || f.alerts["high"] > 0 {
      score, reasons := score + 10, reasons + [AlertDensity];
    }
    score, reasons := AddProtocolPoints(f, score, reasons);
    if f.unusualPort {
      score, reasons := score + 14, reasons + [UnusualPort];
    }
  }

  method AddVolumePoints(f: Features, before: nat, found: seq<Reason>) returns (score: nat, reasons: seq<Reason>)
    requires Tallied(f, 4, before, found)
    ensures Tallied(f, 7, score, reasons)
  {
    score, reasons := before, found;
    if f.packets >= 1000 {
      score, reasons := score + 12, reasons + [ManyPackets];
    }
    assert Tallied(f, 5, score, reasons);
    if f.bytes >= 50 * 1024 * 1024 {
      score, reasons := score + 12, reasons + [ManyBytes];
    }
    assert Tallied(f, 6, score, reasons);
    if f.dnsFailures >= 3 {
      score, reasons := score + 20, reasons + [DnsFailures];
    }
  }

  method AddDestinationPoints(f: Features, before: nat, found: seq<Reason>) returns (score: nat, reasons: seq<Reason>)
    requires Tallied(f, 7, before, found)
    ensures Tallied(f, 9, score, reasons)
  {
    score, reasons := before, found;
    if f.direction.Outbound? && f.isNew {
      score := score + 10;
      reasons := reasons + [if App(f) == "TLS" && f.hasSni then NewSni else NewDestination];
    }
    assert Tallied(f, 8, score, reasons);
    var sensitive := FindSensitive(f.process);
    if f.direction.Outbound? && sensitive {
      score, reasons := score + 18, reasons + [SensitiveProcess];
    }
  }

  method ScoreFlow(f: Features) returns (risk: Risk)
    ensures risk == RiskOf(f)
  {
    var score := AddAlertPoints(f.alerts);
    var reasons;
    score, reasons := AddConnectionPoints(f, score);
    score, reasons := AddVolumePoints(f, score, reasons);
    score, reasons := AddDestinationPoints(f, score, reasons);
    var bounded := Min(100, score);
    risk := Risk(bounded, RiskLevel(bounded), if reasons == [] then [NoIndicators] else reasons);
  }

  // ----- what the score means -----

  /** `g` has seen at least what `f` has, of the same flow. */
  predicate Later(f: Features, g: Features) {
    && f.alerts <= g.alerts && f.direction == g.direction && f.unusualPort == g.unusualPort
    && f.packets <= g.packets && f.bytes <= g.bytes && f.dnsFailures <= g.dnsFailures && f.isNew == g.isNew
    && f.process == g.process
  }

  /** What the application protocol alone is charged. */
  function ProtocolPoints(f: Features): nat {
    if App(f) == "UNKNOWN" && External(f.direction) then 22
    else if App(f) !in COMMON && f.direction.Outbound? then 9
    else 0
  }

  /** The indicators with the two about the protocol switched off. */
  function OtherIndicators(f: Features): (table: seq<Indicator>)
    ensures |table| == 9
  {
    var table := Indicators(f);
    table[1 := table[1].(fires := false)][2 := table[2].(fires := false)]
  }

  /** What the score counts besides the protocol. */
  function Evidence(f: Features): nat { AlertPoints(f.alerts, |WEIGHTS|) + PointsOf(OtherIndicators(f), 9) }

  /** The score before it is capped. */
  function Raw(f: Features): nat { AlertPoints(f.alerts, |WEIGHTS|) + PointsOf(Indicators(f), 9) }

  lemma {:induction false} SwitchOff(table: seq<Indicator>, k: nat, count: nat)
    requires k < |table| && count <= |table|
    ensures PointsOf(table, count)
            == PointsOf(table[k := table[k].(fires := false)], count)
               + if count > k && table[k].fires then table[k].points else 0
  {
    if count > 0 { SwitchOff(table, k, count - 1); }
  }

  lemma RawSplits(f: Features)
    ensures Raw(f) == Evidence(f) + ProtocolPoints(f)
  {
    hide AlertPoints, PointsOf;
    var table := Indicators(f);
    SwitchOff(table, 1, 9);
    SwitchOff(table[1 := table[1].(fires := false)], 2, 9);
  }

  lemma {:induction false} MoreFires(a: seq<Indicator>, b: seq<Indicator>, count: nat)
    requires count <= |a| == |b|
    requires forall i :: 0 <= i < |a| ==> a[i].points == b[i].points && (a[i].fires ==> b[i].fires)
    ensures PointsOf(a, count) <= PointsOf(b, count)
  {
    if count > 0 { MoreFires(a, b, count - 1); }
  }

  lemma {:induction false} MoreAlerts(a: multiset<string>, b: multiset<string>, severities: nat)
    requires a <= b && severities <= |WEIGHTS|
    ensures AlertPoints(a, severities) <= AlertPoints(b, severities)
  {
    if severities > 0 {
      MoreAlerts(a, b, severities - 1);
      var (severity, weight) := WEIGHTS[severities - 1];
      assert a[severity] <= b[severity];
    }
  }

  /** Seeing more of a flow never lowers its evidence; and it lowers the score exactly when the protocol
      loses more points than the evidence gains and the new score is below the cap. */
  lemma RiskDropsIff(f: Features, g: Features)
    requires Later(f, g)
    ensures Evidence(f) <= Evidence(g)
    ensures RiskOf(g).score < RiskOf(f).score
            <==> Raw(g) < 100 && ProtocolPoints(f) - ProtocolPoints(g) > Evidence(g) - Evidence(f)
  {
    MoreEvidence(f, g);
    hide Evidence, ProtocolPoints, Indicators, AlertPoints, PointsOf;
    RawSplits(f);
    RawSplits(g);
  }

  lemma MoreEvidence(f: Features, g: Features)
    requires Later(f, g)
    ensures Evidence(f) <= Evidence(g)
  {
    hide AlertPoints, PointsOf, OtherIndicators;
    MoreAlerts(f.alerts, g.alerts, |WEIGHTS|);
    OthersFire(f, g);
    MoreFires(OtherIndicators(f), OtherIndicators(g), 9);
  }

  lemma OthersFire(f: Features, g: Features)
    requires Later(f, g)
    ensures var a, b := OtherIndicators(f), OtherIndicators(g);
            forall i :: 0 <= i < 9 ==> a[i].points == b[i].points && (a[i].fires ==> b[i].fires)
  {
    hide App, IsSensitive, External;
  }

  /** So neither score nor level ever drops while the protocol costs no less. */
  lemma RiskNeverDrops(f: Features, g: Features)
    requires Later(f, g) && ProtocolPoints(f) <= ProtocolPoints(g)
    ensures RiskOf(f).score <= RiskOf(g).score
    ensures Rank(RiskOf(f).level) <= Rank(RiskOf(g).level)
  {
    hide Evidence, ProtocolPoints, Indicators, AlertPoints, PointsOf;
    RiskDropsIff(f, g);
  }

  function Rank(l: Level): nat {
    match l
    case LowRisk => 0
    case MediumRisk => 1
    case HighRisk => 2
    case CriticalRisk => 3
  }

  /** When only the protocol changes - unknown to any other, uncommon to common - the score drops if and
      only if the new protocol costs less and the new score is below the cap. */
  lemma RecognisedProtocolLowersRisk(f: Features, g: Features)
    requires g == f.(app := g.app)
    ensures RiskOf(g).score < RiskOf(f).score <==> ProtocolPoints(g) < ProtocolPoints(f) && Raw(g) < 100
    ensures RiskOf(g).score == Min(100, Raw(f) - ProtocolPoints(f) + ProtocolPoints(g))
  {
    SameEvidence(f, g);
    hide Evidence, ProtocolPoints, Indicators, AlertPoints, PointsOf;
    RiskDropsIff(f, g);
    RawSplits(f);
    RawSplits(g);
  }

  lemma SameEvidence(f: Features, g: Features)
    requires g == f.(app := g.app)
    ensures Evidence(f) == Evidence(g)
  {
    MoreEvidence(f, g);
    MoreEvidence(g, f);
  }
}
