/** The risk score spelled out: every indicator with its points, and every level with its range. */
module FlowRiskLaws {
  import opened Text
  import opened TextLaws
  import opened FlowRisk

  function AtMostTwo(n: nat): nat { if n > 2 then 2 else n }

  /** Alerts by severity: 34, 20, 10 and 3 each, two of a kind at most, and 10 more for a critical or high one. */
  function AlertSum(f: Features): nat {
    34 * AtMostTwo(f.alerts["critical"]) + 20 * AtMostTwo(f.alerts["high"]) + 10 * AtMostTwo(f.alerts["medium"])
    + 3 * AtMostTwo(f.alerts["low"]) + if f.alerts["critical"] > 0 || f.alerts["high"] > 0 then 10 else 0
  }

  predicate Unknown(f: Features) { f.app == "" || Upper(f.app) == "UNKNOWN" }

  predicate Common(f: Features) { Upper(f.app) in {"DNS", "HTTP", "TLS", "SSH", "ICMP"} }

  predicate Sensitive(process: string) {
    var p := Lower(process);
    Contains(p, "powershell") || Contains(p, "cmd") || Contains(p, "wscript") || Contains(p, "cscript")
    || Contains(p, "rundll32")
  }

  function ProtocolSum(f: Features): nat {
    if Unknown(f) && (f.direction == Outbound || f.direction == Inbound) then 22
    else if !Unknown(f) && !Common(f) && f.direction == Outbound then 9
    else 0
  }

  function TrafficSum(f: Features): nat {
    (if f.unusualPort then 14 else 0) + (if f.packets >= 1000 then 12 else 0) + (if f.bytes >= 52428800 then 12 else 0)
    + (if f.dnsFailures >= 3 then 20 else 0)
  }

  function DestinationSum(f: Features): nat {
    (if f.direction == Outbound && f.isNew then 10 else 0)
    + (if f.direction == Outbound && Sensitive(f.process) then 18 else 0)
  }

  lemma AppIs(f: Features)
    ensures App(f) == (if f.app == "" then "UNKNOWN" else Upper(f.app))
    ensures App(f) == "UNKNOWN" <==> Unknown(f)
    ensures App(f) in COMMON <==> Common(f)
  {
    hide Upper;
    UpperCaseStays("UNKNOWN");
    EmptyUpper(f.app);
  }

  lemma SensitiveIs(process: string)
    ensures IsSensitive(process) <==> Sensitive(process)
  {
    hide Contains, Lower;
    assert SENSITIVE[0] == "powershell" && SENSITIVE[1] == "cmd" && SENSITIVE[2] == "wscript";
    assert SENSITIVE[3] == "cscript" && SENSITIVE[4] == "rundll32";
  }

  lemma AlertPointsAre(f: Features)
    ensures AlertPoints(f.alerts, |WEIGHTS|)
            == 34 * AtMostTwo(f.alerts["critical"]) + 20 * AtMostTwo(f.alerts["high"])
               + 10 * AtMostTwo(f.alerts["medium"]) + 3 * AtMostTwo(f.alerts["low"])
  {
    assert AlertPoints(f.alerts, 0) == 0;
    assert AlertPoints(f.alerts, 1) == 34 * AtMostTwo(f.alerts["critical"]);
    assert AlertPoints(f.alerts, 2) == AlertPoints(f.alerts, 1) + 20 * AtMostTwo(f.alerts["high"]);
    assert AlertPoints(f.alerts, 3) == AlertPoints(f.alerts, 2) + 10 * AtMostTwo(f.alerts["medium"]);
    assert AlertPoints(f.alerts, 4) == AlertPoints(f.alerts, 3) + 3 * AtMostTwo(f.alerts["low"]);
  }

  function If(fires: bool, points: nat): nat { if fires then points else 0 }

  lemma NinePoints(t: seq<Indicator>)
    requires |t| == 9
    ensures PointsOf(t, 9)
            == If(t[0].fires, t[0].points) + If(t[1].fires, t[1].points) + If(t[2].fires, t[2].points)
               + If(t[3].fires, t[3].points) + If(t[4].fires, t[4].points) + If(t[5].fires, t[5].points)
               + If(t[6].fires, t[6].points) + If(t[7].fires, t[7].points) + If(t[8].fires, t[8].points)
  {
    hide PointsOf, If;
    PointStep(t, 0);
    PointStep(t, 1);
    PointStep(t, 2);
    PointStep(t, 3);
    PointStep(t, 4);
    PointStep(t, 5);
    PointStep(t, 6);
    PointStep(t, 7);
    PointStep(t, 8);
  }

  lemma PointStep(t: seq<Indicator>, i: nat)
    requires i < |t|
    ensures PointsOf(t, i + 1) == PointsOf(t, i) + If(t[i].fires, t[i].points) && PointsOf(t, 0) == 0
  {
  }

  /** The score is the sum of all that fires, at most 100; the level is its range. */
  lemma ScoreIsSpelled(f: Features)
    ensures var sum := AlertSum(f) + ProtocolSum(f) + TrafficSum(f) + DestinationSum(f);
            && Raw(f) == sum && RiskOf(f).score == (if sum > 100 then 100 else sum)
            && RiskOf(f).level == (if sum >= 80 then CriticalRisk else if sum >= 60 then HighRisk
                                   else if sum >= 30 then MediumRisk else LowRisk)
  {
    hide PointsOf, AlertPoints, App, IsSensitive, Sensitive, Unknown, Common;
    AppIs(f);
    SensitiveIs(f.process);
    AlertPointsAre(f);
    NinePoints(Indicators(f));
  }

  function Say(fires: bool, reason: Reason): seq<Reason> { if fires then [reason] else [] }

  lemma NineReasons(t: seq<Indicator>)
    requires |t| == 9
    ensures ReasonsOf(t, 9)
            == Say(t[0].fires, t[0].reason) + Say(t[1].fires, t[1].reason) + Say(t[2].fires, t[2].reason)
               + Say(t[3].fires, t[3].reason) + Say(t[4].fires, t[4].reason) + Say(t[5].fires, t[5].reason)
               + Say(t[6].fires, t[6].reason) + Say(t[7].fires, t[7].reason) + Say(t[8].fires, t[8].reason)
  {
    hide ReasonsOf, Say;
    ReasonStep(t, 0);
    ReasonStep(t, 1);
    ReasonStep(t, 2);
    ReasonStep(t, 3);
    ReasonStep(t, 4);
    ReasonStep(t, 5);
    ReasonStep(t, 6);
    ReasonStep(t, 7);
    ReasonStep(t, 8);
    assert [] + Say(t[0].fires, t[0].reason) == Say(t[0].fires, t[0].reason);
  }

  lemma ReasonStep(t: seq<Indicator>, i: nat)
    requires i < |t|
    ensures ReasonsOf(t, i + 1) == ReasonsOf(t, i) + Say(t[i].fires, t[i].reason)
    ensures ReasonsOf(t, 0) == []
  {
  }

  /** The reasons, in this order. */
  lemma ReasonsAreSpelled(f: Features)
    ensures var all := Say(f.alerts["critical"] > 0 || f.alerts["high"] > 0, AlertDensity)
                       + Say(ProtocolSum(f) == 22, UnknownProtocol) + Say(ProtocolSum(f) == 9, UncommonProtocol)
                       + Say(f.unusualPort, UnusualPort) + Say(f.packets >= 1000, ManyPackets)
                       + Say(f.bytes >= 52428800, ManyBytes) + Say(f.dnsFailures >= 3, DnsFailures)
                       + Say(f.direction == Outbound && f.isNew,
                             if Upper(f.app) == "TLS" && f.hasSni then NewSni else NewDestination)
                       + Say(f.direction == Outbound && Sensitive(f.process), SensitiveProcess);
            RiskOf(f).reasons == if all == [] then [NoIndicators] else all
  {
    hide ReasonsOf, PointsOf, AlertPoints, App, IsSensitive, Sensitive, Unknown, Common, Say;
    AppIs(f);
    SensitiveIs(f.process);
    NineReasons(Indicators(f));
    assert "UNKNOWN"[0] != "TLS"[0];
    EmptyUpper(f.app);
  }

  lemma EmptyUpper(s: string)
    ensures Upper(s) == "" <==> s == ""
  {
  }

  function Weight(severity: string): nat {
    match severity
    case "critical" => 34
    case "high" => 20
    case "medium" => 10
    case "low" => 3
    case _ => 0
  }

  lemma AlertSumGrows(f: Features, severity: string)
    ensures var g := f.(alerts := f.alerts + multiset{severity});
            var first := severity in {"critical", "high"} && f.alerts["critical"] == 0 && f.alerts["high"] == 0;
            AlertSum(g) == AlertSum(f) + (if f.alerts[severity] < 2 then Weight(severity) else 0)
              + (if first then 10 else 0)
  {
    var counts := (f.alerts["critical"], f.alerts["high"], f.alerts["medium"], f.alerts["low"]);
    var more := f.alerts + multiset{severity};
    assert |"critical"| == 8 && |"high"| == 4 && |"medium"| == 6 && |"low"| == 3;
    assert more["critical"] == counts.0 + if severity == "critical" then 1 else 0;
    assert more["high"] == counts.1 + if severity == "high" then 1 else 0;
    assert more["medium"] == counts.2 + if severity == "medium" then 1 else 0;
    assert more["low"] == counts.3 + if severity == "low" then 1 else 0;
  }

  /** One more alert of a severity adds its weight while there are fewer than two, and 10 if it is the first that
      is critical or high; any other word adds nothing. */
  lemma OneMoreAlert(f: Features, severity: string)
    ensures var g := f.(alerts := f.alerts + multiset{severity});
            var first := severity in {"critical", "high"} && f.alerts["critical"] == 0 && f.alerts["high"] == 0;
            Raw(g) == Raw(f) + (if f.alerts[severity] < 2 then Weight(severity) else 0) + (if first then 10 else 0)
  {
    hide Raw, AlertSum, ProtocolSum, TrafficSum, DestinationSum, Weight;
    var g := f.(alerts := f.alerts + multiset{severity});
    ScoreIsSpelled(f);
    ScoreIsSpelled(g);
    SameRest(f, g);
    AlertSumGrows(f, severity);
  }

  lemma SameRest(f: Features, g: Features)
    requires g == f.(alerts := g.alerts)
    ensures ProtocolSum(f) == ProtocolSum(g) && TrafficSum(f) == TrafficSum(g) && DestinationSum(f) == DestinationSum(g)
  {
  }
}
