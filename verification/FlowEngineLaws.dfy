/** What a stored flow says, read off the fields of its packets. */
module FlowEngineLaws {
  import opened Sequences
  import opened Text
  import opened TextLaws
  import opened Values
  import opened FlowRisk
  import opened FlowEngine
  import opened FlowEngineObject

  // ----- direction and identity -----

  /** A marked packet goes where its mark says, upper or lower case, blanks around it or not; any other
      where the two ends lie. */
  lemma DirectionIsRead(p: Packet)
    ensures p.rawDirection == "OUTGOING" || Upper(Strip(p.rawDirection)) == "OUTGOING"
            ==> KeyOf(p).direction == Outbound
    ensures p.rawDirection == "INCOMING" || Upper(Strip(p.rawDirection)) == "INCOMING" ==> KeyOf(p).direction == Inbound
    ensures p.rawDirection == "" || Upper(Strip(p.rawDirection)) !in {"OUTGOING", "INCOMING"} ==>
              KeyOf(p).direction == match (p.srcLocal, p.dstLocal)
                                    case (true, true) => Internal
                                    case (true, false) => Outbound
                                    case (false, true) => Inbound
                                    case (false, false) => Local
  {
    MarksAreUpperCase();
    assert "OUTGOING"[0] != "INCOMING"[0];
  }

  lemma MarksAreUpperCase()
    ensures Upper(Strip("OUTGOING")) == "OUTGOING" && Upper(Strip("INCOMING")) == "INCOMING" && Upper(Strip("")) == ""
  {
    hide Strip, Upper;
    PlainWord("OUTGOING");
    PlainWord("INCOMING");
    PlainWord("");
  }

  lemma PlainWord(s: string)
    requires NoOuterSpace(s) && UpperCase(s)
    ensures Upper(Strip(s)) == s
  {
    StrippedStays(s);
    UpperCaseStays(s);
  }

  /** The rest of a flow's identity: a dash for a missing address, OTHER for a missing protocol. */
  lemma KeyIsRead(p: Packet)
    ensures var k := KeyOf(p);
            && k.src == (if p.src == "" then "-" else p.src) && k.dst == (if p.dst == "" then "-" else p.dst)
            && k.sport == p.sport && k.dport == p.dport
            && (p.proto != "" ==> k.proto == Upper(p.proto)) && (p.proto == "" ==> k.proto == "OTHER")
  {
    UpperCaseStays("OTHER");
  }

  /** A conversation names the smaller end first: by address, then by port. */
  lemma ConversationIsSorted(p: Packet)
    ensures var c := ConversationFor(p);
            var a, b := Endpoint(if p.src == "" then "-" else p.src, p.sport),
                Endpoint(if p.dst == "" then "-" else p.dst, p.dport);
            && ((c.low == a && c.high == b) || (c.low == b && c.high == a))
            && (if c.low.address == c.high.address then c.low.port <= c.high.port
                else SortsBefore(c.low.address, c.high.address))
            && c.proto == Upper(if p.proto == "" then "OTHER" else p.proto)
  {
    var c := ConversationFor(p);
    StringLeqIsCodePointOrder(c.low.address, c.high.address);
    StringLeqTotal(c.low.address, c.high.address);
    hide SortsBefore, StringLeq, Upper;
  }

  // ----- bytes -----

  function Counted(): Entry -> nat { (e: Entry) => if e.packet.length > 0 then e.packet.length else 0 }

  lemma {:induction false} BytesGoOneWay(hs: seq<Entry>, key: FlowKey)
    requires forall e :: e in hs ==> EntryKey(e) == key
    ensures SumBy(hs, Length) == SumBy(hs, Counted())
    ensures SumBy(hs, SentBytes) == if key.direction.Inbound? then 0 else SumBy(hs, Counted())
    ensures SumBy(hs, ReceivedBytes) == if key.direction.Inbound? then SumBy(hs, Counted()) else 0
  {
    if hs != [] {
      var init, last := hs[..|hs| - 1], hs[|hs| - 1];
      assert hs == init + [last];
      BytesGoOneWay(init, key);
      assert EntryKey(last) == key;
    }
  }

  lemma OwnPackets(history: seq<Entry>, key: FlowKey)
    ensures forall e :: e in PacketsOf(history, key) <==> e in history && EntryKey(e) == key
  {
    FilterMembers(history, OfKey(key));
  }

  /** An inbound flow has only received bytes, every other only sent ones. */
  lemma BytesOfFlow(history: seq<Entry>, key: FlowKey)
    requires key in KeysIn(history)
    ensures key in FlowsOf(history)
    ensures var f, total := FlowsOf(history)[key], SumBy(PacketsOf(history, key), Counted());
            && f.origin.key == key && f.traffic.bytes == total
            && f.traffic.sent == (if key.direction == Inbound then 0 else total)
            && f.traffic.received == (if key.direction == Inbound then total else 0)
  {
    hide FlowsOf, SumBy, WholeTimeline, RiskOf, AlertsOf, MergedMetadata, ServiceOf, FirstPackets, IsNew, DirectionFor;
    FlowsAt(history);
    OwnPackets(history, key);
    var hs := PacketsOf(history, key);
    assert hs[0] in hs;
    BytesGoOneWay(hs, key);
  }

  /** A flow with one packet marked OUTGOING is outbound and has sent everything; with one marked INCOMING it
      is inbound and has received everything. */
  lemma MarkedFlow(history: seq<Entry>, e: Entry)
    requires e in history && e.packet.rawDirection in {"OUTGOING", "INCOMING"}
    ensures EntryKey(e) in FlowsOf(history)
    ensures var f := FlowsOf(history)[EntryKey(e)];
            if e.packet.rawDirection == "OUTGOING"
            then f.origin.key.direction == Outbound && f.traffic.sent == f.traffic.bytes && f.traffic.received == 0
            else f.origin.key.direction == Inbound && f.traffic.received == f.traffic.bytes && f.traffic.sent == 0
  {
    hide FlowsOf, DirectionFor, SumBy;
    DirectionIsRead(e.packet);
    BytesOfFlow(history, EntryKey(e));
  }

  /** Without a mark the ends decide; bytes are received only from outside to inside. */
  lemma UnmarkedFlow(history: seq<Entry>, e: Entry)
    requires e in history && e.packet.rawDirection == ""
    ensures EntryKey(e) in FlowsOf(history)
    ensures var f, p := FlowsOf(history)[EntryKey(e)], e.packet;
            && f.origin.key.direction == (if p.srcLocal && p.dstLocal then Internal else if p.srcLocal then Outbound
                                          else if p.dstLocal then Inbound else Local)
            && (if p.dstLocal && !p.srcLocal then f.traffic.received == f.traffic.bytes && f.traffic.sent == 0
                else f.traffic.sent == f.traffic.bytes && f.traffic.received == 0)
  {
    hide FlowsOf, DirectionFor, SumBy;
    DirectionIsRead(e.packet);
    BytesOfFlow(history, EntryKey(e));
  }

  /** Packet `i` opens flow `key` and is the first of all packets to its destination. */
  ghost predicate FirstOfAll(history: seq<Entry>, key: FlowKey, i: nat)
    requires i < |history|
  {
    && EntryKey(history[i]) == key && history[i].packet.dst != ""
    && (forall j :: 0 <= j < i ==> EntryKey(history[j]) != key)
    && (forall j :: 0 <= j < i ==> history[j].packet.dst != history[i].packet.dst)
  }

  lemma FirstContactIs(history: seq<Entry>, key: FlowKey, i: nat)
    requires i < |history|
    ensures EntryKey(history[i]) == key && FirstContact(history, i)
            <==> key.direction == Outbound && FirstOfAll(history, key, i)
  {
    hide DirectionFor, Upper;
  }

  /** A flow is flagged new exactly when it is outbound and its first packet was the first of all packets to
      its destination. */
  lemma NewFlagIsRead(history: seq<Entry>, key: FlowKey)
    requires key in KeysIn(history)
    ensures key in FlowsOf(history)
    ensures FlowsOf(history)[key].origin.isNew
            <==> key.direction == Outbound && exists i :: 0 <= i < |history| && FirstOfAll(history, key, i)
  {
    hide FlowsOf, WholeTimeline, RiskOf, AlertsOf, TrafficOf, DirectionFor, FirstOfAll, FirstContact, EntryKey;
    FlowsAt(history);
    forall i | 0 <= i < |history|
      ensures EntryKey(history[i]) == key && FirstContact(history, i)
              <==> key.direction == Outbound && FirstOfAll(history, key, i)
    {
      FirstContactIs(history, key, i);
    }
  }

  // ----- the other fields -----

  predicate NameFailure(e: Entry) { e.packet.app == "DNS" && e.packet.dnsRcode == 3 }

  function IsNameFailure(): Entry -> bool { (e: Entry) => NameFailure(e) }

  lemma {:induction false} FailuresAreCounted(hs: seq<Entry>)
    ensures SumBy(hs, NameFailures) == |Filter(hs, IsNameFailure())|
  {
    if hs != [] { FailuresAreCounted(hs[..|hs| - 1]); }
  }

  lemma {:induction false} SamplesAreFirst(hs: seq<Entry>, n: nat)
    ensures var samples := FirstPackets(hs, n);
            |samples| == (if |hs| < n then |hs| else n) && forall i :: 0 <= i < |samples| ==> samples[i] == hs[i].packet
  {
    if hs != [] { SamplesAreFirst(hs[..|hs| - 1], n); }
  }

  /** The last packet that names a service names the flow's. */
  ghost predicate IsLastService(hs: seq<Entry>, service: string) {
    if forall i :: 0 <= i < |hs| ==> hs[i].packet.service == "" then service == "Unknown"
    else exists i :: 0 <= i < |hs| && hs[i].packet.service == service && service != ""
                     && forall j :: i < j < |hs| ==> hs[j].packet.service == ""
  }

  lemma ServiceSnoc(hs: seq<Entry>, e: Entry, service: string)
    requires IsLastService(hs, service)
    ensures IsLastService(hs + [e], if e.packet.service == "" then service else e.packet.service)
  {
    var longer := hs + [e];
    assert longer[|hs|] == e && forall i :: 0 <= i < |hs| ==> longer[i] == hs[i];
    if e.packet.service != "" {
      assert longer[|hs|].packet.service != "";
    } else if !(forall i :: 0 <= i < |hs| ==> hs[i].packet.service == "") {
      var i :| 0 <= i < |hs| && hs[i].packet.service == service && service != ""
               && forall j :: i < j < |hs| ==> hs[j].packet.service == "";
      assert longer[i].packet.service == service;
    }
  }

  lemma {:induction false} ServiceIsLast(hs: seq<Entry>)
    ensures IsLastService(hs, ServiceOf(hs))
  {
    if hs != [] {
      hide IsLastService;
      var init, last := hs[..|hs| - 1], hs[|hs| - 1];
      ServiceIsLast(init);
      ServiceSnoc(init, last, ServiceOf(init));
      assert hs == init + [last];
    }
  }

  /** A name's value is that of the last packet with this name. */
  ghost predicate IsLastValue(hs: seq<Entry>, name: string, value: string) {
    exists i :: 0 <= i < |hs| && name in hs[i].packet.metadata && hs[i].packet.metadata[name] == value
                && forall j :: i < j < |hs| ==> name !in hs[j].packet.metadata
  }

  ghost predicate Named(hs: seq<Entry>, name: string) { exists i :: 0 <= i < |hs| && name in hs[i].packet.metadata }

  lemma NamedSnoc(hs: seq<Entry>, e: Entry, name: string)
    ensures Named(hs + [e], name) <==> Named(hs, name) || name in e.packet.metadata
  {
    var longer := hs + [e];
    assert longer[|hs|] == e && forall i :: 0 <= i < |hs| ==> longer[i] == hs[i];
  }

  lemma LastValueSnoc(hs: seq<Entry>, e: Entry, name: string, value: string)
    ensures name in e.packet.metadata ==> IsLastValue(hs + [e], name, e.packet.metadata[name])
    ensures name !in e.packet.metadata && IsLastValue(hs, name, value) ==> IsLastValue(hs + [e], name, value)
  {
    var longer := hs + [e];
    assert longer[|hs|] == e && forall i :: 0 <= i < |hs| ==> longer[i] == hs[i];
    if name !in e.packet.metadata && IsLastValue(hs, name, value) {
      var i :| 0 <= i < |hs| && name in hs[i].packet.metadata && hs[i].packet.metadata[name] == value
               && forall j :: i < j < |hs| ==> name !in hs[j].packet.metadata;
      assert name in longer[i].packet.metadata;
    }
  }

  lemma {:induction false} MetadataIsLast(hs: seq<Entry>, name: string)
    ensures name in MergedMetadata(hs) <==> Named(hs, name)
    ensures name in MergedMetadata(hs) ==> IsLastValue(hs, name, MergedMetadata(hs)[name])
  {
    if hs != [] {
      hide IsLastValue, Named;
      var init, last := hs[..|hs| - 1], hs[|hs| - 1];
      MetadataIsLast(init, name);
      NamedSnoc(init, last, name);
      LastValueSnoc(init, last, name, if name in MergedMetadata(init) then MergedMetadata(init)[name] else "");
      assert hs == init + [last];
    }
  }

  /** Every alert of the flow's packets, in order. */
  function AllAlerts(hs: seq<Entry>): seq<Alert> {
    if hs == [] then [] else AllAlerts(hs[..|hs| - 1]) + hs[|hs| - 1].alerts
  }

  function OfSeverity(severity: string): Alert -> bool {
    (a: Alert) => (if a.severity == "" then "low" else Lower(a.severity)) == severity
  }

  lemma {:induction false} AddedAreCounted(book: AlertBook, alerts: seq<Alert>, severity: string)
    ensures AddAlerts(book, alerts).counts[severity] == book.counts[severity] + |Filter(alerts, OfSeverity(severity))|
  {
    if alerts != [] {
      var init, last := alerts[..|alerts| - 1], alerts[|alerts| - 1];
      assert alerts == init + [last];
      AddedAreCounted(book, init, severity);
      FilterSnoc(init, last, OfSeverity(severity));
      LowerKeepsLower("low");
    }
  }

  lemma {:induction false} AlertsAreCounted(hs: seq<Entry>, severity: string)
    ensures AlertsOf(hs).counts[severity] == |Filter(AllAlerts(hs), OfSeverity(severity))|
  {
    if hs != [] {
      hide AddAlerts;
      var init, last := hs[..|hs| - 1], hs[|hs| - 1];
      AlertsAreCounted(init, severity);
      AddedAreCounted(AlertsOf(init), last.alerts, severity);
      FilterConcat(AllAlerts(init), last.alerts, OfSeverity(severity));
    }
  }

  /** Every remaining field of a stored flow, from its packets in their order. */
  lemma StoredFieldsAreRead(history: seq<Entry>, key: FlowKey)
    requires key in KeysIn(history)
    ensures key in FlowsOf(history) && PacketsOf(history, key) != []
    ensures var f, hs := FlowsOf(history)[key], PacketsOf(history, key);
            var first, last := hs[0].packet, hs[|hs| - 1].packet;
            && f.origin.firstSeen == first.at && f.origin.transport == first.transport
            && f.origin.unusualPort == first.unusualPort && f.origin.process == first.process
            && f.traffic.lastSeen == last.at && f.traffic.app == last.app && f.traffic.packets == |hs|
            && f.traffic.durationMs == (if last.millis < first.millis then 0 else last.millis - first.millis)
            && |f.traffic.samples| == (if |hs| < 5 then |hs| else 5)
            && (forall i :: 0 <= i < |f.traffic.samples| ==> f.traffic.samples[i] == hs[i].packet)
            && f.traffic.dnsFailures == |Filter(hs, IsNameFailure())|
            && IsLastService(hs, f.traffic.service)
  {
    hide FlowsOf, SumBy, WholeTimeline, RiskOf, AlertsOf, MergedMetadata, ServiceOf, FirstPackets, IsNew, Filter,
         IsLastService, KeyOf, ConversationFor;
    FlowsAt(history);
    var hs := PacketsOf(history, key);
    SamplesAreFirst(hs, 5);
    FailuresAreCounted(hs);
    ServiceIsLast(hs);
  }

  /** Its metadata: every name any packet had, with the value of the last packet that had it. */
  lemma StoredMetadataIsLast(history: seq<Entry>, key: FlowKey, name: string)
    requires key in KeysIn(history)
    ensures key in FlowsOf(history)
    ensures var metadata, hs := FlowsOf(history)[key].traffic.metadata, PacketsOf(history, key);
            && (name in metadata <==> exists i :: 0 <= i < |hs| && name in hs[i].packet.metadata)
            && (name in metadata ==> IsLastValue(hs, name, metadata[name]))
  {
    hide FlowsOf, SumBy, WholeTimeline, RiskOf, AlertsOf, MergedMetadata, ServiceOf, FirstPackets, IsNew, Filter,
         IsLastValue, KeyOf, ConversationFor;
    FlowsAt(history);
    MetadataIsLast(PacketsOf(history, key), name);
  }

  /** Its alert counts: every alert of its packets, by severity in lower case, low where none is given. */
  lemma StoredAlertsAreCounted(history: seq<Entry>, key: FlowKey, severity: string)
    requires key in KeysIn(history)
    ensures key in FlowsOf(history)
    ensures FlowsOf(history)[key].alerts.counts[severity]
            == |Filter(AllAlerts(PacketsOf(history, key)), OfSeverity(severity))|
  {
    hide FlowsOf, SumBy, WholeTimeline, RiskOf, AlertsOf, TrafficOf, IsNew, Filter, KeyOf, ConversationFor;
    FlowsAt(history);
    AlertsAreCounted(PacketsOf(history, key), severity);
  }

  /** Its risk is the score of exactly these fields. */
  lemma StoredRiskIsScored(history: seq<Entry>, key: FlowKey)
    requires key in KeysIn(history)
    ensures key in FlowsOf(history)
    ensures var f := FlowsOf(history)[key];
            f.risk == RiskOf(Features(f.alerts.counts, f.traffic.app, key.direction, f.origin.unusualPort,
                                      f.traffic.packets, f.traffic.bytes, f.traffic.dnsFailures, f.origin.isNew,
                                      "sni" in f.traffic.metadata && f.traffic.metadata["sni"] != "", f.origin.process))
  {
    hide FlowsOf, SumBy, WholeTimeline, RiskOf, AlertsOf, TrafficOf, IsNew, Filter, DirectionFor, ConversationFor;
    FlowsAt(history);
    OwnPackets(history, key);
    var hs := PacketsOf(history, key);
    assert hs[0] in hs;
  }
}
