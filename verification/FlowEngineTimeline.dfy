/** What a flow's timeline tells, read off its packets and alerts. */
module FlowEngineTimeline {
  import opened Sequences
  import opened Text
  import opened Values
  import opened FlowEngine
  import opened FlowEngineObject

  function OfKind(kind: EventKind): TimelineEvent -> bool { (t: TimelineEvent) => t.kind == kind }

  // ----- what should be told -----

  /** The first packet starts the flow. */
  function StartLog(hs: seq<Entry>): seq<TimelineEvent> {
    if hs == [] then []
    else
      var p := hs[0].packet;
      [TimelineEvent(p.at, FlowStarted, p.transport, "info", map[], p.id, "")]
  }

  /** Each change of the application protocol, the first one included. */
  function DetectLog(hs: seq<Entry>): seq<TimelineEvent> {
    if hs == [] then []
    else
      var n, p := |hs| - 1, hs[|hs| - 1].packet;
      DetectLog(hs[..n])
      + (if n > 0 && hs[n - 1].packet.app == p.app then []
         else [TimelineEvent(p.at, ProtocolDetected, p.app, "info",
                             map["confidence" := p.confidence, "basis" := p.basis], p.id, "")])
  }

  function Told(p: Packet, a: Alert): TimelineEvent {
    TimelineEvent(p.at, AlertTriggered, a.title, if a.severity == "" then "low" else Lower(a.severity), map[], p.id,
                  a.id)
  }

  function AlertsTold(p: Packet, alerts: seq<Alert>): seq<TimelineEvent> {
    seq(|alerts|, i requires 0 <= i < |alerts| => Told(p, alerts[i]))
  }

  /** Every alert. */
  function AlertLog(hs: seq<Entry>): seq<TimelineEvent> {
    if hs == [] then []
    else AlertLog(hs[..|hs| - 1]) + AlertsTold(hs[|hs| - 1].packet, hs[|hs| - 1].alerts)
  }

  /** A new destination, once, by the first packet. */
  function DestinationLog(hs: seq<Entry>, isNew: bool): seq<TimelineEvent> {
    if hs == [] || !isNew then []
    else
      var p := hs[0].packet;
      [TimelineEvent(p.at, UnusualDestination, "", "medium", map["destination" := p.dst], "", "")]
  }

  /** What packet of the flow its log of kind `kind` should hold. */
  function LogOf(hs: seq<Entry>, isNew: bool, kind: EventKind): seq<TimelineEvent>
    requires kind != MetadataObserved
  {
    match kind
    case FlowStarted => StartLog(hs)
    case ProtocolDetected => DetectLog(hs)
    case AlertTriggered => AlertLog(hs)
    case UnusualDestination => DestinationLog(hs, isNew)
  }

  // ----- what is told -----

  lemma FilterOne<T>(x: T, keep: T -> bool)
    ensures Filter([x], keep) == if keep(x) then [x] else []
  {
    assert [x] == [] + [x];
    FilterSnoc([], x, keep);
  }

  lemma {:induction false} AlertEventsTell(p: Packet, alerts: seq<Alert>)
    ensures AlertEvents(p, alerts) == AlertsTold(p, alerts)
  {
    if alerts != [] {
      AlertEventsTell(p, alerts[..|alerts| - 1]);
      LowerKeepsLower("low");
    }
  }

  lemma OpeningOfKind(p: Packet, created: bool, priorApp: string, kind: EventKind)
    ensures Filter(Opening(p, created, priorApp), OfKind(kind))
            == match kind
               case FlowStarted => if created then [StartedEvent(p)] else []
               case ProtocolDetected => if created || p.app != priorApp then [DetectedEvent(p)] else []
               case _ => []
  {
    var started, detected := StartedEvent(p), DetectedEvent(p);
    FilterOne(started, OfKind(kind));
    FilterOne(detected, OfKind(kind));
    FilterConcat([started], [detected], OfKind(kind));
    assert [started] + [detected] == [started, detected];
  }

  lemma AlertsOfKind(p: Packet, alerts: seq<Alert>, kind: EventKind)
    ensures Filter(AlertsTold(p, alerts), OfKind(kind)) == if kind.AlertTriggered? then AlertsTold(p, alerts) else []
  {
    if kind.AlertTriggered? {
      FilterAll(AlertsTold(p, alerts), OfKind(kind));
    } else {
      FilterNone(AlertsTold(p, alerts), OfKind(kind));
    }
  }

  lemma FourParts<T>(a: seq<T>, b: seq<T>, c: seq<T>, d: seq<T>, keep: T -> bool)
    ensures Filter(a + b + c + d, keep) == Filter(a, keep) + Filter(b, keep) + Filter(c, keep) + Filter(d, keep)
  {
    hide Filter;
    FilterConcat(a, b, keep);
    FilterConcat(a + b, c, keep);
    FilterConcat(a + b + c, d, keep);
  }

  /** What one packet adds, kind by kind. */
  lemma FreshOfKind(last: Option<Metadata>, created: bool, priorApp: string, isNew: bool, e: Entry, kind: EventKind)
    requires kind != MetadataObserved
    ensures Filter(Fresh(last, created, priorApp, isNew, e), OfKind(kind))
            == match kind
               case FlowStarted => if created then [StartedEvent(e.packet)] else []
               case ProtocolDetected => if created || e.packet.app != priorApp then [DetectedEvent(e.packet)] else []
               case AlertTriggered => AlertsTold(e.packet, e.alerts)
               case UnusualDestination => if created && isNew then [NewDestinationEvent(e.packet)] else []
  {
    hide Opening, Observes, AlertEvents, AlertsTold, Filter;
    var p, opening := e.packet, Opening(e.packet, created, priorApp);
    var observed := if Observes(p, if opening == [] then last else LastMetadata(opening)) then [ObservedEvent(p)]
                    else [];
    var contact := if created && isNew then [NewDestinationEvent(p)] else [];
    AlertEventsTell(p, e.alerts);
    OpeningOfKind(p, created, priorApp, kind);
    AlertsOfKind(p, e.alerts, kind);
    FilterOne(ObservedEvent(p), OfKind(kind));
    FilterOne(NewDestinationEvent(p), OfKind(kind));
    FilterNone([], OfKind(kind));
    FourParts(opening, observed, AlertEvents(p, e.alerts), contact, OfKind(kind));
  }

  function AppBefore(hs: seq<Entry>): string { if hs == [] then "" else hs[|hs| - 1].packet.app }

  /** What the log of a kind gains by one more packet. */
  function Gained(hs: seq<Entry>, isNew: bool, e: Entry, kind: EventKind): seq<TimelineEvent>
    requires kind != MetadataObserved
  {
    match kind
    case FlowStarted => if hs == [] then [StartedEvent(e.packet)] else []
    case ProtocolDetected => if hs == [] || e.packet.app != AppBefore(hs) then [DetectedEvent(e.packet)] else []
    case AlertTriggered => AlertsTold(e.packet, e.alerts)
    case UnusualDestination => if hs == [] && isNew then [NewDestinationEvent(e.packet)] else []
  }

  lemma LogGains(hs: seq<Entry>, isNew: bool, e: Entry, kind: EventKind)
    requires kind != MetadataObserved
    ensures LogOf(hs + [e], isNew, kind) == LogOf(hs, isNew, kind) + Gained(hs, isNew, e, kind)
  {
    hide AlertsTold;
    var longer := hs + [e];
    assert longer[..|hs|] == hs && longer[|hs|] == e && (hs != [] ==> longer[0] == hs[0]);
    assert LogOf(hs, isNew, kind) + [] == LogOf(hs, isNew, kind);
  }

  lemma WholeGains(hs: seq<Entry>, isNew: bool, e: Entry)
    ensures var before := WholeTimeline(hs, isNew);
            WholeTimeline(hs + [e], isNew) == before + Fresh(LastMetadata(before), hs == [], AppBefore(hs), isNew, e)
  {
    hide Fresh;
    assert (hs + [e])[..|hs|] == hs && (hs + [e])[|hs|] == e;
  }

  lemma {:induction false} WholeOfKind(hs: seq<Entry>, isNew: bool, kind: EventKind)
    requires kind != MetadataObserved
    ensures Filter(WholeTimeline(hs, isNew), OfKind(kind)) == LogOf(hs, isNew, kind)
  {
    if hs == [] {
      FilterNone([], OfKind(kind));
    } else {
      hide Fresh, Filter, AlertsTold, LogOf, WholeTimeline;
      var init, e := hs[..|hs| - 1], hs[|hs| - 1];
      assert hs == init + [e];
      WholeOfKind(init, isNew, kind);
      var soFar := WholeTimeline(init, isNew);
      WholeGains(init, isNew, e);
      LogGains(init, isNew, e, kind);
      FreshOfKind(LastMetadata(soFar), init == [], AppBefore(init), isNew, e, kind);
      FilterConcat(soFar, Fresh(LastMetadata(soFar), init == [], AppBefore(init), isNew, e), OfKind(kind));
    }
  }

  /** The stored timeline is the last 200 events of the whole one. In the whole one, the starts, protocol
      changes, alerts and new destinations are exactly those of the flow's packets, in order. */
  lemma TimelineTells(history: seq<Entry>, key: FlowKey)
    requires key in KeysIn(history)
    ensures key in FlowsOf(history)
    ensures var f, hs := FlowsOf(history)[key], PacketsOf(history, key);
            var whole := WholeTimeline(hs, f.origin.isNew);
            && f.timeline == (if |whole| > 200 then whole[|whole| - 200..] else whole)
            && Filter(whole, OfKind(FlowStarted)) == StartLog(hs)
            && Filter(whole, OfKind(ProtocolDetected)) == DetectLog(hs)
            && Filter(whole, OfKind(AlertTriggered)) == AlertLog(hs)
            && Filter(whole, OfKind(UnusualDestination)) == DestinationLog(hs, f.origin.isNew)
  {
    hide FlowsOf, SumBy, WholeTimeline, AlertsOf, TrafficOf, IsNew, Filter, KeyOf, ConversationFor;
    FlowsAt(history);
    var f, hs := FlowsOf(history)[key], PacketsOf(history, key);
    WholeOfKind(hs, f.origin.isNew, FlowStarted);
    WholeOfKind(hs, f.origin.isNew, ProtocolDetected);
    WholeOfKind(hs, f.origin.isNew, AlertTriggered);
    WholeOfKind(hs, f.origin.isNew, UnusualDestination);
  }

  // ----- metadata -----

  /** A DNS, HTTP or TLS packet with metadata is worth telling. */
  predicate Worth(p: Packet) { p.app in {"DNS", "HTTP", "TLS"} && p.metadata != map[] }

  /** Some event carries this metadata. */
  ghost predicate Mentioned(timeline: seq<TimelineEvent>, metadata: Metadata) {
    exists k :: 0 <= k < |timeline| && timeline[k].metadata == metadata
  }

  lemma MentionedSoFar(timeline: seq<TimelineEvent>, more: seq<TimelineEvent>, metadata: Metadata)
    ensures Mentioned(timeline, metadata) || Mentioned(more, metadata) ==> Mentioned(timeline + more, metadata)
  {
    var all := timeline + more;
    if k :| 0 <= k < |timeline| && timeline[k].metadata == metadata { assert all[k].metadata == metadata; }
    if k :| 0 <= k < |more| && more[k].metadata == metadata { assert all[|timeline| + k].metadata == metadata; }
  }

  lemma FreshMentions(timeline: seq<TimelineEvent>, created: bool, priorApp: string, isNew: bool, e: Entry)
    requires Worth(e.packet)
    ensures Mentioned(timeline + Fresh(LastMetadata(timeline), created, priorApp, isNew, e), e.packet.metadata)
  {
    hide AlertEvents;
    var p, opening := e.packet, Opening(e.packet, created, priorApp);
    var last := if opening == [] then LastMetadata(timeline) else LastMetadata(opening);
    var observed := if Observes(p, last) then [ObservedEvent(p)] else [];
    var rest := AlertEvents(p, e.alerts) + if created && isNew then [NewDestinationEvent(p)] else [];
    if Observes(p, last) {
      assert observed[0].metadata == p.metadata;
      assert Mentioned(observed, p.metadata);
    } else if opening != [] {
      assert opening[|opening| - 1].metadata == p.metadata;
    } else {
      assert timeline[|timeline| - 1].metadata == p.metadata;
    }
    MentionedSoFar(opening, observed, p.metadata);
    MentionedSoFar(opening + observed, rest, p.metadata);
    assert Fresh(LastMetadata(timeline), created, priorApp, isNew, e) == (opening + observed) + rest;
    MentionedSoFar(timeline, (opening + observed) + rest, p.metadata);
  }

  /** The metadata of every packet worth telling is told, by an event of its own or by the one before. */
  lemma {:induction false} MetadataIsTold(hs: seq<Entry>, isNew: bool, i: nat)
    requires i < |hs| && Worth(hs[i].packet)
    ensures Mentioned(WholeTimeline(hs, isNew), hs[i].packet.metadata)
  {
    hide Fresh, Mentioned;
    var init, e := hs[..|hs| - 1], hs[|hs| - 1];
    var soFar, priorApp := WholeTimeline(init, isNew), if init == [] then "" else init[|init| - 1].packet.app;
    if i < |init| {
      MetadataIsTold(init, isNew, i);
      MentionedSoFar(soFar, Fresh(LastMetadata(soFar), init == [], priorApp, isNew, e), hs[i].packet.metadata);
    } else {
      FreshMentions(soFar, init == [], priorApp, isNew, e);
    }
  }

  /** A packet worth telling tells exactly this. */
  ghost predicate ComesFrom(hs: seq<Entry>, t: TimelineEvent) {
    exists i :: 0 <= i < |hs| && Worth(hs[i].packet) && t.metadata == hs[i].packet.metadata
                && t.text == hs[i].packet.app && t.at == hs[i].packet.at
  }

  lemma ComesFromSoFar(hs: seq<Entry>, e: Entry, t: TimelineEvent)
    ensures ComesFrom(hs, t) ==> ComesFrom(hs + [e], t)
    ensures Worth(e.packet) && t == ObservedEvent(e.packet) ==> ComesFrom(hs + [e], t)
  {
    var longer := hs + [e];
    assert longer[|hs|] == e && forall i :: 0 <= i < |hs| ==> longer[i] == hs[i];
    if Worth(e.packet) && t == ObservedEvent(e.packet) { assert Worth(longer[|hs|].packet); }
    if ComesFrom(hs, t) {
      var i :| 0 <= i < |hs| && Worth(hs[i].packet) && t.metadata == hs[i].packet.metadata
               && t.text == hs[i].packet.app && t.at == hs[i].packet.at;
      assert Worth(longer[i].packet);
    }
  }

  /** And nothing else is: an observation comes from a packet worth telling and does not repeat the event
      before it. */
  lemma {:induction false} ObservationsAreFresh(hs: seq<Entry>, isNew: bool, k: nat)
    requires k < |WholeTimeline(hs, isNew)| && WholeTimeline(hs, isNew)[k].kind == MetadataObserved
    ensures var whole := WholeTimeline(hs, isNew);
            ComesFrom(hs, whole[k]) && (k > 0 ==> whole[k - 1].metadata != whole[k].metadata)
  {
    hide AlertEvents, Opening, Fresh, ComesFrom;
    var init, e := hs[..|hs| - 1], hs[|hs| - 1];
    var soFar, priorApp := WholeTimeline(init, isNew), if init == [] then "" else init[|init| - 1].packet.app;
    if k < |soFar| {
      ObservationsAreFresh(init, isNew, k);
      ComesFromSoFar(init, e, soFar[k]);
    } else {
      FreshObservation(soFar, init == [], priorApp, isNew, e, k);
      ComesFromSoFar(init, e, ObservedEvent(e.packet));
    }
    assert hs == init + [e];
  }

  lemma FreshObservation(timeline: seq<TimelineEvent>, created: bool, priorApp: string, isNew: bool, e: Entry, k: nat)
    requires |timeline| <= k
    requires var whole := timeline + Fresh(LastMetadata(timeline), created, priorApp, isNew, e);
             k < |whole| && whole[k].kind == MetadataObserved
    ensures var whole := timeline + Fresh(LastMetadata(timeline), created, priorApp, isNew, e);
            && Worth(e.packet) && whole[k] == ObservedEvent(e.packet)
            && (k > 0 ==> whole[k - 1].metadata != whole[k].metadata)
  {
    hide AlertEvents;
    var p, opening := e.packet, Opening(e.packet, created, priorApp);
    AlertEventsTell(p, e.alerts);
    var last := if opening == [] then LastMetadata(timeline) else LastMetadata(opening);
    var observed := if Observes(p, last) then [ObservedEvent(p)] else [];
    var whole := timeline + Fresh(LastMetadata(timeline), created, priorApp, isNew, e);
    assert forall i :: 0 <= i < |opening| ==> whole[|timeline| + i] == opening[i] && !opening[i].kind.MetadataObserved?;
    assert k == |timeline| + |opening| && observed != [];
    assert k > 0 ==> whole[k - 1] == if opening == [] then timeline[k - 1] else opening[|opening| - 1];
  }

  // ----- order -----

  function Rank(kind: EventKind): nat {
    match kind
    case FlowStarted => 0
    case ProtocolDetected => 1
    case MetadataObserved => 2
    case AlertTriggered => 3
    case UnusualDestination => 4
  }

  ghost predicate InOrder(events: seq<TimelineEvent>, low: nat, high: nat) {
    && (forall i :: 0 <= i < |events| ==> low <= Rank(events[i].kind) <= high)
    && (forall i, j :: 0 <= i < j < |events| ==> Rank(events[i].kind) <= Rank(events[j].kind))
  }

  lemma InOrderConcat(a: seq<TimelineEvent>, b: seq<TimelineEvent>, low: nat, middle: nat, high: nat)
    requires low <= middle <= high && InOrder(a, low, middle) && InOrder(b, middle, high)
    ensures InOrder(a + b, low, high)
  {
  }

  lemma FreshIsOrdered(last: Option<Metadata>, created: bool, priorApp: string, isNew: bool, e: Entry)
    ensures InOrder(Fresh(last, created, priorApp, isNew, e), 0, 4)
  {
    hide Opening, AlertEvents, AlertsTold, Observes, InOrder;
    var p, opening := e.packet, Opening(e.packet, created, priorApp);
    var observed := if Observes(p, if opening == [] then last else LastMetadata(opening))
                    then [ObservedEvent(p)] else [];
    var contact := if created && isNew then [NewDestinationEvent(p)] else [];
    PartsAreOrdered(p, created, priorApp, e.alerts);
    InOrderConcat(opening, observed, 0, 2, 2);
    InOrderConcat(opening + observed, AlertEvents(p, e.alerts), 0, 3, 3);
    InOrderConcat(opening + observed + AlertEvents(p, e.alerts), contact, 0, 4, 4);
  }

  lemma PartsAreOrdered(p: Packet, created: bool, priorApp: string, alerts: seq<Alert>)
    ensures InOrder(Opening(p, created, priorApp), 0, 2)
    ensures InOrder([ObservedEvent(p)], 2, 2) && InOrder([NewDestinationEvent(p)], 4, 4)
    ensures InOrder([], 2, 2) && InOrder([], 4, 4)
    ensures InOrder(AlertEvents(p, alerts), 3, 3)
    ensures forall events :: InOrder(events, 0, 2) ==> InOrder(events, 0, 3)
    ensures forall events :: InOrder(events, 0, 3) ==> InOrder(events, 0, 4)
  {
    AlertEventsTell(p, alerts);
    hide AlertEvents;
    assert forall i :: 0 <= i < |AlertsTold(p, alerts)| ==> Rank(AlertsTold(p, alerts)[i].kind) == 3;
  }

  /** Each packet appends to the timeline: start, protocol, metadata, alerts, new destination, in this order. */
  lemma PacketsAppendInOrder(hs: seq<Entry>, e: Entry, isNew: bool)
    ensures var before, after := WholeTimeline(hs, isNew), WholeTimeline(hs + [e], isNew);
            && before <= after
            && forall i, j :: |before| <= i < j < |after| ==> Rank(after[i].kind) <= Rank(after[j].kind)
  {
    hide Fresh;
    var soFar, priorApp := WholeTimeline(hs, isNew), if hs == [] then "" else hs[|hs| - 1].packet.app;
    assert (hs + [e])[..|hs|] == hs && (hs + [e])[|hs|] == e;
    FreshIsOrdered(LastMetadata(soFar), hs == [], priorApp, isNew, e);
    var added := Fresh(LastMetadata(soFar), hs == [], priorApp, isNew, e);
    var after := soFar + added;
    assert forall i :: |soFar| <= i < |after| ==> after[i] == added[i - |soFar|];
  }
}
