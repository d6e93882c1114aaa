/** The flow engine, updated in place packet by packet, and why its tables are always the ones the
    history calls for. */
module FlowEngineObject {
  import opened Sequences
  import opened Text
  import opened Maps
  import opened Values
  import opened FlowRisk
  import opened FlowEngine

  // ----- one more packet -----

  lemma KeysSnoc(history: seq<Entry>, e: Entry)
    ensures KeysIn(history + [e]) == KeysIn(history) + {EntryKey(e)}
    ensures SeenIn(history + [e]) == SeenIn(history) + if e.packet.dst != "" then {e.packet.dst} else {}
  {
    assert forall x :: x in history + [e] <==> x in history || x == e;
    assert e in history + [e];
    forall key | key in KeysIn(history) + {EntryKey(e)} ensures key in KeysIn(history + [e]) {
      if key in KeysIn(history) {
        var x :| x in history && EntryKey(x) == key;
        assert x in history + [e];
      }
    }
    forall d | d in SeenIn(history) ensures d in SeenIn(history + [e]) {
      var x :| x in history && x.packet.dst != "" && x.packet.dst == d;
      assert x in history + [e];
    }
  }

  lemma KeyIndex(history: seq<Entry>, key: FlowKey)
    ensures key in KeysIn(history) <==> exists i :: 0 <= i < |history| && EntryKey(history[i]) == key
  {
    if i :| 0 <= i < |history| && EntryKey(history[i]) == key {
      assert history[i] in history;
    }
  }

  /** A flow already known is new or not for good. */
  lemma IsNewStays(history: seq<Entry>, e: Entry, key: FlowKey)
    requires key in KeysIn(history)
    ensures IsNew(history + [e], key) == IsNew(history, key)
  {
    hide KeysIn, KeyOf, DirectionFor;
    var longer := history + [e];
    KeyIndex(history, key);
    assert forall i :: 0 <= i < |history| ==> longer[i] == history[i];
    forall i | 0 <= i < |history| ensures FirstContact(longer, i) == FirstContact(history, i) {}
    var first :| 0 <= first < |history| && EntryKey(history[first]) == key;
    if IsNew(longer, key) {
      var i :| 0 <= i < |longer| && EntryKey(longer[i]) == key && FirstContact(longer, i);
      assert longer[first] == history[first];
      assert i < |history|;
    }
    if IsNew(history, key) {
      var i :| 0 <= i < |history| && EntryKey(history[i]) == key && FirstContact(history, i);
      assert EntryKey(longer[i]) == key && FirstContact(longer, i);
    }
  }

  /** A flow just opened is new exactly when its destination was never seen and it goes out. */
  lemma IsNewAtOpening(history: seq<Entry>, e: Entry)
    requires EntryKey(e) !in KeysIn(history)
    ensures IsNew(history + [e], EntryKey(e))
            <==> DirectionFor(e.packet).Outbound? && e.packet.dst != "" && e.packet.dst !in SeenIn(history)
  {
    hide KeyOf, DirectionFor, KeysIn;
    var longer, n := history + [e], |history|;
    KeyIndex(history, EntryKey(e));
    assert longer[n] == e && forall i :: 0 <= i < n ==> longer[i] == history[i];
    assert forall i :: 0 <= i < n ==> EntryKey(history[i]) != EntryKey(e);
    assert IsNew(longer, EntryKey(e)) <==> FirstContact(longer, n);
    if e.packet.dst != "" && e.packet.dst in SeenIn(history) {
      var x :| x in history && x.packet.dst == e.packet.dst;
      var j :| 0 <= j < n && history[j] == x;
      assert longer[j].packet.dst == e.packet.dst;
    }
    if e.packet.dst != "" && e.packet.dst !in SeenIn(history) {
      assert forall j :: 0 <= j < n ==> history[j] in history;
    }
  }

  lemma SomeKept(history: seq<Entry>, key: FlowKey)
    ensures key in KeysIn(history) <==> PacketsOf(history, key) != []
  {
    FilterMembers(history, OfKey(key));
    if PacketsOf(history, key) != [] {
      assert PacketsOf(history, key)[0] in history;
    }
    if key in KeysIn(history) {
      var x :| x in history && EntryKey(x) == key;
      assert x in PacketsOf(history, key);
    }
  }

  /** A packet changes its own flow only. */
  lemma OtherFlowsStay(history: seq<Entry>, e: Entry, key: FlowKey)
    requires key in KeysIn(history) && key != EntryKey(e)
    ensures PacketsOf(history, key) != [] && PacketsOf(history + [e], key) == PacketsOf(history, key)
    ensures FlowIn(history + [e], key) == FlowIn(history, key)
  {
    SomeKept(history, key);
    FilterSnoc(history, e, OfKey(key));
    IsNewStays(history, e, key);
  }

  lemma OwnFlow(history: seq<Entry>, e: Entry)
    ensures PacketsOf(history + [e], EntryKey(e)) == PacketsOf(history, EntryKey(e)) + [e]
  {
    FilterSnoc(history, e, OfKey(EntryKey(e)));
  }

  lemma FlowsSnoc(history: seq<Entry>, e: Entry)
    ensures PacketsOf(history + [e], EntryKey(e)) != []
    ensures FlowsOf(history + [e]) == FlowsOf(history)[EntryKey(e) := FlowIn(history + [e], EntryKey(e))]
  {
    OwnFlow(history, e);
    assert (history + [e])[..|history|] == history && (history + [e])[|history|] == e;
  }

  ghost predicate Tabled(history: seq<Entry>) {
    && FlowsOf(history).Keys == KeysIn(history)
    && forall key :: key in KeysIn(history) ==>
         PacketsOf(history, key) != [] && FlowsOf(history)[key] == FlowIn(history, key)
  }

  lemma TabledGrows(init: seq<Entry>, e: Entry)
    requires Tabled(init)
    ensures Tabled(init + [e])
  {
    hide FlowsOf, FlowIn, KeysIn, PacketsOf;
    var history := init + [e];
    FlowsSnoc(init, e);
    KeysSnoc(init, e);
    forall key | key in KeysIn(history)
      ensures PacketsOf(history, key) != [] && FlowsOf(history)[key] == FlowIn(history, key)
    {
      if key != EntryKey(e) { OtherFlowsStay(init, e, key); }
    }
  }

  /** The table of flows is the history, packet by packet and flow by flow. */
  lemma {:induction false} FlowsAt(history: seq<Entry>)
    ensures FlowsOf(history).Keys == KeysIn(history)
    ensures forall key :: key in KeysIn(history) ==>
              PacketsOf(history, key) != [] && FlowsOf(history)[key] == FlowIn(history, key)
  {
    if history != [] {
      hide FlowsOf, FlowIn, KeysIn, PacketsOf;
      var init, e := history[..|history| - 1], history[|history| - 1];
      assert history == init + [e];
      FlowsAt(init);
      TabledGrows(init, e);
    }
  }

  lemma MembersSnoc(history: seq<Entry>, e: Entry, c: ConversationKey)
    ensures MembersOf(history + [e], c) == MembersOf(history, c)
            + if ConversationFor(e.packet) == c then {EntryKey(e)} else {}
  {
    assert forall x :: x in history + [e] <==> x in history || x == e;
    forall key | key in MembersOf(history, c) ensures key in MembersOf(history + [e], c) {
      var x :| x in history && ConversationFor(x.packet) == c && EntryKey(x) == key;
      assert x in history + [e];
    }
    assert e in history + [e];
  }

  lemma ConversationsAt(history: seq<Entry>)
    ensures ConversationsOf(history).Keys == ConversationsIn(history)
    ensures forall c :: c in ConversationsIn(history) ==> ConversationsOf(history)[c] == MembersOf(history, c)
    ensures forall c :: c !in ConversationsIn(history) ==> MembersOf(history, c) == {}
  {
  }

  lemma ConversationKeysSnoc(history: seq<Entry>, e: Entry)
    ensures ConversationsIn(history + [e]) == ConversationsIn(history) + {ConversationFor(e.packet)}
  {
    assert forall x :: x in history + [e] <==> x in history || x == e;
    forall d | d in ConversationsIn(history) ensures d in ConversationsIn(history + [e]) {
      var x :| x in history && ConversationFor(x.packet) == d;
      assert x in history + [e];
    }
    assert e in history + [e];
  }

  lemma ConversationsSnoc(history: seq<Entry>, e: Entry)
    ensures var c, before := ConversationFor(e.packet), ConversationsOf(history);
            ConversationsOf(history + [e]) == before[c := (if c in before then before[c] else {}) + {EntryKey(e)}]
  {
    var before, after, own := ConversationsOf(history), ConversationsOf(history + [e]), ConversationFor(e.packet);
    ConversationKeysSnoc(history, e);
    ConversationsAt(history);
    ConversationsAt(history + [e]);
    forall c | c in before && c != own ensures c in after && after[c] == before[c] {
      MembersSnoc(history, e, c);
    }
    MembersSnoc(history, e, own);
    OnlyOneChanged(before, after, own);
  }

  // ----- the parts of one flow -----

  lemma TrafficSnoc(hs: seq<Entry>, e: Entry)
    ensures var p, t := e.packet, TrafficOf(hs + [e]);
            && t.packets == |hs| + 1 && t.bytes == SumBy(hs, Length) + Length(e)
            && t.sent == SumBy(hs, SentBytes) + SentBytes(e)
            && t.received == SumBy(hs, ReceivedBytes) + ReceivedBytes(e)
            && t.dnsFailures == SumBy(hs, NameFailures) + NameFailures(e)
            && t.service == (if p.service != "" then p.service else ServiceOf(hs))
            && t.samples == (if |FirstPackets(hs, MAX_SAMPLES)| < MAX_SAMPLES then FirstPackets(hs, MAX_SAMPLES) + [p]
                             else FirstPackets(hs, MAX_SAMPLES))
            && t.metadata == MergedMetadata(hs) + p.metadata
    ensures hs == [] ==>
              && SumBy(hs, Length) == SumBy(hs, SentBytes) == SumBy(hs, ReceivedBytes) == SumBy(hs, NameFailures) == 0
              && ServiceOf(hs) == "Unknown" && FirstPackets(hs, MAX_SAMPLES) == [] && MergedMetadata(hs) == map[]
  {
    assert (hs + [e])[..|hs|] == hs && (hs + [e])[|hs|] == e;
  }

  /** The traffic fields after one more packet. */
  method CountTraffic(origin: Origin, prior: Option<Traffic>, e: Entry, ghost hs: seq<Entry>) returns (t: Traffic)
    requires hs != [] ==> origin.firstMillis == hs[0].packet.millis && prior == Some(TrafficOf(hs))
    requires hs == [] ==> origin.firstMillis == e.packet.millis && prior == None
    ensures t == TrafficOf(hs + [e])
  {
    hide SumBy, ServiceOf, MergedMetadata, FirstPackets, DirectionFor;
    var p := e.packet;
    t := if prior.Some? then prior.value else Traffic(p.at, 0, p.app, 0, 0, 0, 0, "Unknown", [], map[], 0);
    var length := Max(0, p.length);
    t := t.(lastSeen := p.at, packets := t.packets + 1, bytes := t.bytes + length, metadata := t.metadata + p.metadata);
    if DirectionFor(p).Inbound? {
      t := t.(received := t.received + length);
    } else {
      t := t.(sent := t.sent + length);
    }
    if p.service != "" { t := t.(service := p.service); }
    if |t.samples| < MAX_SAMPLES { t := t.(samples := t.samples + [p]); }
    t := t.(durationMs := Max(0, p.millis - origin.firstMillis));
    if p.app != t.app { t := t.(app := p.app); }
    if p.app == "DNS" && p.dnsRcode == 3 { t := t.(dnsFailures := t.dnsFailures + 1); }
    TrafficSnoc(hs, e);
  }

  lemma AlertsSnoc(book: AlertBook, p: Packet, alerts: seq<Alert>, i: nat)
    requires i < |alerts|
    ensures AddAlerts(book, alerts[..i + 1]) == AddAlert(AddAlerts(book, alerts[..i]), alerts[i])
    ensures AlertEvents(p, alerts[..i + 1]) == AlertEvents(p, alerts[..i]) + [AlertEvent(p, alerts[i])]
  {
    assert alerts[..i + 1][..i] == alerts[..i];
  }

  /** Each alert is tallied, listed once by id, and put on the timeline. */
  method NoteAlerts(before: AlertBook, kept: seq<TimelineEvent>, p: Packet, alerts: seq<Alert>)
    returns (book: AlertBook, timeline: seq<TimelineEvent>)
    ensures book == AddAlerts(before, alerts) && timeline == kept + AlertEvents(p, alerts)
  {
    book, timeline := before, kept;
    for i := 0 to |alerts|
      invariant book == AddAlerts(before, alerts[..i])
      invariant timeline == kept + AlertEvents(p, alerts[..i])
    {
      AlertsSnoc(before, p, alerts, i);
      var a := alerts[i];
      book := book.(counts := book.counts + multiset{SeverityOf(a)});
      if a.id != "" && a.id !in book.ids { book := book.(ids := book.ids + [a.id]); }
      timeline := timeline + [AlertEvent(p, a)];
    }
    assert alerts[..|alerts|] == alerts;
  }

  method OpenTimeline(kept: seq<TimelineEvent>, created: bool, priorApp: string, p: Packet)
    returns (timeline: seq<TimelineEvent>)
    ensures timeline == kept + Opening(p, created, priorApp)
  {
    timeline := kept;
    if created { timeline := timeline + [StartedEvent(p)]; }
    if p.app != priorApp || created { timeline := timeline + [DetectedEvent(p)]; }
  }

  lemma LastOfBoth(kept: seq<TimelineEvent>, opening: seq<TimelineEvent>)
    ensures LastMetadata(kept + opening) == if opening == [] then LastMetadata(kept) else LastMetadata(opening)
  {
    if opening == [] { assert kept + opening == kept; }
  }

  /** The events of one packet, in the order the engine appends them. */
  method ExtendTimeline(kept: seq<TimelineEvent>, created: bool, priorApp: string, isNew: bool, e: Entry,
                        before: AlertBook)
    returns (timeline: seq<TimelineEvent>, book: AlertBook)
    ensures timeline == kept + Fresh(LastMetadata(kept), created, priorApp, isNew, e)
    ensures book == AddAlerts(before, e.alerts)
  {
    var p := e.packet;
    timeline := OpenTimeline(kept, created, priorApp, p);
    ghost var opening := Opening(p, created, priorApp);
    LastOfBoth(kept, opening);
    ghost var observed := if Observes(p, LastMetadata(timeline)) then [ObservedEvent(p)] else [];
    if p.app == "DNS" || p.app == "HTTP" || p.app == "TLS" {
      if p.metadata != map[] && (timeline == [] || timeline[|timeline| - 1].metadata != p.metadata) {
        timeline := timeline + [ObservedEvent(p)];
      }
    }
    assert timeline == kept + opening + observed;
    book, timeline := NoteAlerts(before, timeline, p, e.alerts);
    ghost var unusual := if created && isNew then [NewDestinationEvent(p)] else [];
    if isNew && created { timeline := timeline + [NewDestinationEvent(p)]; }
    Regroup(kept, opening, observed, AlertEvents(p, e.alerts), unusual);
  }

  lemma Regroup<T>(a: seq<T>, b: seq<T>, c: seq<T>, d: seq<T>, e: seq<T>)
    ensures a + b + c + d + e == a + (b + c + d + e) && a + b + c + d + [] == a + b + c + d
  {
  }

  lemma TimelineSnoc(hs: seq<Entry>, isNew: bool, e: Entry)
    ensures var soFar := WholeTimeline(hs, isNew);
            WholeTimeline(hs + [e], isNew)
            == soFar + Fresh(LastMetadata(soFar), hs == [], if hs == [] then "" else hs[|hs| - 1].packet.app, isNew, e)
    ensures AlertsOf(hs + [e]) == AddAlerts(AlertsOf(hs), e.alerts)
  {
    assert (hs + [e])[..|hs|] == hs && (hs + [e])[|hs|] == e;
  }

  /** One packet brings a flow from what its packets said so far to what they say now. */
  method Observe(origin: Origin, prior: Option<Flow>, e: Entry, ghost hs: seq<Entry>) returns (flow: Flow)
    requires origin == OriginOf(hs + [e], origin.isNew)
    requires prior == if hs == [] then None else Some(Describe(hs, origin.isNew))
    ensures flow == Describe(hs + [e], origin.isNew)
  {
    var created := prior.None?;
    ghost var whole := WholeTimeline(hs, origin.isNew);
    var t := CountTraffic(origin, if created then None else Some(prior.value.traffic), e, hs);
    var kept := if created then [] else prior.value.timeline;
    LastNAgain(whole, Fresh(LastMetadata(whole), created, if created then "" else hs[|hs| - 1].packet.app,
                            origin.isNew, e), MAX_TIMELINE);
    var timeline, book := ExtendTimeline(kept, created, if created then "" else prior.value.traffic.app,
                                         origin.isNew, e, if created then NO_ALERTS else prior.value.alerts);
    TimelineSnoc(hs, origin.isNew, e);
    var risk := ScoreFlow(FeaturesOf(origin, t, book));
    flow := Flow(origin, t, book, LastN(timeline, MAX_TIMELINE), risk);
  }

  lemma ConversationOfKey(p: Packet, q: Packet)
    requires KeyOf(p) == KeyOf(q)
    ensures ConversationFor(p) == ConversationFor(q)
  {
  }

  lemma KnownMember(history: seq<Entry>, p: Packet)
    requires KeyOf(p) in KeysIn(history)
    ensures var c := ConversationFor(p); c in ConversationsOf(history) && KeyOf(p) in ConversationsOf(history)[c]
  {
    var x :| x in history && EntryKey(x) == KeyOf(p);
    ConversationOfKey(p, x.packet);
  }

  /** Recording the flow's key at creation keeps its conversation right for all its packets. */
  lemma ConversationsGrow(history: seq<Entry>, e: Entry)
    ensures var c, before := ConversationFor(e.packet), ConversationsOf(history);
            ConversationsOf(history + [e])
            == if EntryKey(e) in KeysIn(history) then before
               else before[c := (if c in before then before[c] else {}) + {EntryKey(e)}]
  {
    ConversationsSnoc(history, e);
    if EntryKey(e) in KeysIn(history) {
      KnownMember(history, e.packet);
      var members := ConversationsOf(history)[ConversationFor(e.packet)];
      assert members + {EntryKey(e)} == members;
    }
  }

  /** What the engine finds in its tables when a packet comes in, and what it must leave in them. */
  lemma Found(history: seq<Entry>, e: Entry) returns (hs: seq<Entry>, isNew: bool)
    ensures var key, before := EntryKey(e), FlowsOf(history);
            && before.Keys == KeysIn(history)
            && (key !in before ==>
                  hs == []
                  && (isNew <==>
                        e.packet.dst != "" && e.packet.dst !in SeenIn(history) && DirectionFor(e.packet).Outbound?))
            && (key in before ==>
                  hs != [] && before[key] == Describe(hs, isNew) && OriginOf(hs + [e], isNew) == before[key].origin
                    && before[key].origin.isNew == isNew)
            && FlowsOf(history + [e]) == before[key := Describe(hs + [e], isNew)]
  {
    var key := EntryKey(e);
    hs, isNew := PacketsOf(history, key), IsNew(history + [e], key);
    FlowsAt(history);
    SomeKept(history, key);
    if key in KeysIn(history) {
      IsNewStays(history, e, key);
    } else {
      IsNewAtOpening(history, e);
    }
    FlowsSnoc(history, e);
    OwnFlow(history, e);
  }

  lemma MembersAreFlows(history: seq<Entry>)
    ensures forall c :: c in ConversationsOf(history) ==> ConversationsOf(history)[c] <= FlowsOf(history).Keys
  {
    FlowsAt(history);
  }

  /** The highest score among the flows of these keys; 0 if there are none. */
  ghost predicate HighestRisk(flows: map<FlowKey, Flow>, keys: set<FlowKey>, risk: nat)
    requires keys <= flows.Keys
  {
    && (forall k :: k in keys ==> flows[k].risk.score <= risk)
    && (risk == 0 || exists k :: k in keys && flows[k].risk.score == risk)
  }

  lemma NoFlows()
    ensures var none: map<FlowKey, Flow> := map[]; Total(none, FlowPackets) == Total(none, FlowBytes) == 0
  {
  }

  method SumFlows(flows: map<FlowKey, Flow>, keys: set<FlowKey>) returns (packets: nat, bytes: nat, risk: nat)
    requires keys <= flows.Keys
    ensures packets == Total(Part(flows, keys), FlowPackets) && bytes == Total(Part(flows, keys), FlowBytes)
    ensures HighestRisk(flows, keys, risk)
  {
    hide Total;
    NoFlows();
    packets, bytes, risk := 0, 0, 0;
    var left := keys;
    while left != {}
      invariant left <= keys && HighestRisk(flows, keys - left, risk)
      invariant packets + Total(Part(flows, left), FlowPackets) == Total(Part(flows, keys), FlowPackets)
      invariant bytes + Total(Part(flows, left), FlowBytes) == Total(Part(flows, keys), FlowBytes)
      decreases |left|
    {
      var k :| k in left;
      TotalRemove(Part(flows, left), FlowPackets, k);
      TotalRemove(Part(flows, left), FlowBytes, k);
      assert Part(flows, left) - {k} == Part(flows, left - {k});
      var flow := flows[k];
      packets, bytes := packets + flow.traffic.packets, bytes + flow.traffic.bytes;
      if risk < flow.risk.score { risk := flow.risk.score; }
      left := left - {k};
    }
    assert Part(flows, {}) == map[] && keys - {} == keys;
  }

  class FlowIndex {
    var flows: map<FlowKey, Flow>
    var conversations: map<ConversationKey, set<FlowKey>>
    var seen: set<string>
    ghost var history: seq<Entry>

    ghost predicate Valid()
      reads this
    {
      flows == FlowsOf(history) && conversations == ConversationsOf(history) && seen == SeenIn(history)
    }

    constructor ()
      ensures Valid() && history == []
    {
      flows, conversations, seen := map[], map[], {};
      history := [];
    }

    method Reset()
      modifies this
      ensures Valid() && history == [] && flows == map[] && conversations == map[] && seen == {}
    {
      flows, conversations, seen := map[], map[], {};
      history := [];
    }

    method RecordConversation(e: Entry, created: bool, ghost h: seq<Entry>)
      requires conversations == ConversationsOf(h) && created == (EntryKey(e) !in KeysIn(h))
      modifies this`conversations
      ensures conversations == ConversationsOf(h + [e])
    {
      ConversationsGrow(h, e);
      if created {
        var c := ConversationFor(e.packet);
        conversations := conversations[c := (if c in conversations then conversations[c] else {}) + {KeyOf(e.packet)}];
      }
    }

    method RecordDestination(e: Entry, ghost h: seq<Entry>)
      requires seen == SeenIn(h)
      modifies this`seen
      ensures seen == SeenIn(h + [e])
    {
      KeysSnoc(h, e);
      if e.packet.dst != "" { seen := seen + {e.packet.dst}; }
    }

    method RecordFlow(e: Entry, ghost h: seq<Entry>) returns (flow: Flow, created: bool)
      requires flows == FlowsOf(h) && seen == SeenIn(h)
      modifies this`flows
      ensures flows == FlowsOf(h + [e])
      ensures EntryKey(e) in flows && flow == flows[EntryKey(e)]
      ensures created == (EntryKey(e) !in KeysIn(h))
    {
      hide Describe, FlowIn;
      var p, key := e.packet, KeyOf(e.packet);
      ghost var hs, isNew := Found(h, e);
      var origin, prior;
      created := key !in flows;
      if created {
        origin := Origin(key, ConversationFor(p), p.at, p.millis, p.transport, p.unusualPort, p.process,
                         p.dst != "" && p.dst !in seen && DirectionFor(p).Outbound?);
        prior := None;
      } else {
        origin, prior := flows[key].origin, Some(flows[key]);
      }
      flow := Observe(origin, prior, e, hs);
      flows := flows[key := flow];
    }

    /** Ingesting a packet leaves exactly the tables of the longer history. */
    method Ingest(p: Packet, alerts: seq<Alert>) returns (flow: Flow)
      requires Valid()
      modifies this
      ensures Valid() && history == old(history) + [Entry(p, alerts)]
      ensures KeyOf(p) in flows && flow == flows[KeyOf(p)]
    {
      hide FlowIn, FlowsOf, ConversationsOf, SeenIn, KeysIn, KeyOf;
      var e, created := Entry(p, alerts), false;
      ghost var h := history;
      flow, created := RecordFlow(e, h);
      RecordConversation(e, created, h);
      RecordDestination(e, h);
      history := h + [e];
    }

    lemma MembersAreKept()
      requires Valid()
      ensures forall c :: c in conversations ==> conversations[c] <= flows.Keys
    {
      hide FlowsOf, ConversationsOf;
      MembersAreFlows(history);
    }

    /** The conversations as reported: per conversation the sums of its flows and their highest risk. */
    method Conversations()
      returns (packets: map<ConversationKey, nat>, bytes: map<ConversationKey, nat>, risks: map<ConversationKey, nat>)
      requires Valid()
      ensures forall c :: c in conversations ==> conversations[c] <= flows.Keys
      ensures packets == GroupTotals(flows, conversations, FlowPackets)
      ensures bytes == GroupTotals(flows, conversations, FlowBytes)
      ensures risks.Keys == conversations.Keys
              && forall c :: c in conversations ==> HighestRisk(flows, conversations[c], risks[c])
    {
      hide Valid, Total, Part, HighestRisk;
      MembersAreKept();
      packets, bytes, risks := map[], map[], map[];
      var left := conversations.Keys;
      while left != {}
        invariant left <= conversations.Keys
        invariant packets.Keys == bytes.Keys == risks.Keys == conversations.Keys - left
        invariant forall c :: c in packets ==>
                    && packets[c] == Total(Part(flows, conversations[c]), FlowPackets)
                    && bytes[c] == Total(Part(flows, conversations[c]), FlowBytes)
                    && HighestRisk(flows, conversations[c], risks[c])
        decreases |left|
      {
        var c :| c in left;
        var p, b, r := SumFlows(flows, conversations[c]);
        packets, bytes, risks := packets[c := p], bytes[c := b], risks[c := r];
        left := left - {c};
      }
    }
  }
}
