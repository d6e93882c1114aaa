/** core/flow_engine.py and core/conversation_model.py: what the index of flows and conversations
    must be, as a function of every packet ingested since the last reset.

    Flow and conversation ids are the tuples they are hashed from; protocol analysis, redaction
    and local-address tests are inputs carried by the packet. */
module FlowEngine {
  import opened Sequences
  import opened Text
  import opened Values
  import opened FlowRisk

  type Metadata = map<string, string>

  datatype Packet = Packet(id: string, at: string, millis: int, src: string, dst: string, sport: int, dport: int,
                           proto: string, rawDirection: string, srcLocal: bool, dstLocal: bool, length: int,
                           transport: string, app: string, confidence: string, basis: string, metadata: Metadata,
                           unusualPort: bool, process: string, service: string, dnsRcode: int)

  datatype Alert = Alert(id: string, severity: string, title: string)

  datatype Entry = Entry(packet: Packet, alerts: seq<Alert>)

  datatype Endpoint = Endpoint(address: string, port: int)

  datatype FlowKey = FlowKey(src: string, dst: string, sport: int, dport: int, proto: string, direction: Direction)

  datatype ConversationKey = ConversationKey(low: Endpoint, high: Endpoint, proto: string)

  // ----- identities -----

  function DirectionFor(p: Packet): Direction {
    var raw := Upper(Strip(p.rawDirection));
    if raw == "OUTGOING" then Outbound
    else if raw == "INCOMING" then Inbound
    else if p.srcLocal then if p.dstLocal then Internal else Outbound
    else if p.dstLocal then Inbound else Local
  }

  function KeyOf(p: Packet): FlowKey {
    FlowKey(OrElse(p.src, "-"), OrElse(p.dst, "-"), p.sport, p.dport, Upper(OrElse(p.proto, "OTHER")), DirectionFor(p))
  }

  predicate EndpointLeq(a: Endpoint, b: Endpoint) {
    if a.address == b.address then a.port <= b.port else StringLeq(a.address, b.address)
  }

  function ConversationFor(p: Packet): ConversationKey {
    var left, right := Endpoint(OrElse(p.src, "-"), p.sport), Endpoint(OrElse(p.dst, "-"), p.dport);
    var proto := Upper(OrElse(p.proto, "OTHER"));
    if EndpointLeq(left, right) then ConversationKey(left, right, proto) else ConversationKey(right, left, proto)
  }

  // ----- one flow -----

  /** What is fixed when a flow is created. */
  datatype Origin = Origin(key: FlowKey, conversation: ConversationKey, firstSeen: string, firstMillis: int,
                           transport: string, unusualPort: bool, process: string, isNew: bool)

  datatype Traffic = Traffic(lastSeen: string, durationMs: nat, app: string, packets: nat, bytes: nat, sent: nat,
                             received: nat, service: string, samples: seq<Packet>, metadata: Metadata, dnsFailures: nat)

  datatype AlertBook = AlertBook(ids: seq<string>, counts: multiset<string>)

  datatype EventKind = FlowStarted | ProtocolDetected | MetadataObserved | AlertTriggered | UnusualDestination

  datatype TimelineEvent = TimelineEvent(at: string, kind: EventKind, text: string, severity: string,
                                         metadata: Metadata, packetId: string, alertId: string)

  datatype Flow = Flow(origin: Origin, traffic: Traffic, alerts: AlertBook, timeline: seq<TimelineEvent>, risk: Risk)

  const MAX_SAMPLES := 5
  const MAX_TIMELINE := 200

  function Length(e: Entry): nat { Max(0, e.packet.length) }

  function SentBytes(e: Entry): nat { if DirectionFor(e.packet).Inbound? then 0 else Length(e) }

  function ReceivedBytes(e: Entry): nat { if DirectionFor(e.packet).Inbound? then Length(e) else 0 }

  function NameFailures(e: Entry): nat { if e.packet.app == "DNS" && e.packet.dnsRcode == 3 then 1 else 0 }

  /** The last service named by a packet of the flow. */
  function ServiceOf(hs: seq<Entry>): string {
    if hs == [] then "Unknown"
    else if hs[|hs| - 1].packet.service != "" then hs[|hs| - 1].packet.service
    else ServiceOf(hs[..|hs| - 1])
  }

  function MergedMetadata(hs: seq<Entry>): Metadata {
    if hs == [] then map[] else MergedMetadata(hs[..|hs| - 1]) + hs[|hs| - 1].packet.metadata
  }

  function FirstPackets(hs: seq<Entry>, n: nat): seq<Packet> {
    if hs == [] then []
    else
      var before := FirstPackets(hs[..|hs| - 1], n);
      if |before| < n then before + [hs[|hs| - 1].packet] else before
  }

  function OriginOf(hs: seq<Entry>, isNew: bool): Origin
    requires hs != []
  {
    var p := hs[0].packet;
    Origin(KeyOf(p), ConversationFor(p), p.at, p.millis, p.transport, p.unusualPort, p.process, isNew)
  }

  function TrafficOf(hs: seq<Entry>): Traffic
    requires hs != []
  {
    var last := hs[|hs| - 1].packet;
    Traffic(last.at, Max(0, last.millis - hs[0].packet.millis), last.app, |hs|, SumBy(hs, Length), SumBy(hs, SentBytes),
            SumBy(hs, ReceivedBytes), ServiceOf(hs), FirstPackets(hs, MAX_SAMPLES), MergedMetadata(hs),
              SumBy(hs, NameFailures))
  }

  function SeverityOf(a: Alert): string { Lower(OrElse(a.severity, "low")) }

  function AddAlert(book: AlertBook, a: Alert): AlertBook {
    AlertBook(if a.id != "" && a.id !in book.ids then book.ids + [a.id] else book.ids,
              book.counts + multiset{SeverityOf(a)})
  }

  function AddAlerts(book: AlertBook, alerts: seq<Alert>): AlertBook {
    if alerts == [] then book else AddAlert(AddAlerts(book, alerts[..|alerts| - 1]), alerts[|alerts| - 1])
  }

  const NO_ALERTS := AlertBook([], multiset{})

  function AlertsOf(hs: seq<Entry>): AlertBook {
    if hs == [] then NO_ALERTS else AddAlerts(AlertsOf(hs[..|hs| - 1]), hs[|hs| - 1].alerts)
  }

  // ----- the timeline -----

  function StartedEvent(p: Packet): TimelineEvent {
    TimelineEvent(p.at, FlowStarted, p.transport, "info", map[], p.id, "")
  }

  function DetectedEvent(p: Packet): TimelineEvent {
    TimelineEvent(p.at, ProtocolDetected, p.app, "info", map["confidence" := p.confidence, "basis" := p.basis], p.id,
                  "")
  }

  function ObservedEvent(p: Packet): TimelineEvent {
    TimelineEvent(p.at, MetadataObserved, p.app, "info", p.metadata, p.id, "")
  }

  function AlertEvent(p: Packet, a: Alert): TimelineEvent {
    TimelineEvent(p.at, AlertTriggered, a.title, SeverityOf(a), map[], p.id, a.id)
  }

  function NewDestinationEvent(p: Packet): TimelineEvent {
    TimelineEvent(p.at, UnusualDestination, "", "medium", map["destination" := p.dst], "", "")
  }

  function AlertEvents(p: Packet, alerts: seq<Alert>): seq<TimelineEvent> {
    if alerts == [] then [] else AlertEvents(p, alerts[..|alerts| - 1]) + [AlertEvent(p, alerts[|alerts| - 1])]
  }

  predicate Observes(p: Packet, lastMetadata: Option<Metadata>) {
    (p.app == "DNS" || p.app == "HTTP" || p.app == "TLS") && p.metadata != map[]
    && lastMetadata != Some(p.metadata)
  }

  function LastMetadata(timeline: seq<TimelineEvent>): Option<Metadata> {
    if timeline == [] then None else Some(timeline[|timeline| - 1].metadata)
  }

  /** The events one packet adds: to a flow just created, or to one whose last protocol was `priorApp`. */
  function Opening(p: Packet, created: bool, priorApp: string): seq<TimelineEvent> {
    if created then [StartedEvent(p), DetectedEvent(p)] else if p.app != priorApp then [DetectedEvent(p)] else []
  }

  function Fresh(last: Option<Metadata>, created: bool, priorApp: string, isNew: bool, e: Entry): seq<TimelineEvent> {
    var opening := Opening(e.packet, created, priorApp);
    opening
    + (if Observes(e.packet, if opening == [] then last else LastMetadata(opening)) then [ObservedEvent(e.packet)]
       else [])
    + AlertEvents(e.packet, e.alerts)
    + (if created && isNew then [NewDestinationEvent(e.packet)] else [])
  }

  /** Every event of the flow, before any is forgotten. */
  function WholeTimeline(hs: seq<Entry>, isNew: bool): seq<TimelineEvent> {
    if hs == [] then []
    else
      var before, e := hs[..|hs| - 1], hs[|hs| - 1];
      var soFar := WholeTimeline(before, isNew);
      soFar + Fresh(LastMetadata(soFar), before == [], if before == [] then "" else before[|before| - 1].packet.app,
                    isNew, e)
  }

  function FlowPackets(f: Flow): nat { f.traffic.packets }

  function FlowBytes(f: Flow): nat { f.traffic.bytes }

  // ----- the index -----

  function FeaturesOf(o: Origin, t: Traffic, a: AlertBook): Features {
    Features(a.counts, t.app, o.key.direction, o.unusualPort, t.packets, t.bytes, t.dnsFailures, o.isNew,
             "sni" in t.metadata && t.metadata["sni"] != "", o.process)
  }

  function StoredFeatures(f: Flow): Features { FeaturesOf(f.origin, f.traffic, f.alerts) }

  function Describe(hs: seq<Entry>, isNew: bool): Flow
    requires hs != []
  {
    var o, t, a := OriginOf(hs, isNew), TrafficOf(hs), AlertsOf(hs);
    Flow(o, t, a, LastN(WholeTimeline(hs, isNew), MAX_TIMELINE), RiskOf(FeaturesOf(o, t, a)))
  }

  function EntryKey(e: Entry): FlowKey { KeyOf(e.packet) }

  function OfKey(key: FlowKey): Entry -> bool { (e: Entry) => EntryKey(e) == key }

  ghost function KeysIn(history: seq<Entry>): set<FlowKey> { set e | e in history :: EntryKey(e) }

  ghost function SeenIn(history: seq<Entry>): set<string> { set e | e in history && e.packet.dst != "" :: e.packet.dst }

  ghost function ConversationsIn(history: seq<Entry>): set<ConversationKey> {
    set e | e in history :: ConversationFor(e.packet)
  }

  /** Entry `i` opens its flow and is the first packet of all to reach its destination, on the way out. */
  ghost predicate FirstContact(history: seq<Entry>, i: nat)
    requires i < |history|
  {
    var e := history[i];
    && DirectionFor(e.packet).Outbound? && e.packet.dst != ""
    && (forall j :: 0 <= j < i ==> EntryKey(history[j]) != EntryKey(e))
    && (forall j :: 0 <= j < i ==> history[j].packet.dst != e.packet.dst)
  }

  ghost predicate IsNew(history: seq<Entry>, key: FlowKey) {
    exists i :: 0 <= i < |history| && EntryKey(history[i]) == key && FirstContact(history, i)
  }

  function PacketsOf(history: seq<Entry>, key: FlowKey): seq<Entry> { Filter(history, OfKey(key)) }

  ghost function FlowIn(history: seq<Entry>, key: FlowKey): Flow
    requires PacketsOf(history, key) != []
  {
    Describe(PacketsOf(history, key), IsNew(history, key))
  }

  /** The flow of every key in the history, each as its own packets describe it. */
  ghost function FlowsOf(history: seq<Entry>): map<FlowKey, Flow> {
    if history == [] then map[]
    else
      var own := EntryKey(history[|history| - 1]);
      FlowsOf(history[..|history| - 1])[own := FlowIn(history, own)]
  }

  ghost function MembersOf(history: seq<Entry>, c: ConversationKey): set<FlowKey> {
    set e | e in history && ConversationFor(e.packet) == c :: EntryKey(e)
  }

  ghost function ConversationsOf(history: seq<Entry>): map<ConversationKey, set<FlowKey>> {
    map c | c in ConversationsIn(history) :: MembersOf(history, c)
  }
}
