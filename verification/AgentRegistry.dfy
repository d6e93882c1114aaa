/** backend/app/services/agent_registry.py in JSONL mode: agent records and telemetry windows in
    memory, and a log of events from which a restart rebuilds them. */
module AgentRegistry {
  import opened Sequences
  import opened Text
  import opened Values

  datatype Risk = Risk(score: nat, severity: string)

  /** `body` is the payload after redaction. */
  datatype Telemetry = Telemetry(agentId: string, receivedAt: string, body: string, risk: Risk)

  /** `texts` are the descriptive fields after redaction. */
  datatype Agent = Agent(agentId: string, nodeType: string, capabilities: seq<string>, texts: string,
                         tokenHash: string, status: string, registeredAt: string, lastSeen: string,
                         lastTelemetry: Option<Telemetry>, risk: Risk)

  datatype Registration = Registration(agentId: string, nodeType: string, capabilities: seq<string>, texts: string)

  /** A line of the log as `splitlines` gives it; `Torn` is one that is not JSON. */
  datatype Line = AgentLine(agentId: string, record: Agent) | TelemetryLine(agentId: string, payload: Telemetry) | Torn

  datatype Failure = AgentIdRequired | TokenRequired | InvalidToken | UnsafeNodeType | ForbiddenCapability
                   | UnknownAgent | StorageFailed

  const WINDOW := 50
  const SAFE_NODE_TYPES := {"server", "sensor", "agent"}
  const SAFE_CAPABILITIES := {"telemetry", "health", "capture_status", "alerts_summary", "flows_summary",
                              "redacted_flow_metadata", "redacted_service_metadata", "local_capture_metadata",
                              "offline_pcap_metadata", "demo"}
  const FORBIDDEN_CAPABILITIES := {"remote_shell", "command_execution", "command_control", "file_collection",
                                   "raw_payload_forwarding", "raw_packet_forwarding", "raw_pcap_forwarding",
                                   "raw_payload", "raw_packet", "raw_pcap", "credential_access", "tls_decryption",
                                   "mitm"}

  // ----- lines as they are read back -----

  /** The characters that end a line for `splitlines` and that json.dumps leaves as they are. */
  predicate EndsLine(c: char) { c == '\U{85}' || c == '\U{2028}' || c == '\U{2029}' }

  predicate Unbroken(text: string) { forall i :: 0 <= i < |text| ==> !EndsLine(text[i]) }

  predicate UnbrokenTelemetry(t: Telemetry) {
    Unbroken(t.agentId) && Unbroken(t.receivedAt) && Unbroken(t.body) && Unbroken(t.risk.severity)
  }

  predicate UnbrokenAgent(a: Agent) {
    && Unbroken(a.agentId) && Unbroken(a.nodeType)
       && (forall i :: 0 <= i < |a.capabilities| ==> Unbroken(a.capabilities[i]))
    && Unbroken(a.texts) && Unbroken(a.tokenHash) && Unbroken(a.status) && Unbroken(a.registeredAt)
       && Unbroken(a.lastSeen)
    && (a.lastTelemetry.Some? ==> UnbrokenTelemetry(a.lastTelemetry.value)) && Unbroken(a.risk.severity)
  }

  predicate Whole(line: Line) {
    match line
    case AgentLine(id, record) => Unbroken(id) && UnbrokenAgent(record)
    case TelemetryLine(id, payload) => Unbroken(id) && UnbrokenTelemetry(payload)
    case Torn => true
  }

  /** A line cut inside a text is no JSON up to the cut, where a reader gives up. */
  function AsRead(line: Line): Line { if Whole(line) then line else Torn }

  // ----- normalising -----

  function Normal(text: string): string { Lower(Strip(text)) }

  function NodeTypeOf(value: string): Option<string> {
    var t := Normal(OrElse(value, "agent"));
    if t in SAFE_NODE_TYPES then Some(t) else None
  }

  function FirstFew(items: seq<string>): seq<string> { if |items| <= 64 then items else items[..64] }

  function AddCapability(known: seq<string>, item: string): seq<string> {
    if Normal(item) in SAFE_CAPABILITIES && Normal(item) !in known then known + [Normal(item)] else known
  }

  function Capabilities(items: seq<string>): seq<string> {
    if items == [] then [] else AddCapability(Capabilities(items[..|items| - 1]), items[|items| - 1])
  }

  predicate Forbids(items: seq<string>) {
    exists i :: 0 <= i < |items| && Normal(items[i]) != "" && Normal(items[i]) in FORBIDDEN_CAPABILITIES
  }

  function CapabilitiesOf(items: seq<string>): Option<seq<string>> {
    if Forbids(FirstFew(items)) then None else Some(Capabilities(FirstFew(items)))
  }

  method NormalizeCapabilities(items: seq<string>) returns (capabilities: Option<seq<string>>)
    ensures capabilities == CapabilitiesOf(items)
  {
    hide Normal, AddCapability;
    var few, known := FirstFew(items), [];
    for i := 0 to |few|
      invariant known == Capabilities(few[..i]) && !Forbids(few[..i])
    {
      assert few[..i + 1][..i] == few[..i] && few[..i + 1][i] == few[i];
      var capability := Normal(few[i]);
      if capability != "" && capability in FORBIDDEN_CAPABILITIES { return None; }
      known := AddCapability(known, few[i]);
    }
    assert few[..|few|] == few;
    capabilities := Some(known);
  }

  /** What is granted: each safe capability asked for among the first 64, once, and nothing else. */
  lemma {:induction false} GrantedCapabilities(items: seq<string>)
    ensures Distinct(Capabilities(items))
    ensures forall c :: c in Capabilities(items) <==>
                          c in SAFE_CAPABILITIES && exists i :: 0 <= i < |items| && Normal(items[i]) == c
  {
    hide Normal, SAFE_CAPABILITIES;
    if items != [] {
      var init, last := items[..|items| - 1], items[|items| - 1];
      GrantedCapabilities(init);
      assert forall i :: 0 <= i < |init| ==> init[i] == items[i];
    }
  }

  // ----- the registry and its log -----

  datatype Registry = Registry(agents: map<string, Agent>, telemetry: map<string, seq<Telemetry>>, log: seq<Line>)

  const EMPTY := Registry(map[], map[], [])

  datatype Env = Env(configuredToken: string, digest: string -> string)

  /** `appends` is how many lines storage takes before it fails, if it does; `risk` is what the risk
      rules make of the telemetry. */
  datatype Call =
    | Register(payload: Registration, token: string, now: string, appends: nat)
    | Heartbeat(agentId: string, status: string, now: string, appends: nat)
    | Telemeter(agentId: string, body: string, risk: Risk, now: string, appends: nat)

  function Window(telemetry: map<string, seq<Telemetry>>, id: string): seq<Telemetry> {
    if id in telemetry then telemetry[id] else []
  }

  function AddTelemetry(telemetry: map<string, seq<Telemetry>>, id: string, t: Telemetry): map<string, seq<Telemetry>> {
    telemetry[id := LastN(Window(telemetry, id) + [t], WINDOW)]
  }

  function Rejection(env: Env, r: Registry, call: Call): Option<Failure> {
    match call
    case Register(payload, token, _, _) =>
      if Strip(payload.agentId) == "" then Some(AgentIdRequired)
      else if token == "" then Some(TokenRequired)
      else if env.configuredToken != "" && env.configuredToken != token then Some(InvalidToken)
      else if NodeTypeOf(payload.nodeType).None? then Some(UnsafeNodeType)
      else if CapabilitiesOf(payload.capabilities).None? then Some(ForbiddenCapability)
      else None
    case Heartbeat(id, _, _, _) => if id in r.agents then None else Some(UnknownAgent)
    case Telemeter(id, _, _, _, _) => if id in r.agents then None else Some(UnknownAgent)
  }

  function IdOf(call: Call): string { if call.Register? then Strip(call.payload.agentId) else call.agentId }

  function TelemetryOf(call: Call): Telemetry
    requires call.Telemeter?
  {
    Telemetry(call.agentId, call.now, call.body, call.risk)
  }

  /** The record a call that is not rejected leaves. */
  function RecordOf(env: Env, r: Registry, call: Call): Agent
    requires Rejection(env, r, call).None?
  {
    match call
    case Register(payload, token, now, _) =>
      var id := Strip(payload.agentId);
      var known := id in r.agents;
      Agent(id, NodeTypeOf(payload.nodeType).value, CapabilitiesOf(payload.capabilities).value, payload.texts,
            env.digest(token), "online",
            if known && r.agents[id].registeredAt != "" then r.agents[id].registeredAt else now, now,
            if known then r.agents[id].lastTelemetry else None, if known then r.agents[id].risk else Risk(0, "low"))
    case Heartbeat(id, status, now, _) => r.agents[id].(lastSeen := now, status := OrElse(status, "online"))
    case Telemeter(id, _, risk, now, _) => r.agents[id].(lastSeen := now, lastTelemetry := Some(TelemetryOf(call)),
                                                         risk := risk)
  }

  /** The lines a call wants to append, in order, as they will be read. */
  function LinesOf(env: Env, r: Registry, call: Call): seq<Line>
    requires Rejection(env, r, call).None?
  {
    var record := AsRead(AgentLine(IdOf(call), RecordOf(env, r, call)));
    if call.Telemeter? then [record, AsRead(TelemetryLine(IdOf(call), TelemetryOf(call)))] else [record]
  }

  function Outcome(env: Env, r: Registry, call: Call): Option<Failure> {
    if Rejection(env, r, call).Some? then Rejection(env, r, call)
    else if call.appends < |LinesOf(env, r, call)| then Some(StorageFailed) else None
  }

  /** Memory changes first, then the lines are appended, as far as storage goes. */
  function Perform(env: Env, r: Registry, call: Call): Registry {
    if Rejection(env, r, call).Some? then r
    else
      var lines := LinesOf(env, r, call);
      Registry(r.agents[IdOf(call) := RecordOf(env, r, call)],
               if call.Telemeter? then AddTelemetry(r.telemetry, IdOf(call), TelemetryOf(call)) else r.telemetry,
               r.log + if call.appends < |lines| then lines[..call.appends] else lines)
  }

  // ----- reloading -----

  function Reload(r: Registry, line: Line): Registry {
    match line
    case AgentLine(id, record) => if id == "" then r else r.(agents := r.agents[id := record])
    case TelemetryLine(id, payload) => if id == "" then r else r.(telemetry := AddTelemetry(r.telemetry, id, payload))
    case Torn => r
  }

  function Folded(log: seq<Line>): Registry {
    if log == [] then EMPTY else Reload(Folded(log[..|log| - 1]), log[|log| - 1])
  }

  /** `_load_jsonl`: a line that does not parse empties everything. */
  function Replay(log: seq<Line>): Registry {
    if Torn in log then Registry(map[], map[], log) else Folded(log).(log := log)
  }

  /** A restart would find exactly what is in memory. */
  ghost predicate Recoverable(r: Registry) {
    Replay(r.log) == r && forall id :: id in r.agents ==> id != ""
  }

  lemma FoldSnoc(log: seq<Line>, line: Line)
    ensures Folded(log + [line]) == Reload(Folded(log), line)
  {
    assert (log + [line])[..|log|] == log;
  }

  lemma FoldNone()
    ensures Folded([]) == EMPTY
  {
  }

  lemma ReplaySnoc(r: Registry, line: Line)
    requires Recoverable(r) && Torn !in r.log && line != Torn
    ensures Replay(r.log + [line]) == Reload(r, line).(log := r.log + [line])
  {
    FoldSnoc(r.log, line);
    assert r == Folded(r.log).(log := r.log);
  }

  /** What the caller supplies is free of line ends. */
  predicate CleanInput(env: Env, call: Call) {
    match call
    case Register(payload, token, now, _) =>
      Unbroken(Strip(payload.agentId)) && Unbroken(payload.texts) && Unbroken(env.digest(token)) && Unbroken(now)
    case Heartbeat(_, status, now, _) => Unbroken(status) && Unbroken(now)
    case Telemeter(_, body, risk, now, _) => Unbroken(body) && Unbroken(risk.severity) && Unbroken(now)
  }

  /** Every record in memory would print as one line. */
  ghost predicate Printable(r: Registry) { forall id :: id in r.agents ==> Whole(AgentLine(id, r.agents[id])) }

  lemma SafeNodeTypesAreUnbroken()
    ensures forall t :: t in SAFE_NODE_TYPES ==> Unbroken(t)
  {
  }

  lemma ShortCapabilitiesAreUnbroken()
    ensures Unbroken("telemetry") && Unbroken("health") && Unbroken("capture_status") && Unbroken("alerts_summary")
    ensures Unbroken("flows_summary") && Unbroken("demo")
  {
  }

  lemma LongCapabilitiesAreUnbroken()
    ensures Unbroken("redacted_flow_metadata") && Unbroken("redacted_service_metadata")
    ensures Unbroken("local_capture_metadata") && Unbroken("offline_pcap_metadata")
  {
  }

  lemma SafeCapabilitiesAreUnbroken()
    ensures forall c :: c in SAFE_CAPABILITIES ==> Unbroken(c)
  {
    hide Unbroken;
    ShortCapabilitiesAreUnbroken();
    LongCapabilitiesAreUnbroken();
  }

  lemma SafeWordsAreUnbroken()
    ensures forall t :: t in SAFE_NODE_TYPES ==> Unbroken(t)
    ensures forall c :: c in SAFE_CAPABILITIES ==> Unbroken(c)
    ensures Unbroken("online") && Unbroken("low") && Unbroken("")
  {
    hide SAFE_NODE_TYPES, SAFE_CAPABILITIES;
    SafeNodeTypesAreUnbroken();
    SafeCapabilitiesAreUnbroken();
  }

  lemma GrantedAreUnbroken(items: seq<string>)
    requires CapabilitiesOf(items).Some?
    ensures forall i :: 0 <= i < |CapabilitiesOf(items).value| ==> Unbroken(CapabilitiesOf(items).value[i])
  {
    hide Unbroken, Capabilities, Normal;
    SafeWordsAreUnbroken();
    GrantedCapabilities(FirstFew(items));
  }

  /** A call's lines are whole exactly when its input is clean. */
  lemma CleanInputPrints(env: Env, r: Registry, call: Call)
    requires Printable(r) && Rejection(env, r, call).None?
    ensures var record := AgentLine(IdOf(call), RecordOf(env, r, call));
            && (Whole(record) <==> CleanInput(env, call))
            && (call.Telemeter? ==> (Whole(TelemetryLine(IdOf(call), TelemetryOf(call))) <==> CleanInput(env, call)))
  {
    hide Unbroken, Strip, CapabilitiesOf, Normal;
    SafeWordsAreUnbroken();
    if call.Register? { GrantedAreUnbroken(call.payload.capabilities); }
  }

  /** A call that storage does not fail keeps the registry recoverable if and only if it is rejected -
      and then changes nothing - or supplies no line ends. */
  lemma CallKeepsRecoverable(env: Env, r: Registry, call: Call)
    requires Recoverable(r) && Torn !in r.log && Printable(r) && Outcome(env, r, call) != Some(StorageFailed)
    ensures var r' := Perform(env, r, call);
            && (Outcome(env, r, call).Some? ==> r' == r)
            && (Recoverable(r') <==> Outcome(env, r, call).Some? || CleanInput(env, call))
            && (Recoverable(r') ==> Torn !in r'.log && Printable(r'))
            && (!Recoverable(r') ==> Torn in r'.log && r'.agents != map[])
  {
    hide RecordOf, CapabilitiesOf, NodeTypeOf, Strip, AddTelemetry, Whole, CleanInput, Folded;
    if Rejection(env, r, call).None? {
      var id, record := IdOf(call), RecordOf(env, r, call);
      var line := AgentLine(id, record);
      var r' := Perform(env, r, call);
      CleanInputPrints(env, r, call);
      assert id in r'.agents;
      if CleanInput(env, call) {
        ReplaySnoc(r, line);
        var first := r.(agents := r.agents[id := record], log := r.log + [line]);
        assert Recoverable(first);
        if call.Telemeter? {
          ReplaySnoc(first, TelemetryLine(id, TelemetryOf(call)));
          assert first.log + [TelemetryLine(id, TelemetryOf(call))] == r.log + LinesOf(env, r, call);
        }
      } else {
        assert r'.log[|r.log|] == Torn;
      }
    }
  }

  function Run(env: Env, calls: seq<Call>): Registry {
    if calls == [] then EMPTY else Perform(env, Run(env, calls[..|calls| - 1]), calls[|calls| - 1])
  }

  ghost predicate StorageHolds(env: Env, calls: seq<Call>) {
    forall i :: 0 <= i < |calls| ==> Outcome(env, Run(env, calls[..i]), calls[i]) != Some(StorageFailed)
  }

  /** No accepted call supplied a line end. */
  ghost predicate AllClean(env: Env, calls: seq<Call>) {
    forall i :: 0 <= i < |calls| ==> Rejection(env, Run(env, calls[..i]), calls[i]).Some? || CleanInput(env, calls[i])
  }

  /** What one more call makes of a registry that has already lost its log. */
  lemma LostStaysLost(env: Env, r: Registry, call: Call)
    requires Torn in r.log && r.agents != map[]
    ensures Torn in Perform(env, r, call).log && Perform(env, r, call).agents != map[]
  {
    hide RecordOf, Rejection, LinesOf;
    var r' := Perform(env, r, call);
    var i :| 0 <= i < |r.log| && r.log[i] == Torn;
    assert r'.log[i] == Torn;
    var id :| id in r.agents;
    assert id in r'.agents;
  }

  /** The conditions on a run, call by call. */
  lemma CallByCall(env: Env, calls: seq<Call>)
    requires calls != []
    ensures var init, call := calls[..|calls| - 1], calls[|calls| - 1];
            && (StorageHolds(env, calls)
                <==> StorageHolds(env, init) && Outcome(env, Run(env, init), call) != Some(StorageFailed))
            && (AllClean(env, calls) <==>
                AllClean(env, init) && (Rejection(env, Run(env, init), call).Some? || CleanInput(env, call)))
  {
    hide Run, Outcome, Rejection, CleanInput;
    var n := |calls| - 1;
    forall i | 0 <= i < n ensures calls[..n][i] == calls[i] && calls[..n][..i] == calls[..i] {}
  }

  lemma {:induction false} RunStands(env: Env, calls: seq<Call>)
    requires StorageHolds(env, calls)
    ensures var r := Run(env, calls);
            if AllClean(env, calls) then Recoverable(r) && Torn !in r.log && Printable(r)
            else Torn in r.log && r.agents != map[]
  {
    hide Perform, Recoverable, Printable, Outcome, Rejection, CleanInput, StorageHolds;
    if calls != [] {
      hide AllClean;
      var init, call := calls[..|calls| - 1], calls[|calls| - 1];
      CallByCall(env, calls);
      RunStands(env, init);
      OutcomeRejects(env, Run(env, init), call);
      if AllClean(env, init) {
        CallKeepsRecoverable(env, Run(env, init), call);
      } else {
        LostStaysLost(env, Run(env, init), call);
      }
    } else {
      EmptyStands();
    }
  }

  lemma OutcomeRejects(env: Env, r: Registry, call: Call)
    ensures Outcome(env, r, call) != Some(StorageFailed)
            ==> (Outcome(env, r, call).Some? <==> Rejection(env, r, call).Some?)
  {
  }

  lemma EmptyStands()
    ensures Recoverable(EMPTY) && Torn !in EMPTY.log && Printable(EMPTY)
  {
  }

  /** After any run of calls, accepted or rejected, reloading the log gives the live registry if and only
      if no accepted call supplied a text with one of the three line ends in it. */
  lemma ReplayEqualsLive(env: Env, calls: seq<Call>)
    requires StorageHolds(env, calls)
    ensures Replay(Run(env, calls).log) == Run(env, calls) <==> AllClean(env, calls)
  {
    hide Run, AllClean;
    RunStands(env, calls);
  }

  /** An accepted call whose record would not print as one line: a restart comes up empty. */
  lemma LineEndLosesEverything(env: Env, r: Registry, call: Call)
    requires Printable(r) && Outcome(env, r, call).None? && !CleanInput(env, call)
    ensures var r' := Perform(env, r, call);
            r'.agents != map[] && Replay(r'.log).agents == map[] && Replay(r'.log).telemetry == map[]
  {
    hide RecordOf, CapabilitiesOf, NodeTypeOf, Strip, AddTelemetry, Whole, CleanInput, Folded;
    CleanInputPrints(env, r, call);
    var r' := Perform(env, r, call);
    assert r'.log[|r.log|] == Torn && IdOf(call) in r'.agents;
  }

  /** Such a call: a first registration whose host name holds U+2028. */
  lemma OneRegistrationIsEnough(env: Env, token: string, now: string) returns (call: Call)
    requires token != "" && (env.configuredToken == "" || env.configuredToken == token)
    ensures call == Register(Registration("a", "agent", [], "\U{2028}"), token, now, 1)
    ensures Outcome(env, EMPTY, call).None? && Perform(env, EMPTY, call).agents != map[]
    ensures Replay(Perform(env, EMPTY, call).log).agents == map[]
  {
    hide Rejection, Perform, Replay, Unbroken, Whole;
    call := Register(Registration("a", "agent", [], "\U{2028}"), token, now, 1);
    PlainAgentMayRegister(env, token, now, "\U{2028}");
    BrokenIsNotClean("\U{2028}", 0);
    EmptyStands();
    LineEndLosesEverything(env, EMPTY, call);
  }

  lemma BrokenIsNotClean(text: string, i: nat)
    requires i < |text| && EndsLine(text[i])
    ensures !Unbroken(text)
  {
  }

  lemma PlainAgentMayRegister(env: Env, token: string, now: string, texts: string)
    requires token != "" && (env.configuredToken == "" || env.configuredToken == token)
    ensures Rejection(env, EMPTY, Register(Registration("a", "agent", [], texts), token, now, 1)).None?
  {
    hide SAFE_CAPABILITIES, FORBIDDEN_CAPABILITIES;
    assert Strip("a") == "a" && Strip("agent") == "agent";
    LowerKeepsLower("agent");
  }

  // ----- the telemetry window -----

  function AllTelemetry(log: seq<Line>, id: string): seq<Telemetry> {
    if log == [] then []
    else
      var before, last := AllTelemetry(log[..|log| - 1], id), log[|log| - 1];
      if last.TelemetryLine? && last.agentId == id && id != "" then before + [last.payload] else before
  }

  /** An agent's window is the last 50 of all telemetry ever logged for it. */
  lemma {:induction false} WindowIsTheLastFifty(log: seq<Line>, id: string)
    ensures Window(Folded(log).telemetry, id) == LastN(AllTelemetry(log, id), WINDOW)
  {
    if log != [] {
      hide LastN;
      var init, last := log[..|log| - 1], log[|log| - 1];
      WindowIsTheLastFifty(init, id);
      if last.TelemetryLine? && last.agentId == id { LastNAgain(AllTelemetry(init, id), [last.payload], WINDOW); }
    } else {
      assert LastN<Telemetry>([], WINDOW) == [];
    }
  }

  // ----- failing storage -----

  /** The window is full of this very telemetry. */
  predicate FullOf(window: seq<Telemetry>, t: Telemetry) {
    |window| == WINDOW && forall i :: 0 <= i < |window| ==> window[i] == t
  }

  lemma {:induction false} ShiftedIsSame(w: seq<Telemetry>, t: Telemetry, i: nat)
    requires i < |w| && w[1..] + [t] == w
    ensures w[i] == t
    decreases |w| - i
  {
    if i < |w| - 1 {
      ShiftedIsSame(w, t, i + 1);
      assert (w[1..] + [t])[i] == w[i + 1];
    } else {
      assert (w[1..] + [t])[i] == t;
    }
  }

  /** One more telemetry leaves the windows the same only if the agent's is full of it. */
  lemma SameWindow(telemetry: map<string, seq<Telemetry>>, id: string, t: Telemetry)
    ensures AddTelemetry(telemetry, id, t) == telemetry <==> FullOf(Window(telemetry, id), t)
  {
    var w := Window(telemetry, id);
    if AddTelemetry(telemetry, id, t) == telemetry {
      assert LastN(w + [t], WINDOW) == w && |w| == WINDOW;
      assert (w + [t])[1..] == w[1..] + [t];
      forall i | 0 <= i < |w| ensures w[i] == t { ShiftedIsSame(w, t, i); }
    }
    if FullOf(w, t) {
      assert (w + [t])[1..] == w;
    }
  }

  /** When storage refuses a line, memory has already changed: a restart agrees with memory exactly when
      neither the record, unless its line went through whole, nor the window has really changed. */
  lemma RefusedLineDiverges(env: Env, r: Registry, call: Call)
    requires Recoverable(r) && Torn !in r.log && Outcome(env, r, call) == Some(StorageFailed)
    ensures Rejection(env, r, call).None?
    ensures var id, record := IdOf(call), RecordOf(env, r, call);
            Recoverable(Perform(env, r, call))
            <==> && (call.Telemeter? ==> FullOf(Window(r.telemetry, id), TelemetryOf(call)))
                 && (if call.appends == 0 then id in r.agents && r.agents[id] == record
                     else Whole(AgentLine(id, record)))
  {
    hide RecordOf, CapabilitiesOf, NodeTypeOf, Strip, Folded, AddTelemetry, Whole, FullOf;
    NotRejected(env, r, call);
    var r', id, record := Perform(env, r, call), IdOf(call), RecordOf(env, r, call);
    assert id in r'.agents && r'.agents[id] == record;
    if call.Telemeter? { SameWindow(r.telemetry, id, TelemetryOf(call)); }
    if call.appends == 0 {
      assert r'.log == r.log;
      if id in r.agents && r.agents[id] == record { assert r'.agents == r.agents; }
    } else {
      assert r'.log == r.log + [AsRead(AgentLine(id, record))];
      if Whole(AgentLine(id, record)) {
        ReplaySnoc(r, AgentLine(id, record));
      } else {
        assert r'.log[|r.log|] == Torn;
      }
    }
  }

  /** Storage is not reached by a call that is rejected. */
  lemma NotRejected(env: Env, r: Registry, call: Call)
    requires Outcome(env, r, call) == Some(StorageFailed)
    ensures Rejection(env, r, call).None?
  {
  }

  /** One torn line anywhere in the log and a restart comes up empty. */
  lemma TornLineLosesEverything(before: seq<Line>, after: seq<Line>)
    ensures var r := Replay(before + [Torn] + after); r.agents == map[] && r.telemetry == map[]
  {
    assert (before + [Torn] + after)[|before|] == Torn;
  }

  /** One accepted call with such a text anywhere in a run: the live registry knows agents, a restart none. */
  lemma UncleanRunLosesEverything(env: Env, calls: seq<Call>)
    requires StorageHolds(env, calls) && !AllClean(env, calls)
    ensures var r := Run(env, calls);
            r.agents != map[] && Replay(r.log).agents == map[] && Replay(r.log).telemetry == map[]
  {
    hide Run, AllClean, StorageHolds, Replay;
    RunStands(env, calls);
    var log := Run(env, calls).log;
    var i :| 0 <= i < |log| && log[i] == Torn;
    assert log == log[..i] + [Torn] + log[i + 1..];
    TornLineLosesEverything(log[..i], log[i + 1..]);
  }

  // ----- the object -----

  class AgentStore {
    const env: Env
    var agents: map<string, Agent>
    var telemetry: map<string, seq<Telemetry>>
    var log: seq<Line>

    function View(): Registry
      reads this
    {
      Registry(agents, telemetry, log)
    }

    /** A registry over an existing log. */
    constructor Load(env: Env, log: seq<Line>)
      ensures this.env == env && View() == Replay(log)
    {
      hide Folded, AddTelemetry;
      FoldNone();
      this.env, this.log := env, log;
      var live, windows: map<string, seq<Telemetry>> := map[], map[];
      var i, torn := 0, false;
      while i < |log| && !torn
        invariant i <= |log| && (torn ==> Torn in log) && (!torn ==> Torn !in log[..i])
        invariant !torn ==> Folded(log[..i]) == Registry(live, windows, [])
      {
        assert log[..i + 1] == log[..i] + [log[i]];
        FoldSnoc(log[..i], log[i]);
        match log[i] {
          case AgentLine(id, record) => if id != "" { live := live[id := record]; }
          case TelemetryLine(id, payload) => if id != "" { windows := AddTelemetry(windows, id, payload); }
          case Torn => torn := true;
        }
        i := i + 1;
      }
      assert !torn ==> log[..i] == log;
      agents, telemetry := if torn then map[] else live, if torn then map[] else windows;
    }

    /** Appends what storage takes of the lines. */
    method Append(lines: seq<Line>, appends: nat) returns (ok: bool)
      modifies this`log
      ensures ok == (appends >= |lines|)
      ensures log == old(log) + if appends < |lines| then lines[..appends] else lines
    {
      ok := true;
      var i := 0;
      while i < |lines|
        invariant i <= |lines| && i <= appends && log == old(log) + lines[..i]
      {
        if i == appends { return false; }
        log := log + [lines[i]];
        assert lines[..i + 1] == lines[..i] + [lines[i]];
        i := i + 1;
      }
      assert lines[..i] == lines;
    }

    method RegisterAgent(payload: Registration, token: string, now: string, appends: nat)
      returns (failure: Option<Failure>)
      modifies this`agents, this`log
      ensures var call := Register(payload, token, now, appends);
              View() == Perform(env, old(View()), call) && failure == Outcome(env, old(View()), call)
    {
      hide Normal, Strip, Lower, Forbids;
      var agentId := Strip(payload.agentId);
      if agentId == "" { return Some(AgentIdRequired); }
      if token == "" { return Some(TokenRequired); }
      if env.configuredToken != "" && env.configuredToken != token { return Some(InvalidToken); }
      var nodeType := NodeTypeOf(payload.nodeType);
      if nodeType.None? { return Some(UnsafeNodeType); }
      var capabilities := NormalizeCapabilities(payload.capabilities);
      if capabilities.None? { return Some(ForbiddenCapability); }
      var known := agentId in agents;
      var record := Agent(agentId, nodeType.value, capabilities.value, payload.texts, env.digest(token), "online",
                          if known then OrElse(agents[agentId].registeredAt, now) else now, now,
                          if known then agents[agentId].lastTelemetry else None,
                          if known then agents[agentId].risk else Risk(0, "low"));
      agents := agents[agentId := record];
      var ok := Append([AsRead(AgentLine(agentId, record))], appends);
      failure := if ok then None else Some(StorageFailed);
    }

    method RecordHeartbeat(agentId: string, status: string, now: string, appends: nat)
      returns (failure: Option<Failure>)
      modifies this`agents, this`log
      ensures var call := Heartbeat(agentId, status, now, appends);
              View() == Perform(env, old(View()), call) && failure == Outcome(env, old(View()), call)
    {
      if agentId !in agents { return Some(UnknownAgent); }
      var record := agents[agentId].(lastSeen := now, status := OrElse(status, "online"));
      agents := agents[agentId := record];
      var ok := Append([AsRead(AgentLine(agentId, record))], appends);
      failure := if ok then None else Some(StorageFailed);
    }

    method RecordTelemetry(agentId: string, body: string, risk: Risk, now: string, appends: nat)
      returns (failure: Option<Failure>)
      modifies this`agents, this`telemetry, this`log
      ensures var call := Telemeter(agentId, body, risk, now, appends);
              View() == Perform(env, old(View()), call) && failure == Outcome(env, old(View()), call)
    {
      hide LastN;
      if agentId !in agents { return Some(UnknownAgent); }
      var cleaned := Telemetry(agentId, now, body, risk);
      telemetry := telemetry[agentId := LastN((if agentId in telemetry then telemetry[agentId] else []) + [cleaned],
                                              WINDOW)];
      var record := agents[agentId].(lastSeen := now, lastTelemetry := Some(cleaned), risk := risk);
      agents := agents[agentId := record];
      var ok := Append([AsRead(AgentLine(agentId, record)), AsRead(TelemetryLine(agentId, cleaned))], appends);
      failure := if ok then None else Some(StorageFailed);
    }
  }
}
