/** Who is let into the registry, and what each call leaves there, field by field. */
module AgentRegistryLaws {
  import opened Sequences
  import opened Text
  import opened Values
  import opened AgentRegistry

  /** Lower case, without white space at the ends. */
  function Tidied(text: string): string { Lower(Strip(text)) }

  predicate KindIsSafe(nodeType: string) {
    nodeType == "" || Tidied(nodeType) == "server" || Tidied(nodeType) == "sensor" || Tidied(nodeType) == "agent"
  }

  predicate Forbidden(capability: string) {
    Tidied(capability) in {"remote_shell", "command_execution", "command_control", "file_collection",
                           "raw_payload_forwarding", "raw_packet_forwarding", "raw_pcap_forwarding", "raw_payload",
                           "raw_packet", "raw_pcap", "credential_access", "tls_decryption", "mitm"}
  }

  predicate Granted(capability: string) {
    capability in {"telemetry", "health", "capture_status", "alerts_summary", "flows_summary",
                   "redacted_flow_metadata", "redacted_service_metadata", "local_capture_metadata",
                   "offline_pcap_metadata", "demo"}
  }

  /** A text breaks its line exactly at the code points 0085, 2028 and 2029, in hexadecimal. */
  lemma LineEndsAre(text: string)
    ensures Unbroken(text) <==> forall i :: 0 <= i < |text| ==> text[i] as int !in {0x85, 0x2028, 0x2029}
  {
  }

  /** A configured token admits itself alone. */
  lemma WrongTokenIsRefused(env: Env, r: Registry, payload: Registration, token: string, now: string, appends: nat)
    requires env.configuredToken != "" && token != env.configuredToken
    ensures var call := Register(payload, token, now, appends);
            && Perform(env, r, call) == r && Outcome(env, r, call).Some? && Outcome(env, r, call) != Some(StorageFailed)
            && (Strip(payload.agentId) != "" && token != "" ==> Outcome(env, r, call) == Some(InvalidToken))
            && (Strip(payload.agentId) != "" && token == "" ==> Outcome(env, r, call) == Some(TokenRequired))
  {
    hide NodeTypeOf, CapabilitiesOf, Strip;
  }

  lemma NodeTypesAre(nodeType: string)
    ensures NodeTypeOf(nodeType).Some? <==> KindIsSafe(nodeType)
    ensures NodeTypeOf(nodeType).Some? ==>
              NodeTypeOf(nodeType).value == if nodeType == "" then "agent" else Tidied(nodeType)
  {
    assert Strip("agent") == "agent";
    LowerKeepsLower("agent");
    hide Lower, Strip;
  }

  lemma ForbiddenAre(items: seq<string>)
    ensures Forbids(items) <==> exists i :: 0 <= i < |items| && Forbidden(items[i])
  {
    hide Lower, Strip;
    assert forall text :: Forbidden(text) <==> Normal(text) != "" && Normal(text) in FORBIDDEN_CAPABILITIES;
  }

  /** A registration goes through exactly with an id, a token that is the configured one if there is one, a safe
      node type, and no forbidden capability among the first 64. */
  lemma RegistrationIsAcceptedIff(env: Env, r: Registry, payload: Registration, token: string, now: string,
                                  appends: nat)
    ensures var asked := payload.capabilities;
            Rejection(env, r, Register(payload, token, now, appends)) == None
            <==> && Strip(payload.agentId) != "" && token != ""
                 && (env.configuredToken == "" || token == env.configuredToken)
                 && KindIsSafe(payload.nodeType)
                 && forall i :: 0 <= i < |asked| && i < 64 ==> !Forbidden(asked[i])
  {
    hide Forbids, NodeTypeOf, KindIsSafe, Forbidden, Strip;
    NodeTypesAre(payload.nodeType);
    ForbiddenAre(FirstFew(payload.capabilities));
  }

  /** An accepted registration: what it sets, what it keeps of an earlier one - above all the time of the first - and
      that it touches no other agent and no telemetry. */
  lemma RegistrationLeaves(env: Env, r: Registry, payload: Registration, token: string, now: string, appends: nat)
    requires Rejection(env, r, Register(payload, token, now, appends)) == None
    ensures var id, r' := Strip(payload.agentId), Perform(env, r, Register(payload, token, now, appends));
            && r'.agents.Keys == r.agents.Keys + {id} && r'.telemetry == r.telemetry
            && (forall other :: other in r.agents && other != id ==> r'.agents[other] == r.agents[other])
            && var a := r'.agents[id];
               && a.agentId == id && a.texts == payload.texts && a.tokenHash == env.digest(token)
               && a.status == "online" && a.lastSeen == now
               && a.nodeType == (if payload.nodeType == "" then "agent" else Tidied(payload.nodeType))
               && (if id in r.agents
                   then && a.registeredAt
                     == (if r.agents[id].registeredAt == "" then now else r.agents[id].registeredAt)
                        && a.lastTelemetry == r.agents[id].lastTelemetry && a.risk == r.agents[id].risk
                   else a.registeredAt == now && a.lastTelemetry == None && a.risk == Risk(0, "low"))
  {
    hide NodeTypeOf, CapabilitiesOf, Strip, AsRead;
    NodeTypesAre(payload.nodeType);
  }

  /** Its capabilities are the grantable ones among the first 64 asked for. */
  lemma RegistrationGrants(env: Env, r: Registry, payload: Registration, token: string, now: string, appends: nat,
                           capability: string)
    requires Rejection(env, r, Register(payload, token, now, appends)) == None
    ensures var id, r' := Strip(payload.agentId), Perform(env, r, Register(payload, token, now, appends));
            && id in r'.agents
            && (capability in r'.agents[id].capabilities
                <==> Granted(capability) && exists i :: 0 <= i < |payload.capabilities| && i < 64
                                                        && Tidied(payload.capabilities[i]) == capability)
  {
    hide NodeTypeOf, Strip, AsRead, Lower;
    assert Granted(capability) <==> capability in SAFE_CAPABILITIES;
    hide SAFE_CAPABILITIES;
    var few := FirstFew(payload.capabilities);
    GrantedCapabilities(few);
    if i :| 0 <= i < |payload.capabilities| && i < 64 && Tidied(payload.capabilities[i]) == capability {
      assert Normal(few[i]) == capability;
    }
    if i :| 0 <= i < |few| && Normal(few[i]) == capability { assert Tidied(payload.capabilities[i]) == capability; }
  }

  /** A heartbeat of a known agent changes when it was last seen and its status; of an unknown one, nothing. */
  lemma HeartbeatLeaves(env: Env, r: Registry, id: string, status: string, now: string, appends: nat)
    ensures var call := Heartbeat(id, status, now, appends);
            if id in r.agents
            then && Perform(env, r, call).telemetry == r.telemetry
                 && Perform(env, r, call).agents
                    == r.agents[id := r.agents[id].(lastSeen := now,
                                                    status := if status == "" then "online" else status)]
            else Perform(env, r, call) == r && Outcome(env, r, call) == Some(UnknownAgent)
  {
    hide AsRead;
  }

  /** Telemetry of a known agent becomes its newest of at most fifty, and its record's; of an unknown one, nothing. */
  lemma TelemetryLeaves(env: Env, r: Registry, id: string, body: string, risk: Risk, now: string, appends: nat)
    ensures var call, t := Telemeter(id, body, risk, now, appends), Telemetry(id, now, body, risk);
            var before := if id in r.telemetry then r.telemetry[id] else [];
            if id in r.agents
            then && Perform(env, r, call).agents
                    == r.agents[id := r.agents[id].(lastSeen := now, lastTelemetry := Some(t), risk := risk)]
                 && Perform(env, r, call).telemetry
                    == r.telemetry[id := if |before| < 50 then before + [t] else before[|before| - 49..] + [t]]
            else Perform(env, r, call) == r && Outcome(env, r, call) == Some(UnknownAgent)
  {
    hide AsRead;
    var before := if id in r.telemetry then r.telemetry[id] else [];
    var t := Telemetry(id, now, body, risk);
    if |before| >= 50 { assert (before + [t])[|before| + 1 - 50..] == before[|before| - 49..] + [t]; }
  }
}
