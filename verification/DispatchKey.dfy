/** `FlowDispatchKey.from_packet` of backend/app/services/flow_worker_pool.py:
    the string a packet's lane is chosen by. */
module DispatchKey {
  import opened Text
  import opened Values

  /** A port field: a falsy value, a number, or something `int` refuses. */
  datatype PortValue = Falsy | Number(n: int) | Unreadable

  datatype Packet = Packet(src: string, srcIp: string, dst: string, dstIp: string,
                           proto: string, transport: string, protocol: string,
                           sport: Option<PortValue>, srcPort: Option<PortValue>,
                           dport: Option<PortValue>, dstPort: Option<PortValue>)

  datatype Key = Key(value: string, complete: bool)

  datatype Endpoint = Endpoint(address: string, port: nat)

  /** packet.get(first, packet.get(second)) */
  function Field(first: Option<PortValue>, second: Option<PortValue>): PortValue {
    if first.Some? then first.value else if second.Some? then second.value else Falsy
  }

  function SafePort(value: PortValue): (port: nat)
    ensures port <= 65535
  {
    if value.Number? && 0 <= value.n <= 65535 then value.n else 0
  }

  function Source(p: Packet): Endpoint {
    Endpoint(Strip(OrElse(p.src, p.srcIp)), SafePort(Field(p.sport, p.srcPort)))
  }

  function Destination(p: Packet): Endpoint {
    Endpoint(Strip(OrElse(p.dst, p.dstIp)), SafePort(Field(p.dport, p.dstPort)))
  }

  function Protocol(p: Packet): string { Upper(Strip(OrElse(p.proto, OrElse(p.transport, p.protocol)))) }

  predicate HasPorts(protocol: string) { protocol == "TCP" || protocol == "UDP" }

  predicate EndpointLeq(a: Endpoint, b: Endpoint) {
    if a.address == b.address then a.port <= b.port else StringLeq(a.address, b.address)
  }

  function PrintEndpoint(protocol: string, e: Endpoint): string {
    if HasPorts(protocol) then e.address + ":" + Digits(e.port) else e.address
  }

  function CompleteKey(protocol: string, a: Endpoint, b: Endpoint): string {
    protocol + "|" + PrintEndpoint(protocol, a) + "|" + PrintEndpoint(protocol, b)
  }

  function FromPacket(p: Packet): Key {
    var src, dst, protocol := Source(p), Destination(p), Protocol(p);
    if src.address != "" && dst.address != "" && protocol != "" then
      if HasPorts(protocol) then
        if EndpointLeq(src, dst) then Key(CompleteKey(protocol, src, dst), true)
        else Key(CompleteKey(protocol, dst, src), true)
      else
        if StringLeq(src.address, dst.address) then Key(CompleteKey(protocol, src, dst), true)
        else Key(CompleteKey(protocol, dst, src), true)
    else if (protocol != "" && protocol != "OTHER" && protocol != "-" && protocol != "0")
         || (src.address != "" && src.address != "-" && src.address != "0" && src.address != "OTHER")
         || src.port != 0
         || (dst.address != "" && dst.address != "-" && dst.address != "0" && dst.address != "OTHER")
         || dst.port != 0 then
      Key("partial|" + OrElse(protocol, "OTHER") + "|" + OrElse(src.address, "-") + "|" + Digits(src.port)
          + "|" + OrElse(dst.address, "-") + "|" + Digits(dst.port), false)
    else Key("unknown-flow", false)
  }

  // ----- canonicity -----

  /** What an endpoint contributes to the identity of a flow. */
  function Identity(protocol: string, e: Endpoint): Endpoint {
    if HasPorts(protocol) then e else e.(port := 0)
  }

  /** The same protocol and the same unordered pair of endpoints. */
  predicate SameFlow(p: Packet, q: Packet) {
    var protocol := Protocol(p);
    var a, b := Identity(protocol, Source(p)), Identity(protocol, Destination(p));
    var x, y := Identity(protocol, Source(q)), Identity(protocol, Destination(q));
    Protocol(q) == protocol && ((a == x && b == y) || (a == y && b == x))
  }

  predicate NoBar(p: Packet) {
    '|' !in Source(p).address && '|' !in Destination(p).address && '|' !in Protocol(p)
  }

  lemma PrintedEndpointHasNoBar(protocol: string, e: Endpoint)
    requires '|' !in e.address
    ensures '|' !in PrintEndpoint(protocol, e)
  {
    DigitsAreDigits(e.port);
  }

  lemma PrintEndpointInjective(protocol: string, a: Endpoint, b: Endpoint)
    requires PrintEndpoint(protocol, a) == PrintEndpoint(protocol, b)
    ensures Identity(protocol, a) == Identity(protocol, b)
  {
    if HasPorts(protocol) {
      DigitsAreDigits(a.port);
      DigitsAreDigits(b.port);
      assert PrintEndpoint(protocol, a) == a.address + [':'] + Digits(a.port);
      assert PrintEndpoint(protocol, b) == b.address + [':'] + Digits(b.port);
      CutLast(a.address, Digits(a.port), b.address, Digits(b.port), ':');
      DigitsInjective(a.port, b.port);
    }
  }

  lemma CompleteKeyInjective(p: string, a: Endpoint, b: Endpoint, q: string, x: Endpoint, y: Endpoint)
    requires CompleteKey(p, a, b) == CompleteKey(q, x, y)
    requires '|' !in p && '|' !in q && '|' !in a.address && '|' !in x.address
    ensures p == q && Identity(p, a) == Identity(p, x) && Identity(p, b) == Identity(p, y)
  {
    var left, right := PrintEndpoint(p, a), PrintEndpoint(p, b);
    var left', right' := PrintEndpoint(q, x), PrintEndpoint(q, y);
    assert CompleteKey(p, a, b) == p + ['|'] + (left + ['|'] + right);
    assert CompleteKey(q, x, y) == q + ['|'] + (left' + ['|'] + right');
    CutFirst(p, left + ['|'] + right, q, left' + ['|'] + right', '|');
    PrintedEndpointHasNoBar(p, a);
    PrintedEndpointHasNoBar(q, x);
    CutFirst(left, right, left', right', '|');
    PrintEndpointInjective(p, a, x);
    PrintEndpointInjective(p, b, y);
  }

  /** The endpoints of a packet in the order the key prints them. */
  function Sorted(p: Packet): (Endpoint, Endpoint) {
    var src, dst := Source(p), Destination(p);
    if if HasPorts(Protocol(p)) then EndpointLeq(src, dst) else StringLeq(src.address, dst.address)
    then (src, dst) else (dst, src)
  }

  lemma SortedIsCanonical(p: Packet, q: Packet)
    requires SameFlow(p, q)
    ensures Identity(Protocol(p), Sorted(p).0) == Identity(Protocol(p), Sorted(q).0)
    ensures Identity(Protocol(p), Sorted(p).1) == Identity(Protocol(p), Sorted(q).1)
  {
    var a, b := Source(p).address, Destination(p).address;
    StringLeqTotal(a, b);
    if StringLeq(a, b) && StringLeq(b, a) { StringLeqAntisymmetric(a, b); }
  }

  /** Two complete packets get the same key exactly when they belong to the same flow. */
  lemma KeyIsCanonical(p: Packet, q: Packet)
    requires FromPacket(p).complete && FromPacket(q).complete
    requires NoBar(p) && NoBar(q)
    ensures FromPacket(p) == FromPacket(q) <==> SameFlow(p, q)
  {
    assert FromPacket(p).value == CompleteKey(Protocol(p), Sorted(p).0, Sorted(p).1);
    assert FromPacket(q).value == CompleteKey(Protocol(q), Sorted(q).0, Sorted(q).1);
    if FromPacket(p) == FromPacket(q) {
      CompleteKeyInjective(Protocol(p), Sorted(p).0, Sorted(p).1, Protocol(q), Sorted(q).0, Sorted(q).1);
    }
    if SameFlow(p, q) { SortedIsCanonical(p, q); }
  }

  function Reply(p: Packet): Packet {
    p.(src := p.dst, srcIp := p.dstIp, sport := p.dport, srcPort := p.dstPort,
       dst := p.src, dstIp := p.srcIp, dport := p.sport, dstPort := p.srcPort)
  }

  /** A complete packet and its reply share a key, hence a lane, whatever the addresses contain. */
  lemma ReplySharesKey(p: Packet)
    requires FromPacket(p).complete
    ensures FromPacket(Reply(p)) == FromPacket(p)
  {
    assert Source(Reply(p)) == Destination(p) && Destination(Reply(p)) == Source(p)
           && Protocol(Reply(p)) == Protocol(p);
    var a, b := Source(p).address, Destination(p).address;
    StringLeqTotal(a, b);
    if StringLeq(a, b) && StringLeq(b, a) { StringLeqAntisymmetric(a, b); }
  }

  /** The fallback keys of incomplete packets never collide with a complete one. */
  lemma CompletenessShowsInKey(p: Packet, q: Packet)
    requires FromPacket(p).complete && !FromPacket(q).complete
    ensures FromPacket(p).value != FromPacket(q).value
  {
    assert FromPacket(p).value[0] == Protocol(p)[0];
    assert FromPacket(q).value[0] == 'p' || FromPacket(q).value[0] == 'u';
  }
}
