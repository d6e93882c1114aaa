/** The dispatch key read off a packet's own fields. */
module DispatchKeyLaws {
  import opened Text
  import opened TextLaws
  import opened Values
  import opened DispatchKey

  /** A text that stripping leaves alone and that a key can hold. */
  predicate Plain(s: string) { s != "" && NoOuterSpace(s) && '|' !in s }

  /** The value stands in the first field or, that one being empty, in the fallback. */
  predicate Given(first: string, second: string, value: string) { first == value || (first == "" && second == value) }

  predicate GivenPort(first: Option<PortValue>, second: Option<PortValue>, n: int) {
    first == Some(Number(n)) || (first == None && second == Some(Number(n)))
  }

  predicate Carries(p: Packet, proto: string, src: string, dst: string) {
    && Given(p.src, p.srcIp, src) && Given(p.dst, p.dstIp, dst)
    && (p.proto == proto || (p.proto == "" && Given(p.transport, p.protocol, proto)))
    && Plain(src) && Plain(dst) && Plain(proto) && UpperCase(proto)
  }

  predicate CarriesPorts(p: Packet, sport: int, dport: int) {
    && GivenPort(p.sport, p.srcPort, sport) && GivenPort(p.dport, p.dstPort, dport)
    && 0 <= sport <= 65535 && 0 <= dport <= 65535
  }

  lemma FieldsAreRead(p: Packet, proto: string, src: string, dst: string)
    requires Carries(p, proto, src, dst)
    ensures Protocol(p) == proto && Source(p).address == src && Destination(p).address == dst
    ensures NoBar(p) && FromPacket(p).complete
    ensures forall sport, dport :: CarriesPorts(p, sport, dport) ==>
              Source(p).port == sport && Destination(p).port == dport
  {
    StrippedStays(src);
    StrippedStays(dst);
    StrippedStays(proto);
    UpperCaseStays(proto);
  }

  /** The key of a TCP or UDP packet, spelled out: the smaller endpoint first. */
  lemma PortKeyIsSpelled(p: Packet, proto: string, src: string, sport: int, dst: string, dport: int)
    requires Carries(p, proto, src, dst) && CarriesPorts(p, sport, dport) && proto in {"TCP", "UDP"}
    ensures var forwards := if src == dst then sport <= dport else SortsBefore(src, dst);
            var left, right := src + ":" + Digits(sport), dst + ":" + Digits(dport);
            FromPacket(p).value == proto + "|" + (if forwards then left + "|" + right else right + "|" + left)
  {
    hide Carries, CarriesPorts, Source, Destination, Protocol;
    FieldsAreRead(p, proto, src, dst);
    StringLeqIsCodePointOrder(src, dst);
    var left, right := src + ":" + Digits(sport), dst + ":" + Digits(dport);
    assert proto + "|" + left + "|" + right == proto + "|" + (left + "|" + right);
    assert proto + "|" + right + "|" + left == proto + "|" + (right + "|" + left);
  }

  /** TCP and UDP packets share a key exactly when protocol and unordered pair of address and port agree. */
  lemma PortKeysAgreeIff(p: Packet, proto: string, src: string, sport: int, dst: string, dport: int,
                         q: Packet, proto': string, src': string, sport': int, dst': string, dport': int)
    requires Carries(p, proto, src, dst) && CarriesPorts(p, sport, dport) && proto in {"TCP", "UDP"}
    requires Carries(q, proto', src', dst') && CarriesPorts(q, sport', dport') && proto' in {"TCP", "UDP"}
    ensures FromPacket(p) == FromPacket(q) <==>
            proto == proto' && (((src, sport) == (src', sport') && (dst, dport) == (dst', dport'))
                                || ((src, sport) == (dst', dport') && (dst, dport) == (src', sport')))
  {
    hide Carries, CarriesPorts, FromPacket, Source, Destination, Protocol, NoBar;
    FieldsAreRead(p, proto, src, dst);
    FieldsAreRead(q, proto', src', dst');
    KeyIsCanonical(p, q);
  }

  /** Under any other protocol the ports play no part. */
  lemma PortlessKeysAgreeIff(p: Packet, proto: string, src: string, dst: string,
                             q: Packet, proto': string, src': string, dst': string)
    requires Carries(p, proto, src, dst) && proto !in {"TCP", "UDP"}
    requires Carries(q, proto', src', dst') && proto' !in {"TCP", "UDP"}
    ensures FromPacket(p) == FromPacket(q) <==>
            proto == proto' && ((src == src' && dst == dst') || (src == dst' && dst == src'))
  {
    hide Carries, CarriesPorts, FromPacket, Source, Destination, Protocol, NoBar;
    FieldsAreRead(p, proto, src, dst);
    FieldsAreRead(q, proto', src', dst');
    KeyIsCanonical(p, q);
  }

  /** A port that is missing, falsy, unreadable or out of range counts as 0, in either field. */
  lemma UnusablePortIsZero(p: Packet, bad: PortValue)
    requires bad.Number? ==> bad.n < 0 || bad.n > 65535
    ensures FromPacket(p.(sport := Some(bad))) == FromPacket(p.(sport := Some(Number(0))))
    ensures FromPacket(p.(dport := Some(bad))) == FromPacket(p.(dport := Some(Number(0))))
    ensures FromPacket(p.(sport := None, srcPort := Some(bad))) == FromPacket(p.(sport := Some(Number(0))))
    ensures FromPacket(p.(dport := None, dstPort := Some(bad))) == FromPacket(p.(dport := Some(Number(0))))
    ensures FromPacket(p.(sport := None, srcPort := None)) == FromPacket(p.(sport := Some(Number(0))))
    ensures FromPacket(p.(dport := None, dstPort := None)) == FromPacket(p.(dport := Some(Number(0))))
  {
    assert SafePort(bad) == SafePort(Falsy) == SafePort(Number(0)) == 0;
    hide SafePort, FromPacket;
    SameReadingSameKey(p.(sport := Some(bad)), p.(sport := Some(Number(0))));
    SameReadingSameKey(p.(dport := Some(bad)), p.(dport := Some(Number(0))));
    SameReadingSameKey(p.(sport := None, srcPort := Some(bad)), p.(sport := Some(Number(0))));
    SameReadingSameKey(p.(dport := None, dstPort := Some(bad)), p.(dport := Some(Number(0))));
    SameReadingSameKey(p.(sport := None, srcPort := None), p.(sport := Some(Number(0))));
    SameReadingSameKey(p.(dport := None, dstPort := None), p.(dport := Some(Number(0))));
  }

  lemma SameReadingSameKey(p: Packet, q: Packet)
    requires Source(p) == Source(q) && Destination(p) == Destination(q) && Protocol(p) == Protocol(q)
    ensures FromPacket(p) == FromPacket(q)
  {
  }

  /** Fallback fields count where the first field is empty or missing, and only there. */
  lemma FallbackAddressesStandIn(p: Packet, text: string)
    ensures FromPacket(p.(src := "", srcIp := text)) == FromPacket(p.(src := text, srcIp := text))
    ensures FromPacket(p.(dst := "", dstIp := text)) == FromPacket(p.(dst := text, dstIp := text))
    ensures p.src != "" ==> FromPacket(p.(srcIp := text)) == FromPacket(p)
    ensures p.dst != "" ==> FromPacket(p.(dstIp := text)) == FromPacket(p)
  {
    hide FromPacket;
    SameReadingSameKey(p.(src := "", srcIp := text), p.(src := text, srcIp := text));
    SameReadingSameKey(p.(dst := "", dstIp := text), p.(dst := text, dstIp := text));
    if p.src != "" { SameReadingSameKey(p.(srcIp := text), p); }
    if p.dst != "" { SameReadingSameKey(p.(dstIp := text), p); }
  }

  lemma FallbackPortsStandIn(p: Packet, port: Option<PortValue>)
    ensures FromPacket(p.(sport := None, srcPort := port)) == FromPacket(p.(sport := port, srcPort := None))
    ensures FromPacket(p.(dport := None, dstPort := port)) == FromPacket(p.(dport := port, dstPort := None))
    ensures p.sport.Some? ==> FromPacket(p.(srcPort := port)) == FromPacket(p)
    ensures p.dport.Some? ==> FromPacket(p.(dstPort := port)) == FromPacket(p)
  {
    hide FromPacket;
    SameReadingSameKey(p.(sport := None, srcPort := port), p.(sport := port, srcPort := None));
    SameReadingSameKey(p.(dport := None, dstPort := port), p.(dport := port, dstPort := None));
    if p.sport.Some? { SameReadingSameKey(p.(srcPort := port), p); }
    if p.dport.Some? { SameReadingSameKey(p.(dstPort := port), p); }
  }

  lemma FallbackProtocolsStandIn(p: Packet, text: string, other: string)
    ensures FromPacket(p.(proto := "", transport := text)) == FromPacket(p.(proto := text, transport := text))
    ensures FromPacket(p.(proto := "", transport := "", protocol := text))
            == FromPacket(p.(proto := text, transport := "", protocol := text))
    ensures p.proto != "" ==> FromPacket(p.(transport := text, protocol := other)) == FromPacket(p)
    ensures p.proto == "" && p.transport != "" ==> FromPacket(p.(protocol := other)) == FromPacket(p)
  {
    hide FromPacket;
    SameReadingSameKey(p.(proto := "", transport := text), p.(proto := text, transport := text));
    SameReadingSameKey(p.(proto := "", transport := "", protocol := text),
                       p.(proto := text, transport := "", protocol := text));
    if p.proto != "" { SameReadingSameKey(p.(transport := text, protocol := other), p); }
    if p.proto == "" && p.transport != "" { SameReadingSameKey(p.(protocol := other), p); }
  }

  /** White space around a field and the case of the protocol do not matter. */
  lemma SpaceAndCaseDoNotMatter(p: Packet, a: string, b: string)
    requires a != "" && b != ""
    ensures Strip(a) == Strip(b) ==> FromPacket(p.(src := a)) == FromPacket(p.(src := b))
    ensures Strip(a) == Strip(b) ==> FromPacket(p.(dst := a)) == FromPacket(p.(dst := b))
    ensures Upper(Strip(a)) == Upper(Strip(b)) ==> FromPacket(p.(proto := a)) == FromPacket(p.(proto := b))
  {
    hide FromPacket;
    if Strip(a) == Strip(b) {
      SameReadingSameKey(p.(src := a), p.(src := b));
      SameReadingSameKey(p.(dst := a), p.(dst := b));
    }
    if Upper(Strip(a)) == Upper(Strip(b)) { SameReadingSameKey(p.(proto := a), p.(proto := b)); }
  }

  lemma ReadingOfPartial(q: Packet, proto: string, src: string, sport: nat, dport: nat)
    requires Source(q) == Endpoint(src, sport) && Destination(q) == Endpoint("", dport) && Protocol(q) == proto
    requires proto != "" && src !in {"", "-", "0", "OTHER"}
    ensures FromPacket(q)
            == Key("partial|" + proto + "|" + src + "|" + Digits(sport) + "|" + "-" + "|" + Digits(dport), false)
  {
    hide Source, Destination, Protocol;
  }

  /** Without a destination the key is partial and lists what there is, a dash for what there is not. */
  lemma PartialKeyIsSpelled(p: Packet, proto: string, src: string, sport: int, dport: int)
    requires Plain(src) && Plain(proto) && UpperCase(proto) && 0 <= sport <= 65535 && 0 <= dport <= 65535
    requires src !in {"-", "0", "OTHER"}
    ensures var q := p.(proto := proto, src := src, dst := "", dstIp := "",
                        sport := Some(Number(sport)), dport := Some(Number(dport)));
            FromPacket(q)
            == Key("partial|" + proto + "|" + src + "|" + Digits(sport) + "|" + "-" + "|" + Digits(dport), false)
  {
    hide FromPacket;
    StrippedStays(src);
    StrippedStays(proto);
    UpperCaseStays(proto);
    ReadingOfPartial(p.(proto := proto, src := src, dst := "", dstIp := "",
                        sport := Some(Number(sport)), dport := Some(Number(dport))), proto, src, sport, dport);
  }

  predicate Placeholder(s: string) { s == "" || s == "-" || s == "0" || s == "OTHER" }

  /** An incomplete packet has a key of its own exactly when some part of it is more than a placeholder. */
  lemma UnknownAreTheEmpty(p: Packet)
    requires !FromPacket(p).complete
    ensures FromPacket(p).value == "unknown-flow"
            <==> && Placeholder(Protocol(p)) && Placeholder(Source(p).address) && Placeholder(Destination(p).address)
                 && Source(p).port == 0 && Destination(p).port == 0
  {
    hide Source, Destination, Protocol;
    assert FromPacket(p).value == "unknown-flow" || FromPacket(p).value[0] == 'p';
  }

  /** A packet that says nothing has no key of its own. */
  lemma EmptyPacketIsUnknown(p: Packet)
    requires p.proto == p.transport == p.protocol == p.src == p.srcIp == p.dst == p.dstIp == ""
    requires p.sport == p.srcPort == p.dport == p.dstPort == None
    ensures FromPacket(p) == Key("unknown-flow", false)
  {
    StrippedStays("");
  }
}
