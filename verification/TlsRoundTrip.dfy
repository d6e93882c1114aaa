/** A ClientHello writer after section 4.1.2 of RFC 8446 (server_name after section 3
    of RFC 6066, ALPN after section 3.1 of RFC 7301), and: the parser inverts it. */
module TlsRoundTrip {
  import opened Bytes
  import opened TlsClientHello
  import opened Values

  datatype Name = Name(kind: Byte, text: seq<Byte>)

  datatype Extension =
    | ServerName(names: seq<Name>)
    | Alpn(protocols: seq<seq<Byte>>)
    | SupportedGroups(groups: seq<U16>)
    | PointFormats(formats: seq<Byte>)
    | SupportedVersions(versions: seq<U16>)
    | Other(kind: U16, data: seq<Byte>)

  datatype Hello = Hello(recordVer: U16, clientVer: U16, random: seq<Byte>, session: seq<Byte>, ciphers: seq<U16>,
                         compression: seq<Byte>, extensions: seq<Extension>)

  // ----- writing -----

  function Kind(e: Extension): U16 {
    match e
    case ServerName(_) => 0
    case Alpn(_) => 16
    case SupportedGroups(_) => 10
    case PointFormats(_) => 11
    case SupportedVersions(_) => 43
    case Other(kind, _) => kind
  }

  ghost predicate NamesFit(names: seq<Name>) { forall i :: 0 <= i < |names| ==> |names[i].text| < 65536 }

  function WriteNames(names: seq<Name>): seq<Byte>
    requires NamesFit(names)
  {
    if names == [] then []
    else [names[0].kind] + WriteU16(|names[0].text|) + names[0].text + WriteNames(names[1..])
  }

  ghost predicate ProtocolsFit(protocols: seq<seq<Byte>>) { forall i :: 0 <= i < |protocols| ==> |protocols[i]| < 256 }

  function WriteProtocols(protocols: seq<seq<Byte>>): seq<Byte>
    requires ProtocolsFit(protocols)
  {
    if protocols == [] then [] else [|protocols[0]|] + protocols[0] + WriteProtocols(protocols[1..])
  }

  /** Every length fits its length field. */
  ghost predicate Fits(e: Extension) {
    match e
    case ServerName(names) => NamesFit(names) && |WriteNames(names)| < 65534
    case Alpn(protocols) => ProtocolsFit(protocols) && |WriteProtocols(protocols)| < 65534
    case SupportedGroups(groups) => 2 * |groups| < 65534
    case PointFormats(formats) => |formats| < 256
    case SupportedVersions(versions) => 2 * |versions| < 256
    case Other(kind, data) => kind !in {0, 10, 11, 16, 43} && |data| < 65536
  }

  function Value(e: Extension): (v: seq<Byte>)
    requires Fits(e)
    ensures |v| < 65536
  {
    match e
    case ServerName(names) => WriteU16(|WriteNames(names)|) + WriteNames(names)
    case Alpn(protocols) => WriteU16(|WriteProtocols(protocols)|) + WriteProtocols(protocols)
    case SupportedGroups(groups) => WriteU16(2 * |groups|) + WriteU16s(groups)
    case PointFormats(formats) => [|formats|] + formats
    case SupportedVersions(versions) => [2 * |versions|] + WriteU16s(versions)
    case Other(_, data) => data
  }

  ghost predicate AllFit(es: seq<Extension>) { forall i :: 0 <= i < |es| ==> Fits(es[i]) }

  function WriteExtension(e: Extension): seq<Byte>
    requires Fits(e)
  {
    WriteU16(Kind(e)) + (WriteU16(|Value(e)|) + Value(e))
  }

  function WriteExtensions(es: seq<Extension>): seq<Byte>
    requires AllFit(es)
  {
    if es == [] then [] else WriteExtension(es[0]) + WriteExtensions(es[1..])
  }

  ghost predicate WellFormed(h: Hello) {
    |h.random| == 32 && LengthsFit(h) && |WriteBody(h)| + 4 < 65536
  }

  ghost predicate LengthsFit(h: Hello) {
    |h.session| < 256 && 2 * |h.ciphers| < 65536 && |h.compression| < 256
    && AllFit(h.extensions) && |WriteExtensions(h.extensions)| < 65536
  }

  /** From the cipher list on. */
  function WriteTail(h: Hello): seq<Byte>
    requires LengthsFit(h)
  {
    var exts := WriteExtensions(h.extensions);
    WriteU16(2 * |h.ciphers|)
      + (WriteU16s(h.ciphers) + ([|h.compression|] + (h.compression + (WriteU16(|exts|) + exts))))
  }

  function WriteBody(h: Hello): seq<Byte>
    requires LengthsFit(h)
  {
    WriteU16(h.clientVer) + (h.random + ([|h.session|] + (h.session + WriteTail(h))))
  }

  function WriteRecord(recordVer: U16, body: seq<Byte>): seq<Byte>
    requires |body| + 4 < 65536
  {
    [22] + WriteU16(recordVer) + WriteU16(|body| + 4) + ([1, 0] + WriteU16(|body|) + body)
  }

  function Write(h: Hello): seq<Byte>
    requires WellFormed(h)
  {
    WriteRecord(h.recordVer, WriteBody(h))
  }

  // ----- what the hello says -----

  function Kinds(es: seq<Extension>): seq<U16> {
    if es == [] then [] else [Kind(es[0])] + Kinds(es[1..])
  }

  function FirstHost(names: seq<Name>): Option<seq<Byte>> {
    if names == [] then None else if names[0].kind == 0 then Some(names[0].text) else FirstHost(names[1..])
  }

  /** The host name of the last server_name extension that has one. */
  function Host(es: seq<Extension>): Option<seq<Byte>> {
    if es == [] then None
    else
      var later := Host(es[1..]);
      if later.Some? || !es[0].ServerName? then later else FirstHost(es[0].names)
  }

  /** ALPN names as ASCII, the empty ones left out. */
  function Readable(protocols: seq<seq<Byte>>): seq<seq<Byte>> {
    if protocols == [] then []
    else if |Ascii(protocols[0])| == 0 then Readable(protocols[1..])
    else [Ascii(protocols[0])] + Readable(protocols[1..])
  }

  function AllProtocols(es: seq<Extension>): seq<seq<Byte>> {
    if es == [] then []
    else (if es[0].Alpn? then Readable(es[0].protocols) else []) + AllProtocols(es[1..])
  }

  function AllGroups(es: seq<Extension>): seq<U16> {
    if es == [] then [] else (if es[0].SupportedGroups? then es[0].groups else []) + AllGroups(es[1..])
  }

  function AllFormats(es: seq<Extension>): seq<Byte> {
    if es == [] then [] else (if es[0].PointFormats? then es[0].formats else []) + AllFormats(es[1..])
  }

  function AllVersions(es: seq<Extension>): seq<U16> {
    if es == [] then [] else (if es[0].SupportedVersions? then es[0].versions else []) + AllVersions(es[1..])
  }

  function View(h: Hello): ClientHello {
    ClientHello(h.recordVer, h.clientVer, NoGrease(h.ciphers), NoGrease(Kinds(h.extensions)), Host(h.extensions),
                AllProtocols(h.extensions), NoGrease(AllGroups(h.extensions)), AllFormats(h.extensions),
                NoGrease(AllVersions(h.extensions)))
  }

  // ----- the lists inside extensions -----

  lemma {:induction false} PairsInvert(v: seq<Byte>, pos: nat, ns: seq<U16>)
    requires pos + 2 * |ns| == |v| && HasAt(v, pos, WriteU16s(ns))
    ensures Pairs(v, pos, |v|) == ns
    decreases |ns|
  {
    if ns != [] {
      HasAtConcat(v, pos, WriteU16(ns[0]), WriteU16s(ns[1..]));
      HasAtU16(v, pos, ns[0]);
      PairsInvert(v, pos + 2, ns[1..]);
    }
  }

  lemma {:induction false} CiphersInvert(body: seq<Byte>, at: nat, ns: seq<U16>)
    requires HasAt(body, at, WriteU16s(ns))
    ensures Ciphers(body, at, 2 * |ns|) == NoGrease(ns)
    decreases |ns|
  {
    if ns != [] {
      HasAtConcat(body, at, WriteU16(ns[0]), WriteU16s(ns[1..]));
      HasAtU16(body, at, ns[0]);
      CiphersInvert(body, at + 2, ns[1..]);
    }
  }

  lemma {:induction false} HostNameInverts(v: seq<Byte>, pos: nat, names: seq<Name>)
    requires NamesFit(names) && HasAt(v, pos, WriteNames(names)) && pos + |WriteNames(names)| == |v|
    ensures HostName(v, pos, |v|) == FirstHost(names)
    decreases |names|
  {
    if names != [] {
      var name, rest := names[0], WriteNames(names[1..]);
      assert WriteNames(names) == [name.kind] + (WriteU16(|name.text|) + (name.text + rest));
      HasAtConcat(v, pos, [name.kind], WriteU16(|name.text|) + (name.text + rest));
      HasAtByte(v, pos, name.kind);
      HasAtConcat(v, pos + 1, WriteU16(|name.text|), name.text + rest);
      HasAtU16(v, pos + 1, |name.text|);
      HasAtConcat(v, pos + 3, name.text, rest);
      HasAtSlice(v, pos + 3, name.text);
      HostNameInverts(v, pos + 3 + |name.text|, names[1..]);
    }
  }

  lemma ProtocolLayout(v: seq<Byte>, pos: nat, protocols: seq<seq<Byte>>)
    requires protocols != [] && ProtocolsFit(protocols) && HasAt(v, pos, WriteProtocols(protocols))
    ensures var p, rest := protocols[0], WriteProtocols(protocols[1..]);
            && pos < |v| && At(v, pos) == |p| && Slice(v, pos + 1, |p|) == p && HasAt(v, pos + 1 + |p|, rest)
            && |WriteProtocols(protocols)| == 1 + |p| + |rest|
  {
    hide HasAt, Slice;
    var p, rest := protocols[0], WriteProtocols(protocols[1..]);
    var size: Byte := |p|;
    assert WriteProtocols(protocols) == [size] + (p + rest);
    HasAtConcat(v, pos, [size], p + rest);
    HasAtByte(v, pos, size);
    HasAtConcat(v, pos + 1, p, rest);
    HasAtSlice(v, pos + 1, p);
  }

  lemma FirstProtocol(v: seq<Byte>, pos: nat, protocols: seq<seq<Byte>>)
    requires protocols != [] && pos < |v| && At(v, pos) == |protocols[0]|
             && Slice(v, pos + 1, |protocols[0]|) == protocols[0]
    requires Protocols(v, pos + 1 + |protocols[0]|, |v|) == Readable(protocols[1..])
    ensures Protocols(v, pos, |v|) == Readable(protocols)
  {
    hide Slice, Ascii;
  }

  lemma {:induction false} ProtocolsInvert(v: seq<Byte>, pos: nat, protocols: seq<seq<Byte>>)
    requires ProtocolsFit(protocols) && HasAt(v, pos, WriteProtocols(protocols))
    requires pos + |WriteProtocols(protocols)| == |v|
    ensures Protocols(v, pos, |v|) == Readable(protocols)
    decreases |protocols|
  {
    if protocols != [] {
      hide HasAt, Slice, Ascii, WriteProtocols, Protocols, Readable;
      ProtocolLayout(v, pos, protocols);
      ProtocolsInvert(v, pos + 1 + |protocols[0]|, protocols[1..]);
      FirstProtocol(v, pos, protocols);
    }
  }

  /** What one extension adds to what was found before it. */
  function Gathered(f: Found, e: Extension): Found {
    if IsGrease(Kind(e)) then f
    else
      var g := f.(extensions := f.extensions + [Kind(e)]);
      match e
      case ServerName(names) => if FirstHost(names).Some? then g.(sni := FirstHost(names)) else g
      case Alpn(protocols) => g.(alpn := f.alpn + Readable(protocols))
      case SupportedGroups(groups) => g.(groups := f.groups + groups)
      case PointFormats(formats) => g.(ecpf := f.ecpf + formats)
      case SupportedVersions(versions) => g.(versions := f.versions + versions)
      case Other(_, _) => g
  }

  lemma SelfHasAt(x: seq<Byte>, y: seq<Byte>)
    ensures HasAt(x + y, 0, x) && HasAt(x + y, |x|, y)
  {
  }

  lemma ServerNameValue(names: seq<Name>)
    requires Fits(ServerName(names))
    ensures var v := Value(ServerName(names));
            && |v| >= 2 && ReadU16(v, 0) + 2 == |v| && HostName(v, 2, |v|) == FirstHost(names)
            && (names != [] ==> |v| >= 5)
  {
    var v := Value(ServerName(names));
    SelfHasAt(WriteU16(|WriteNames(names)|), WriteNames(names));
    HasAtU16(v, 0, |WriteNames(names)|);
    HostNameInverts(v, 2, names);
  }

  lemma AbsorbServerName(f: Found, names: seq<Name>)
    requires Fits(ServerName(names))
    ensures Absorb(f, 0, Value(ServerName(names))) == Gathered(f, ServerName(names))
  {
    ServerNameValue(names);
    assert names == [] ==> |Value(ServerName(names))| == 2;
  }

  lemma AlpnValue(protocols: seq<seq<Byte>>)
    requires Fits(Alpn(protocols))
    ensures var v := Value(Alpn(protocols));
            && |v| >= 2 && ReadU16(v, 0) + 2 == |v| && Protocols(v, 2, |v|) == Readable(protocols)
            && (protocols != [] ==> |v| >= 3)
  {
    var v := Value(Alpn(protocols));
    SelfHasAt(WriteU16(|WriteProtocols(protocols)|), WriteProtocols(protocols));
    HasAtU16(v, 0, |WriteProtocols(protocols)|);
    ProtocolsInvert(v, 2, protocols);
  }

  lemma AbsorbAlpn(f: Found, protocols: seq<seq<Byte>>)
    requires Fits(Alpn(protocols))
    ensures Absorb(f, 16, Value(Alpn(protocols))) == Gathered(f, Alpn(protocols))
  {
    AlpnValue(protocols);
    if protocols == [] {
      assert |Value(Alpn(protocols))| == 2;
      assert f.alpn + Readable(protocols) == f.alpn;
    }
  }

  lemma AbsorbNumbers(f: Found, e: Extension)
    requires Fits(e) && (e.SupportedGroups? || e.SupportedVersions? || e.PointFormats?)
    ensures Absorb(f, Kind(e), Value(e)) == Gathered(f, e)
  {
    var v := Value(e);
    match e
    case SupportedGroups(groups) =>
      SelfHasAt(WriteU16(2 * |groups|), WriteU16s(groups));
      HasAtU16(v, 0, 2 * |groups|);
      PairsInvert(v, 2, groups);
    case SupportedVersions(versions) =>
      SelfHasAt([2 * |versions|], WriteU16s(versions));
      PairsInvert(v, 1, versions);
    case PointFormats(formats) =>
      assert v[1..] == formats;
  }

  lemma AbsorbInverts(f: Found, e: Extension)
    requires Fits(e)
    ensures Absorb(f, Kind(e), Value(e)) == Gathered(f, e)
  {
    match e
    case ServerName(names) => AbsorbServerName(f, names);
    case Alpn(protocols) => AbsorbAlpn(f, protocols);
    case Other(_, _) =>
    case _ => AbsorbNumbers(f, e);
  }

  // ----- the extension list -----

  function GatherAll(f: Found, es: seq<Extension>): Found
    decreases |es|
  {
    if es == [] then f else GatherAll(Gathered(f, es[0]), es[1..])
  }

  lemma ExtensionLayout(body: seq<Byte>, offset: nat, e: Extension, rest: seq<Byte>)
    requires Fits(e) && HasAt(body, offset, WriteExtension(e) + rest)
    ensures offset + 4 + |Value(e)| + |rest| <= |body|
    ensures ReadU16(body, offset) == Kind(e) && ReadU16(body, offset + 2) == |Value(e)|
    ensures Slice(body, offset + 4, |Value(e)|) == Value(e)
    ensures HasAt(body, offset + 4 + |Value(e)|, rest)
  {
    hide Value, Kind, ReadU16, Slice, WriteU16;
    HasAtConcat(body, offset, WriteExtension(e), rest);
    HasAtConcat(body, offset, WriteU16(Kind(e)), WriteU16(|Value(e)|) + Value(e));
    HasAtU16(body, offset, Kind(e));
    HasAtConcat(body, offset + 2, WriteU16(|Value(e)|), Value(e));
    HasAtU16(body, offset + 2, |Value(e)|);
    HasAtSlice(body, offset + 4, Value(e));
  }

  lemma {:induction false} ExtensionsInvert(body: seq<Byte>, offset: nat, es: seq<Extension>, f: Found)
    requires AllFit(es) && HasAt(body, offset, WriteExtensions(es)) && offset + |WriteExtensions(es)| == |body|
    ensures Extensions(body, offset, |body|, f) == GatherAll(f, es)
    decreases |es|
  {
    if es != [] {
      hide HasAt, Value, Kind, Fits, Absorb, Gathered, ReadU16, Slice;
      var e := es[0];
      ExtensionLayout(body, offset, e, WriteExtensions(es[1..]));
      AbsorbInverts(f, e);
      ExtensionsInvert(body, offset + 4 + |Value(e)|, es[1..], Gathered(f, e));
    }
  }

  lemma {:induction false} NoGreaseConcat(a: seq<U16>, b: seq<U16>)
    ensures NoGrease(a + b) == NoGrease(a) + NoGrease(b)
  {
    if a == [] {
      assert a + b == b;
    } else {
      assert (a + b)[1..] == a[1..] + b;
      NoGreaseConcat(a[1..], b);
    }
  }

  lemma {:induction false} GatherKinds(f: Found, es: seq<Extension>)
    ensures GatherAll(f, es).extensions == f.extensions + NoGrease(Kinds(es))
    decreases |es|
  {
    if es != [] {
      var g := Gathered(f, es[0]);
      GatherKinds(g, es[1..]);
      assert Kinds(es) == [Kind(es[0])] + Kinds(es[1..]);
      assert g.extensions == f.extensions + if IsGrease(Kind(es[0])) then [] else [Kind(es[0])];
    }
  }

  lemma {:induction false} GatherHost(f: Found, es: seq<Extension>)
    requires AllFit(es)
    ensures GatherAll(f, es).sni == if Host(es).Some? then Host(es) else f.sni
    decreases |es|
  {
    if es != [] { GatherHost(Gathered(f, es[0]), es[1..]); }
  }

  lemma {:induction false} GatherProtocols(f: Found, es: seq<Extension>)
    requires AllFit(es)
    ensures GatherAll(f, es).alpn == f.alpn + AllProtocols(es)
    decreases |es|
  {
    if es != [] {
      var own := if es[0].Alpn? then Readable(es[0].protocols) else [];
      GatherProtocols(Gathered(f, es[0]), es[1..]);
      assert Gathered(f, es[0]).alpn == f.alpn + own;
      assert (f.alpn + own) + AllProtocols(es[1..]) == f.alpn + (own + AllProtocols(es[1..]));
    }
  }

  lemma {:induction false} GatherGroups(f: Found, es: seq<Extension>)
    requires AllFit(es)
    ensures GatherAll(f, es).groups == f.groups + AllGroups(es)
    decreases |es|
  {
    if es != [] {
      GatherGroups(Gathered(f, es[0]), es[1..]);
      if es[0].SupportedGroups? {
        assert (f.groups + es[0].groups) + AllGroups(es[1..]) == f.groups + (es[0].groups + AllGroups(es[1..]));
      } else {
        assert AllGroups(es) == AllGroups(es[1..]);
      }
    }
  }

  lemma {:induction false} GatherFormats(f: Found, es: seq<Extension>)
    requires AllFit(es)
    ensures GatherAll(f, es).ecpf == f.ecpf + AllFormats(es)
    decreases |es|
  {
    if es != [] {
      GatherFormats(Gathered(f, es[0]), es[1..]);
      if es[0].PointFormats? {
        assert (f.ecpf + es[0].formats) + AllFormats(es[1..]) == f.ecpf + (es[0].formats + AllFormats(es[1..]));
      } else {
        assert AllFormats(es) == AllFormats(es[1..]);
      }
    }
  }

  lemma {:induction false} GatherVersions(f: Found, es: seq<Extension>)
    requires AllFit(es)
    ensures GatherAll(f, es).versions == f.versions + AllVersions(es)
    decreases |es|
  {
    if es != [] {
      GatherVersions(Gathered(f, es[0]), es[1..]);
      if es[0].SupportedVersions? {
        assert (f.versions + es[0].versions) + AllVersions(es[1..])
               == f.versions + (es[0].versions + AllVersions(es[1..]));
      } else {
        assert AllVersions(es) == AllVersions(es[1..]);
      }
    }
  }

  /** Folding over the extensions collects each list in order. */
  lemma GatherAllCollects(es: seq<Extension>)
    requires AllFit(es)
    ensures GatherAll(NOTHING, es)
            == Found(NoGrease(Kinds(es)), Host(es), AllProtocols(es), AllGroups(es), AllFormats(es), AllVersions(es))
  {
    GatherKinds(NOTHING, es);
    GatherHost(NOTHING, es);
    GatherProtocols(NOTHING, es);
    GatherGroups(NOTHING, es);
    GatherFormats(NOTHING, es);
    GatherVersions(NOTHING, es);
  }

  // ----- the whole record -----

  /** Where the writer put the front fields of the body. */
  lemma FrontLayout(h: Hello, body: seq<Byte>)
    requires LengthsFit(h) && |h.random| == 32 && body == WriteBody(h)
    ensures |body| == 35 + |h.session| + |WriteTail(h)|
    ensures HasAt(body, 0, WriteU16(h.clientVer)) && HasAt(body, 34, [|h.session|])
    ensures HasAt(body, 35 + |h.session|, WriteTail(h))
  {
    var r4 := h.session + WriteTail(h);
    var r3 := [|h.session| as Byte] + r4;
    assert HasAt(body, 0, WriteU16(h.clientVer) + (h.random + r3));
    HasAtConcat(body, 0, WriteU16(h.clientVer), h.random + r3);
    HasAtConcat(body, 2, h.random, r3);
    HasAtConcat(body, 34, [|h.session| as Byte], r4);
    HasAtConcat(body, 35, h.session, WriteTail(h));
  }

  /** The fields from the cipher list on, at their places `a`, `b` and `c`. */
  ghost predicate TailAt(body: seq<Byte>, a: nat, ciphers: seq<U16>, compression: seq<Byte>, exts: seq<Byte>) {
    var b := a + 2 + 2 * |ciphers|;
    var c := b + 1 + |compression|;
    && 2 * |ciphers| < 65536 && |compression| < 256 && |exts| < 65536
    && HasAt(body, a, WriteU16(2 * |ciphers|)) && HasAt(body, a + 2, WriteU16s(ciphers))
    && HasAt(body, b, [|compression|]) && HasAt(body, c, WriteU16(|exts|)) && HasAt(body, c + 2, exts)
  }

  lemma TailLayout(h: Hello, body: seq<Byte>, a: nat)
    requires LengthsFit(h) && HasAt(body, a, WriteTail(h))
    ensures TailAt(body, a, h.ciphers, h.compression, WriteExtensions(h.extensions))
    ensures |WriteTail(h)| == 2 + 2 * |h.ciphers| + 1 + |h.compression| + 2 + |WriteExtensions(h.extensions)|
  {
    hide HasAt, WriteU16, WriteU16s, WriteExtensions;
    var exts := WriteExtensions(h.extensions);
    var r9 := WriteU16(|exts|) + exts;
    var r8 := h.compression + r9;
    var r7 := [|h.compression| as Byte] + r8;
    var b := a + 2 + 2 * |h.ciphers|;
    HasAtConcat(body, a, WriteU16(2 * |h.ciphers|), WriteU16s(h.ciphers) + r7);
    HasAtConcat(body, a + 2, WriteU16s(h.ciphers), r7);
    HasAtConcat(body, b, [|h.compression| as Byte], r8);
    HasAtConcat(body, b + 1, h.compression, r9);
    HasAtConcat(body, b + 1 + |h.compression|, WriteU16(|exts|), exts);
  }

  /** The parser finds both lists where the writer put them. */
  lemma LayoutFound(body: seq<Byte>, session: nat, ciphers: seq<U16>, compression: seq<Byte>, exts: seq<Byte>)
    returns (c: nat)
    requires session < 256 && HasAt(body, 34, [session])
    requires TailAt(body, 35 + session, ciphers, compression, exts)
    ensures LayoutOf(body) == Extended(35 + session, c) && ReadU16(body, c) == |exts|
    ensures c == 35 + session + 2 + 2 * |ciphers| + 1 + |compression|
    ensures HasAt(body, c + 2, exts)
    ensures Ciphers(body, 35 + session + 2, ReadU16(body, 35 + session)) == NoGrease(ciphers)
  {
    var a := 35 + session;
    var b := a + 2 + 2 * |ciphers|;
    c := b + 1 + |compression|;
    HasAtByte(body, 34, session);
    HasAtU16(body, a, 2 * |ciphers|);
    HasAtByte(body, b, |compression|);
    HasAtU16(body, c, |exts|);
    CiphersInvert(body, a + 2, ciphers);
  }

  lemma FoundInverts(body: seq<Byte>, c: nat, es: seq<Extension>)
    requires AllFit(es) && HasAt(body, c + 2, WriteExtensions(es)) && |body| == c + 2 + |WriteExtensions(es)|
    requires ReadU16(body, c) == |WriteExtensions(es)|
    ensures FoundIn(body, c) == GatherAll(NOTHING, es)
  {
    ExtensionsInvert(body, c + 2, es, NOTHING);
  }

  lemma LaidOutParses(recordVer: U16, clientVer: U16, body: seq<Byte>, session: nat, ciphers: seq<U16>,
                      compression: seq<Byte>, es: seq<Extension>)
    requires AllFit(es) && session < 256 && HasAt(body, 0, WriteU16(clientVer)) && HasAt(body, 34, [session])
    requires TailAt(body, 35 + session, ciphers, compression, WriteExtensions(es))
    requires |body| == 35 + session + 2 + 2 * |ciphers| + 1 + |compression| + 2 + |WriteExtensions(es)|
    ensures ParseBody(recordVer, body)
            == Some(Assemble(recordVer, clientVer, NoGrease(ciphers), GatherAll(NOTHING, es)))
  {
    hide HasAt, WriteExtensions, AllFit, TailAt, Assemble, NoGrease, GatherAll;
    var c := LayoutFound(body, session, ciphers, compression, WriteExtensions(es));
    HasAtU16(body, 0, clientVer);
    FoundInverts(body, c, es);
    ParsePieces(recordVer, body, 35 + session, c, NoGrease(ciphers), GatherAll(NOTHING, es));
  }

  lemma ParsePieces(recordVer: U16, body: seq<Byte>, a: nat, c: nat, ciphers: seq<U16>, f: Found)
    requires LayoutOf(body) == Extended(a, c) && FoundIn(body, c) == f
    requires Ciphers(body, a + 2, ReadU16(body, a)) == ciphers
    ensures ParseBody(recordVer, body) == Some(Assemble(recordVer, ReadU16(body, 0), ciphers, f))
  {
  }

  lemma BodyInverts(h: Hello)
    requires WellFormed(h)
    ensures ParseBody(h.recordVer, WriteBody(h)) == Some(View(h))
  {
    var body := WriteBody(h);
    FrontLayout(h, body);
    TailLayout(h, body, 35 + |h.session|);
    LaidOutParses(h.recordVer, h.clientVer, body, |h.session|, h.ciphers, h.compression, h.extensions);
    GatherAllCollects(h.extensions);
  }

  lemma RecordInverts(recordVer: U16, body: seq<Byte>)
    requires 4 < |body| && |body| + 4 < 65536
    ensures var payload := WriteRecord(recordVer, body);
            && |payload| >= 9 && |payload| == 5 + RecordLength(payload)
            && ReadU16(payload, 1) == recordVer && Body(payload) == Some(body)
  {
    var n := |body|;
    var handshake := [1, 0] + WriteU16(n) + body;
    var payload := WriteRecord(recordVer, body);
    assert payload[0] == 22 && ReadU16(payload, 1) == recordVer && RecordLength(payload) == n + 4;
    assert Slice(payload, 5, n + 4) == handshake;
    assert ReadU16(handshake, 2) == n && At(handshake, 1) == 0;
    assert Slice(handshake, 4, n) == body;
  }

  /** Parsing a written hello returns what it says, minus GREASE, whatever bytes follow the record. */
  lemma ParseInvertsWrite(h: Hello, rest: seq<Byte>)
    requires WellFormed(h)
    ensures Parse(Write(h) + rest) == Some(View(h))
  {
    var body := WriteBody(h);
    BodyInverts(h);
    RecordInverts(h.recordVer, body);
    TrailingBytesIgnored(Write(h), rest);
  }
}
