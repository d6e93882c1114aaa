/** `is_grease` and `parse_tls_client_hello` of core/netbotpro_sniffer_core/tls.py.

    `Parse` is the parser as a function of the payload; the method
    `ParseTlsClientHello` is the source's code, with its loops, proved equal to it. */
module TlsClientHello {
  import opened Bytes
  import opened Values

  datatype ClientHello = ClientHello(recordVer: U16, clientVer: U16, ciphers: seq<U16>, extensions: seq<U16>,
                                     sni: Option<seq<Byte>>, alpn: seq<seq<Byte>>, groups: seq<U16>,
                                     ecpf: seq<Byte>, supportedVersions: seq<U16>)

  /** Both bytes equal, each ending in the nibble A: section 2 of RFC 8701. */
  predicate IsGrease(value: U16) {
    value % 16 == 10 && value / 256 % 16 == 10 && value / 256 == value % 256
  }

  /** GREASE values are exactly 0x0A0A, 0x1A1A, ..., 0xFAFA. */
  lemma GreaseValues(value: U16)
    ensures IsGrease(value) <==> exists k :: 0 <= k < 16 && value == 0x0A0A + 0x1010 * k
  {
    if IsGrease(value) {
      var k := value % 256 / 16;
      assert value == 0x0A0A + 0x1010 * k;
    }
  }

  function NoGrease(values: seq<U16>): (r: seq<U16>)
  {
    if values == [] then []
    else (if IsGrease(values[0]) then [] else [values[0]]) + NoGrease(values[1..])
  }

  /** bytes.decode("ascii", errors="ignore") */
  function Ascii(text: seq<Byte>): seq<Byte> {
    if text == [] then [] else (if text[0] < 128 then [text[0]] else []) + Ascii(text[1..])
  }

  // ----- the parser as a function -----

  /** The ciphers read pairwise from `at`; `left` bytes of the announced length remain. */
  function Ciphers(body: seq<Byte>, at: nat, left: int): seq<U16>
    decreases left
  {
    if left <= 0 || at + 1 >= |body| then []
    else (if IsGrease(ReadU16(body, at)) then [] else [ReadU16(body, at)]) + Ciphers(body, at + 2, left - 2)
  }

  /** The first host name in a server_name list that ends at `end`. */
  function HostName(v: seq<Byte>, pos: nat, end: nat): Option<seq<Byte>>
    requires end <= |v|
    decreases end - pos
  {
    if pos + 3 > end then None
    else if v[pos] == 0 then Some(Slice(v, pos + 3, ReadU16(v, pos + 1)))
    else HostName(v, pos + 3 + ReadU16(v, pos + 1), end)
  }

  function Protocols(v: seq<Byte>, pos: nat, end: nat): seq<seq<Byte>>
    requires end <= |v|
    decreases end - pos
  {
    if pos >= end then []
    else
      var name := Ascii(Slice(v, pos + 1, At(v, pos)));
      if |name| == 0 then Protocols(v, pos + 1 + At(v, pos), end) else [name] + Protocols(v, pos + 1 + At(v, pos), end)
  }

  function Pairs(v: seq<Byte>, pos: nat, end: nat): seq<U16>
    requires end <= |v|
    decreases end - pos
  {
    if pos + 1 >= end then [] else [ReadU16(v, pos)] + Pairs(v, pos + 2, end)
  }

  /** What the extensions have yielded so far. */
  datatype Found = Found(extensions: seq<U16>, sni: Option<seq<Byte>>, alpn: seq<seq<Byte>>, groups: seq<U16>,
                         ecpf: seq<Byte>, versions: seq<U16>)

  const NOTHING := Found([], None, [], [], [], [])

  function ServerNameIn(v: seq<Byte>, before: Option<seq<Byte>>): Option<seq<Byte>>
    requires |v| >= 5
  {
    if 2 + ReadU16(v, 0) > |v| then before
    else
      var name := HostName(v, 2, 2 + ReadU16(v, 0));
      if name.Some? then name else before
  }

  function Absorb(f: Found, kind: U16, v: seq<Byte>): Found {
    if IsGrease(kind) then f
    else
      var g := f.(extensions := f.extensions + [kind]);
      if kind == 0 && |v| >= 5 then g.(sni := ServerNameIn(v, f.sni))
      else if kind == 16 && |v| >= 3 then g.(alpn := f.alpn + Protocols(v, 2, Min(|v|, 2 + ReadU16(v, 0))))
      else if kind == 10 && |v| >= 2 then g.(groups := f.groups + Pairs(v, 2, Min(|v|, 2 + ReadU16(v, 0))))
      else if kind == 11 && |v| >= 1 then g.(ecpf := f.ecpf + v[1..Min(|v|, 1 + At(v, 0))])
      else if kind == 43 && |v| >= 1 then g.(versions := f.versions + Pairs(v, 1, Min(|v|, 1 + At(v, 0))))
      else g
  }

  function Extensions(body: seq<Byte>, offset: nat, end: nat, f: Found): Found
    requires end <= |body|
    decreases end - offset
  {
    if offset + 4 > end then f
    else
      var len := ReadU16(body, offset + 2);
      Extensions(body, offset + 4 + len, end, Absorb(f, ReadU16(body, offset), Slice(body, offset + 4, len)))
  }

  function Assemble(recordVer: U16, clientVer: U16, ciphers: seq<U16>, f: Found): ClientHello {
    ClientHello(recordVer, clientVer, ciphers, f.extensions, f.sni, f.alpn, NoGrease(f.groups), f.ecpf,
                NoGrease(f.versions))
  }

  function RecordLength(payload: seq<Byte>): nat
    requires |payload| >= 5
  {
    ReadU16(payload, 3)
  }

  /** The handshake body, when the payload holds one complete ClientHello record. */
  function Body(payload: seq<Byte>): Option<seq<Byte>> {
    if |payload| < 9 || payload[0] != 22 || |payload| < 5 + RecordLength(payload) then None
    else
      var handshake := Slice(payload, 5, RecordLength(payload));
      if |handshake| < 4 || handshake[0] != 1 then None
      else Some(Slice(handshake, 4, 65536 * At(handshake, 1) + ReadU16(handshake, 2)))
  }

  /** Where the parser finds the cipher list's length and, if there is one, the extension list's. */
  datatype Layout = Malformed | Bare(ciphers: nat) | Extended(ciphers: nat, extensions: nat)

  /** A body of 34 bytes has no session id length to read: the source's IndexError. */
  function LayoutOf(body: seq<Byte>): (l: Layout)
    ensures !l.Malformed? ==> 34 < |body| && l.ciphers + 2 <= |body|
    ensures l.Extended? ==> l.ciphers < l.extensions && l.extensions + 2 <= |body|
  {
    if |body| <= 34 || 37 + At(body, 34) > |body| then Malformed
    else
      var ciphers := 35 + At(body, 34);
      var compression := ciphers + 2 + ReadU16(body, ciphers);
      if compression >= |body| then Bare(ciphers)
      else
        var extensions := compression + 1 + At(body, compression);
        if extensions + 2 > |body| then Bare(ciphers) else Extended(ciphers, extensions)
  }

  function FoundIn(body: seq<Byte>, at: nat): Found
    requires at + 2 <= |body|
  {
    Extensions(body, at + 2, Min(|body|, at + 2 + ReadU16(body, at)), NOTHING)
  }

  function ParseBody(recordVer: U16, body: seq<Byte>): Option<ClientHello> {
    var l := LayoutOf(body);
    if l.Malformed? then None
    else Some(Assemble(recordVer, ReadU16(body, 0), Ciphers(body, l.ciphers + 2, ReadU16(body, l.ciphers)),
                       if l.Extended? then FoundIn(body, l.extensions) else NOTHING))
  }

  function Parse(payload: seq<Byte>): Option<ClientHello> {
    var body := Body(payload);
    if body.None? then None else ParseBody(ReadU16(payload, 1), body.value)
  }

  // ----- the source's loops -----

  method ReadCiphers(body: seq<Byte>, offset: nat, cipherLen: nat) returns (ciphers: seq<U16>)
    ensures ciphers == Ciphers(body, offset, cipherLen)
  {
    ciphers := [];
    var i := 0;
    ghost var all := Ciphers(body, offset, cipherLen);
    while i < cipherLen
      invariant i >= 0
      invariant ciphers + Ciphers(body, offset + i, cipherLen - i) == all
    {
      if offset + i + 1 >= |body| { break; }
      var cipher := ReadU16(body, offset + i);
      if !IsGrease(cipher) { ciphers := ciphers + [cipher]; }
      i := i + 2;
    }
  }

  method ReadServerName(v: seq<Byte>, before: Option<seq<Byte>>) returns (sni: Option<seq<Byte>>)
    requires |v| >= 5
    ensures sni == ServerNameIn(v, before)
  {
    sni := before;
    var listLen := ReadU16(v, 0);
    if 2 + listLen <= |v| {
      var pos := 2;
      while pos + 3 <= 2 + listLen
        invariant 2 <= pos && sni == before
        invariant HostName(v, pos, 2 + listLen) == HostName(v, 2, 2 + listLen)
        decreases 2 + listLen - pos
      {
        var nameType, nameLen := v[pos], ReadU16(v, pos + 1);
        pos := pos + 3;
        var name := Slice(v, pos, nameLen);
        pos := pos + nameLen;
        if nameType == 0 { return Some(name); }
      }
    }
  }

  lemma NextProtocol(v: seq<Byte>, pos: nat, end: nat, seen: seq<seq<Byte>>)
    requires pos < end <= |v|
    ensures var name := Ascii(Slice(v, pos + 1, At(v, pos)));
            seen + Protocols(v, pos, end)
            == (if |name| > 0 then seen + [name] else seen) + Protocols(v, pos + 1 + At(v, pos), end)
  {
    var name, rest := Ascii(Slice(v, pos + 1, At(v, pos))), Protocols(v, pos + 1 + At(v, pos), end);
    if |name| > 0 {
      assert Protocols(v, pos, end) == [name] + rest;
      assert seen + ([name] + rest) == (seen + [name]) + rest;
    }
  }

  method ReadProtocols(v: seq<Byte>, before: seq<seq<Byte>>) returns (alpn: seq<seq<Byte>>)
    requires |v| >= 3
    ensures alpn == before + Protocols(v, 2, Min(|v|, 2 + ReadU16(v, 0)))
  {
    hide ReadU16, Ascii, Slice;
    alpn := before;
    var pos, end := 2, Min(|v|, 2 + ReadU16(v, 0));
    ghost var all := before + Protocols(v, 2, end);
    while pos < end
      invariant pos >= 2
      invariant alpn + Protocols(v, pos, end) == all
      decreases end - pos
    {
      var len := At(v, pos);
      var name := Ascii(Slice(v, pos + 1, len));
      NextProtocol(v, pos, end, alpn);
      if |name| > 0 { alpn := alpn + [name]; }
      pos := pos + 1 + len;
    }
  }

  method ReadPairs(v: seq<Byte>, start: nat, end: nat, before: seq<U16>) returns (values: seq<U16>)
    requires end <= |v|
    ensures values == before + Pairs(v, start, end)
  {
    values := before;
    var pos := start;
    while pos + 1 < end
      invariant pos >= start
      invariant values + Pairs(v, pos, end) == before + Pairs(v, start, end)
      decreases end - pos
    {
      values := values + [ReadU16(v, pos)];
      pos := pos + 2;
    }
  }

  method ReadPointFormats(v: seq<Byte>, before: seq<Byte>) returns (ecpf: seq<Byte>)
    requires |v| >= 1
    ensures ecpf == before + v[1..Min(|v|, 1 + At(v, 0))]
  {
    ecpf := before;
    var pos, end := 1, Min(|v|, 1 + At(v, 0));
    while pos < end
      invariant 1 <= pos <= end
      invariant ecpf == before + v[1..pos]
    {
      ecpf := ecpf + [v[pos]];
      pos := pos + 1;
    }
  }

  method ReadExtension(f: Found, kind: U16, v: seq<Byte>) returns (g: Found)
    requires !IsGrease(kind)
    ensures g == Absorb(f, kind, v)
  {
    g := f.(extensions := f.extensions + [kind]);
    if kind == 0 && |v| >= 5 {
      var sni := ReadServerName(v, f.sni);
      g := g.(sni := sni);
    } else if kind == 16 && |v| >= 3 {
      var alpn := ReadProtocols(v, f.alpn);
      g := g.(alpn := alpn);
    } else if kind == 10 && |v| >= 2 {
      var groups := ReadPairs(v, 2, Min(|v|, 2 + ReadU16(v, 0)), f.groups);
      g := g.(groups := groups);
    } else if kind == 11 && |v| >= 1 {
      var ecpf := ReadPointFormats(v, f.ecpf);
      g := g.(ecpf := ecpf);
    } else if kind == 43 && |v| >= 1 {
      var versions := ReadPairs(v, 1, Min(|v|, 1 + At(v, 0)), f.versions);
      g := g.(versions := versions);
    }
  }

  lemma NextExtension(body: seq<Byte>, offset: nat, end: nat, f: Found)
    requires offset + 4 <= end <= |body|
    ensures var len := ReadU16(body, offset + 2);
            Extensions(body, offset, end, f)
            == Extensions(body, offset + 4 + len, end, Absorb(f, ReadU16(body, offset), Slice(body, offset + 4, len)))
  {
  }

  /** One round of the extension loop. */
  method ReadNext(body: seq<Byte>, start: nat, f: Found) returns (offset: nat, g: Found)
    requires start + 4 <= |body|
    ensures offset == start + 4 + ReadU16(body, start + 2)
    ensures g == Absorb(f, ReadU16(body, start), Slice(body, start + 4, ReadU16(body, start + 2)))
  {
    var kind, len := ReadU16(body, start), ReadU16(body, start + 2);
    offset := start + 4;
    var v := Slice(body, offset, len);
    offset := offset + len;
    if IsGrease(kind) { return offset, f; }
    g := ReadExtension(f, kind, v);
  }

  /** `offset` strictly grows, by at least the four header bytes, in every round. */
  lemma NoExtension(body: seq<Byte>, offset: nat, end: nat, f: Found)
    requires end <= |body| && offset + 4 > end
    ensures Extensions(body, offset, end, f) == f
  {
  }

  method ReadExtensions(body: seq<Byte>, start: nat, end: nat) returns (f: Found)
    requires end <= |body|
    ensures f == Extensions(body, start, end, NOTHING)
  {
    hide Extensions;
    f := NOTHING;
    var offset := start;
    ghost var all := Extensions(body, offset, end, f);
    while offset + 4 <= end
      invariant offset >= start
      invariant Extensions(body, offset, end, f) == all
      decreases end - offset
    {
      NextExtension(body, offset, end, f);
      offset, f := ReadNext(body, offset, f);
    }
    NoExtension(body, offset, end, f);
  }

  /** Every index the source reads is in range, except body[34] when the body has 34 bytes. */
  method ReadBody(recordVer: U16, body: seq<Byte>) returns (r: Option<ClientHello>)
    ensures r == ParseBody(recordVer, body)
  {
    hide ReadU16, At, Extensions, Assemble;
    if |body| < 34 { return None; }
    var offset := 0;
    var clientVer := ReadU16(body, offset);
    offset := offset + 2;
    offset := offset + 32;
    if offset == |body| { return None; }
    var sessionIdLen := At(body, offset);
    offset := offset + 1 + sessionIdLen;
    if offset + 2 > |body| { return None; }
    var cipherLen := ReadU16(body, offset);
    offset := offset + 2;
    var ciphers := ReadCiphers(body, offset, cipherLen);
    offset := offset + cipherLen;
    if offset >= |body| { return Some(Assemble(recordVer, clientVer, ciphers, NOTHING)); }
    var compLen := At(body, offset);
    offset := offset + 1 + compLen;
    if offset + 2 > |body| { return Some(Assemble(recordVer, clientVer, ciphers, NOTHING)); }
    var extTotal := ReadU16(body, offset);
    offset := offset + 2;
    var found := ReadExtensions(body, offset, Min(|body|, offset + extTotal));
    return Some(Assemble(recordVer, clientVer, ciphers, found));
  }

  method ParseTlsClientHello(payload: seq<Byte>) returns (r: Option<ClientHello>)
    ensures r == Parse(payload)
  {
    if |payload| < 9 { return None; }
    if payload[0] != 22 { return None; }
    var recordVer, recordLen := ReadU16(payload, 1), ReadU16(payload, 3);
    if |payload| < 5 + recordLen { return None; }
    var handshake := Slice(payload, 5, recordLen);
    if |handshake| < 4 || handshake[0] != 1 { return None; }
    var hsLen := 65536 * At(handshake, 1) + ReadU16(handshake, 2);
    r := ReadBody(recordVer, Slice(handshake, 4, hsLen));
  }

  lemma BodyIgnoresTrailingBytes(payload: seq<Byte>, rest: seq<Byte>)
    requires |payload| >= 9 && |payload| >= 5 + RecordLength(payload)
    ensures Body(payload + rest) == Body(payload) && ReadU16(payload + rest, 1) == ReadU16(payload, 1)
  {
    var whole, n := payload + rest, RecordLength(payload);
    assert forall i :: 0 <= i < |payload| ==> whole[i] == payload[i];
    assert RecordLength(whole) == n;
    assert Slice(whole, 5, n) == whole[5..5 + n] == payload[5..5 + n] == Slice(payload, 5, n);
  }

  /** Bytes after a complete record never change the result. */
  lemma TrailingBytesIgnored(payload: seq<Byte>, rest: seq<Byte>)
    requires |payload| >= 9 && |payload| >= 5 + RecordLength(payload)
    ensures Parse(payload + rest) == Parse(payload)
  {
    BodyIgnoresTrailingBytes(payload, rest);
  }
}
