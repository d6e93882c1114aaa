/** What the ClientHello parser and the fingerprints say of plain values, without the parser's own filters. */
module TlsLaws {
  import opened Bytes
  import opened Sequences
  import opened Text
  import opened Values
  import opened TlsClientHello
  import opened TlsRoundTrip
  import opened TlsFingerprints

  // ----- what the parser keeps -----

  function IsAscii(): Byte -> bool { (b: Byte) => b < 128 }

  function IsPlain(): U16 -> bool { (value: U16) => !IsGrease(value) }

  predicate AllAscii(text: seq<Byte>) { forall i :: 0 <= i < |text| ==> text[i] < 128 }

  predicate AllPlain(values: seq<U16>) { forall i :: 0 <= i < |values| ==> !IsGrease(values[i]) }

  lemma FilterCons<T>(x: T, s: seq<T>, keep: T -> bool)
    ensures Filter([x] + s, keep) == (if keep(x) then [x] else []) + Filter(s, keep)
  {
    FilterConcat([x], s, keep);
    FilterSnoc([], x, keep);
    assert [x] == [] + [x];
  }

  /** Decoding keeps exactly the bytes below 128, in order; a text without others is kept whole. */
  lemma {:induction false} AsciiKeeps(text: seq<Byte>)
    ensures Ascii(text) == Filter(text, IsAscii())
    ensures AllAscii(text) ==> Ascii(text) == text
  {
    if text != [] {
      AsciiKeeps(text[1..]);
      assert text == [text[0]] + text[1..];
      FilterCons(text[0], text[1..], IsAscii());
    }
  }

  /** GREASE removal keeps exactly the other values, in order, repetitions included. */
  lemma {:induction false} NoGreaseKeeps(values: seq<U16>)
    ensures NoGrease(values) == Filter(values, IsPlain())
    ensures AllPlain(values) ==> NoGrease(values) == values
  {
    if values != [] {
      NoGreaseKeeps(values[1..]);
      assert values == [values[0]] + values[1..];
      FilterCons(values[0], values[1..], IsPlain());
    }
  }

  /** Every name is non-empty and ASCII. */
  predicate PlainNames(protocols: seq<seq<Byte>>) {
    forall i :: 0 <= i < |protocols| ==> protocols[i] != [] && AllAscii(protocols[i])
  }

  /** The protocol lists as written, one after the other. */
  function Offered(es: seq<Extension>): seq<seq<Byte>> {
    if es == [] then [] else (if es[0].Alpn? then es[0].protocols else []) + Offered(es[1..])
  }

  lemma {:induction false} PlainNamesAreReadable(protocols: seq<seq<Byte>>)
    requires PlainNames(protocols)
    ensures Readable(protocols) == protocols
  {
    if protocols != [] {
      AsciiKeeps(protocols[0]);
      PlainNamesAreReadable(protocols[1..]);
      assert protocols == [protocols[0]] + protocols[1..];
    }
  }

  lemma {:induction false} PlainOffersAreRead(es: seq<Extension>)
    requires forall i :: 0 <= i < |es| && es[i].Alpn? ==> PlainNames(es[i].protocols)
    ensures AllProtocols(es) == Offered(es)
  {
    if es != [] {
      if es[0].Alpn? { PlainNamesAreReadable(es[0].protocols); }
      PlainOffersAreRead(es[1..]);
    }
  }

  /** The ALPN names of a written hello, if non-empty and ASCII, are parsed as they were written. */
  lemma PlainAlpnReadsBack(h: Hello, rest: seq<Byte>)
    requires WellFormed(h)
    requires forall i :: 0 <= i < |h.extensions| && h.extensions[i].Alpn? ==> PlainNames(h.extensions[i].protocols)
    ensures Parse(Write(h) + rest).Some? && Parse(Write(h) + rest).value.alpn == Offered(h.extensions)
  {
    hide Parse, Write, WellFormed, AllProtocols;
    ParseInvertsWrite(h, rest);
    PlainOffersAreRead(h.extensions);
  }

  /** A written hello without GREASE is parsed as it was written, list by list. */
  lemma PlainHelloReadsBack(h: Hello, rest: seq<Byte>)
    requires WellFormed(h) && AllPlain(h.ciphers) && AllPlain(Kinds(h.extensions))
    requires AllPlain(AllGroups(h.extensions)) && AllPlain(AllVersions(h.extensions))
    requires forall i :: 0 <= i < |h.extensions| && h.extensions[i].Alpn? ==> PlainNames(h.extensions[i].protocols)
    ensures var es := h.extensions;
            Parse(Write(h) + rest)
            == Some(ClientHello(h.recordVer, h.clientVer, h.ciphers, Kinds(es), Host(es), Offered(es), AllGroups(es),
                                AllFormats(es), AllVersions(es)))
  {
    hide Parse, Write, WellFormed, AllProtocols, AllPlain;
    ParseInvertsWrite(h, rest);
    PlainOffersAreRead(h.extensions);
    NoGreaseKeeps(h.ciphers);
    NoGreaseKeeps(Kinds(h.extensions));
    NoGreaseKeeps(AllGroups(h.extensions));
    NoGreaseKeeps(AllVersions(h.extensions));
  }

  // ----- what is no ClientHello -----

  /** A payload shorter than nine bytes, of another record type than 22, cut short, of another handshake type than
      1, or with a body of fewer than 35 bytes is no ClientHello. */
  lemma OtherPayloadsAreRefused(payload: seq<Byte>)
    ensures |payload| < 9 ==> Parse(payload) == None
    ensures |payload| >= 9 && (payload[0] != 22 || payload[5] != 1) ==> Parse(payload) == None
    ensures |payload| >= 9 && |payload| < 5 + 256 * (payload[3] as int) + (payload[4] as int) ==> Parse(payload) == None
    ensures |payload| >= 9 && 65536 * (payload[6] as int) + 256 * (payload[7] as int) + (payload[8] as int) < 35 ==>
              Parse(payload) == None
  {
    hide LayoutOf, Ciphers, Assemble, FoundIn;
    if |payload| >= 9 {
      ShortBodies(payload);
    }
  }

  lemma ShortBodies(payload: seq<Byte>)
    requires |payload| >= 9
    ensures payload[5] != 1 ==> Body(payload) == None
    ensures 65536 * (payload[6] as int) + 256 * (payload[7] as int) + (payload[8] as int) < 35 ==>
              Body(payload) == None || |Body(payload).value| < 35
    ensures forall body: seq<Byte> :: |body| < 35 ==> LayoutOf(body).Malformed?
  {
    if |payload| >= 5 + RecordLength(payload) && RecordLength(payload) >= 4 {
      var handshake := Slice(payload, 5, RecordLength(payload));
      assert handshake[0] == payload[5] && handshake[1] == payload[6] && handshake[2] == payload[7];
      assert handshake[3] == payload[8];
    }
  }

  // ----- the printed parts of JA3 and JA4 -----

  lemma {:induction false} JoinIsDashed(ns: seq<nat>, n: nat)
    ensures JoinNumbers([]) == ""
    ensures JoinNumbers(ns + [n]) == JoinNumbers(ns) + (if ns == [] then "" else "-") + Digits(n)
  {
    if ns == [] {
      assert ns + [n] == [n] && "" + "" + Digits(n) == Digits(n);
    } else {
      var rest := ns[1..];
      assert (ns + [n])[1..] == rest + [n] && (ns + [n])[0] == ns[0];
      JoinIsDashed(rest, n);
      if rest == [] {
        assert rest + [n] == [n];
        assert JoinNumbers(ns + [n]) == Digits(ns[0]) + "-" + Digits(n);
      } else {
        assert JoinNumbers(ns + [n]) == Digits(ns[0]) + "-" + (JoinNumbers(rest) + "-" + Digits(n));
        assert JoinNumbers(ns) == Digits(ns[0]) + "-" + JoinNumbers(rest);
      }
    }
  }

  /** Five comma-separated fields: the version - the record's if the client's is zero - and four dashed lists. */
  lemma Ja3IsSpelled(h: ClientHello)
    ensures Ja3(h) == Digits(if h.clientVer == 0 then h.recordVer else h.clientVer) + ","
            + JoinNumbers(NoGrease(h.ciphers))
                      + "," + JoinNumbers(NoGrease(h.extensions)) + "," + JoinNumbers(NoGrease(h.groups)) + ","
                      + JoinNumbers(h.ecpf)
  {
    var v := Digits(if h.clientVer == 0 then h.recordVer else h.clientVer);
    var c, e := JoinNumbers(NoGrease(h.ciphers)), JoinNumbers(NoGrease(h.extensions));
    var g, p := JoinNumbers(NoGrease(h.groups)), JoinNumbers(h.ecpf);
    assert v + "," + (c + "," + (e + "," + (g + "," + p))) == v + "," + c + "," + e + "," + g + "," + p;
  }

  const CODES := map[0x0304 := "13", 0x0303 := "12", 0x0302 := "11", 0x0301 := "10", 0x0300 := "s3"]

  function CodeOf(version: int): string { if version in CODES then CODES[version] else "00" }

  lemma {:induction false} MaxOfIsMember(values: seq<U16>)
    requires values != []
    ensures MaxOf(values) in values && forall v :: v in values ==> v <= MaxOf(values)
  {
    if |values| > 1 {
      MaxOfIsMember(values[1..]);
      assert values == [values[0]] + values[1..];
    }
  }

  lemma MaxOfIsGreatest(values: seq<U16>, greatest: U16)
    requires greatest in values && forall v :: v in values ==> v <= greatest
    ensures MaxOf(values) == greatest
  {
    MaxOfIsMember(values);
  }

  /** JA4 prints the code of the greatest supported version, else of the client's, else of the record's. */
  lemma Ja4VersionIsGreatest(h: ClientHello)
    ensures forall v :: v in h.supportedVersions && (forall w :: w in h.supportedVersions ==> w <= v) ==>
                          Ja4(h).version == CodeOf(v)
    ensures h.supportedVersions == []
            ==> Ja4(h).version == CodeOf(if h.clientVer == 0 then h.recordVer else h.clientVer)
  {
    forall v | v in h.supportedVersions && (forall w :: w in h.supportedVersions ==> w <= v)
      ensures Ja4(h).version == CodeOf(v)
    {
      MaxOfIsGreatest(h.supportedVersions, v);
    }
  }

  /** The host flag is d for a name of three or more bytes with a dot in it, and i otherwise; the ALPN part
      is the first two bytes of the first protocol, filled up with zeros. */
  lemma Ja4FlagsAre(h: ClientHello)
    ensures Ja4(h).sni == 'd' || Ja4(h).sni == 'i'
    ensures Ja4(h).sni == 'd' <==> h.sni.Some? && |h.sni.value| >= 3
                                   && exists i :: 0 <= i < |h.sni.value| && h.sni.value[i] as char == '.'
    ensures var first := if h.alpn == [] then [] else h.alpn[0];
            |Ja4(h).alpn| == 2 && forall i :: 0 <= i < 2 ==>
              Ja4(h).alpn[i] == if i < |first| then first[i] else '0' as int
  {
  }

  /** The counts are of distinct ciphers and of all extensions, GREASE left out. */
  lemma Ja4CountsAre(h: ClientHello)
    ensures Ja4(h).cipherCount == |set c | c in h.ciphers && !IsGrease(c)|
    ensures Ja4(h).extensionCount == |Filter(h.extensions, IsPlain())|
  {
    NoGreaseKeeps(h.extensions);
    NoGreaseMembers(h.ciphers);
    SortedSetSpec(NoGrease(h.ciphers));
    DistinctCounts(SortedSet(NoGrease(h.ciphers)));
    assert Members(SortedSet(NoGrease(h.ciphers))) == set c | c in h.ciphers && !IsGrease(c);
  }

  function Members(s: seq<U16>): set<U16> { set c | c in s }

  lemma MembersSnoc(s: seq<U16>, x: U16)
    ensures Members(s + [x]) == Members(s) + {x}
  {
  }

  lemma {:induction false} DistinctCounts(s: seq<U16>)
    requires Distinct(s)
    ensures |Members(s)| == |s|
  {
    if s != [] {
      hide Members;
      var init, last := s[..|s| - 1], s[|s| - 1];
      assert s == init + [last];
      DistinctCounts(init);
      MembersSnoc(init, last);
      assert last !in init;
      NotAMember(init, last);
    } else {
      assert Members(s) == {};
    }
  }

  lemma NotAMember(s: seq<U16>, x: U16)
    requires x !in s
    ensures x !in Members(s)
  {
  }
}
