/** `calc_ja3` and `calc_ja4` of core/netbotpro_sniffer_core/tls.py, up to the hashes. */
module TlsFingerprints {
  import opened Bytes
  import opened Text
  import opened TlsClientHello
  import opened Values
  import opened TlsRoundTrip

  // ----- JA3 -----

  /** client_ver, or record_ver when that is zero */
  function Version(h: ClientHello): nat { if h.clientVer != 0 then h.clientVer else h.recordVer }

  function Ja3Text(version: nat, ciphers: seq<nat>, extensions: seq<nat>, groups: seq<nat>, ecpf: seq<nat>): string {
    Digits(version) + ","
      + (JoinNumbers(ciphers) + "," + (JoinNumbers(extensions) + "," + (JoinNumbers(groups) + "," + JoinNumbers(ecpf))))
  }

  function Ja3(h: ClientHello): string {
    Ja3Text(Version(h), NoGrease(h.ciphers), NoGrease(h.extensions), NoGrease(h.groups), h.ecpf)
  }

  lemma NoComma(ns: seq<nat>)
    ensures ',' !in JoinNumbers(ns)
  {
    JoinNumbersAlphabet(ns);
  }

  lemma FieldInjective(a: seq<nat>, x: string, b: seq<nat>, y: string)
    requires JoinNumbers(a) + "," + x == JoinNumbers(b) + "," + y
    ensures a == b && x == y
  {
    NoComma(a);
    NoComma(b);
    assert JoinNumbers(a) + [','] + x == JoinNumbers(b) + [','] + y;
    CutFirst(JoinNumbers(a), x, JoinNumbers(b), y, ',');
    JoinNumbersInjective(a, b);
  }

  /** The printed string determines the version and the four lists. */
  lemma Ja3TextInjective(v: nat, c: seq<nat>, e: seq<nat>, g: seq<nat>, p: seq<nat>,
                         v': nat, c': seq<nat>, e': seq<nat>, g': seq<nat>, p': seq<nat>)
    requires Ja3Text(v, c, e, g, p) == Ja3Text(v', c', e', g', p')
    ensures v == v' && c == c' && e == e' && g == g' && p == p'
  {
    var gp, gp' := JoinNumbers(g) + "," + JoinNumbers(p), JoinNumbers(g') + "," + JoinNumbers(p');
    var egp, egp' := JoinNumbers(e) + "," + gp, JoinNumbers(e') + "," + gp';
    assert Digits(v) == JoinNumbers([v]) && Digits(v') == JoinNumbers([v']);
    FieldInjective([v], JoinNumbers(c) + "," + egp, [v'], JoinNumbers(c') + "," + egp');
    assert [v][0] == [v'][0];
    FieldInjective(c, egp, c', egp');
    FieldInjective(e, gp, e', gp');
    FieldInjective(g, JoinNumbers(p), g', JoinNumbers(p'));
    JoinNumbersInjective(p, p');
  }

  /** Two parsed hellos share a JA3 string exactly when they agree after GREASE removal. */
  lemma Ja3Characterised(h: ClientHello, k: ClientHello)
    ensures Ja3(h) == Ja3(k) <==>
            Version(h) == Version(k) && NoGrease(h.ciphers) == NoGrease(k.ciphers)
            && NoGrease(h.extensions) == NoGrease(k.extensions) && NoGrease(h.groups) == NoGrease(k.groups)
               && h.ecpf == k.ecpf
  {
    if Ja3(h) == Ja3(k) {
      Ja3TextInjective(Version(h), NoGrease(h.ciphers), NoGrease(h.extensions), NoGrease(h.groups), h.ecpf,
                       Version(k), NoGrease(k.ciphers), NoGrease(k.extensions), NoGrease(k.groups), k.ecpf);
    }
  }

  lemma {:induction false} NoGreaseTwice(values: seq<U16>)
    ensures NoGrease(NoGrease(values)) == NoGrease(values)
  {
    if values != [] {
      var own := if IsGrease(values[0]) then [] else [values[0]];
      NoGreaseTwice(values[1..]);
      NoGreaseConcat(own, NoGrease(values[1..]));
      assert NoGrease(own) == own;
    }
  }

  /** From wire to fingerprint: two written hellos share a JA3 string exactly when what they
      announce agrees after GREASE removal, whatever else they carry. */
  lemma WireJa3Characterised(h: Hello, k: Hello)
    requires WellFormed(h) && WellFormed(k)
    ensures Parse(Write(h)).Some? && Parse(Write(k)).Some?
    ensures Ja3(Parse(Write(h)).value) == Ja3(Parse(Write(k)).value) <==>
            && Version(View(h)) == Version(View(k))
            && NoGrease(h.ciphers) == NoGrease(k.ciphers)
            && NoGrease(Kinds(h.extensions)) == NoGrease(Kinds(k.extensions))
            && NoGrease(AllGroups(h.extensions)) == NoGrease(AllGroups(k.extensions))
            && AllFormats(h.extensions) == AllFormats(k.extensions)
  {
    ParseWritten(h);
    ParseWritten(k);
    Ja3Characterised(View(h), View(k));
    NoGreaseTwice(h.ciphers);
    NoGreaseTwice(k.ciphers);
    NoGreaseTwice(Kinds(h.extensions));
    NoGreaseTwice(Kinds(k.extensions));
    NoGreaseTwice(AllGroups(h.extensions));
    NoGreaseTwice(AllGroups(k.extensions));
  }

  lemma ParseWritten(h: Hello)
    requires WellFormed(h)
    ensures Parse(Write(h)) == Some(View(h))
  {
    ParseInvertsWrite(h, []);
    assert Write(h) + [] == Write(h);
  }

  // ----- JA4 -----

  /** Everything JA4 hashes or prints. `ciphers` and `extensions` are sorted without repetition. */
  datatype Ja4Content = Ja4Content(version: string, sni: char, cipherCount: nat, extensionCount: nat, alpn: seq<Byte>,
                                   ciphers: seq<U16>, extensions: seq<U16>)

  function VersionCode(version: nat): string {
    if version == 0x0304 then "13" else if version == 0x0303 then "12" else if version == 0x0302 then "11"
    else if version == 0x0301 then "10" else if version == 0x0300 then "s3" else "00"
  }

  function Insert(x: U16, sorted: seq<U16>): seq<U16> {
    if sorted == [] then [x]
    else if x < sorted[0] then [x] + sorted
    else if x == sorted[0] then sorted
    else [sorted[0]] + Insert(x, sorted[1..])
  }

  /** sorted(set(values)) */
  function SortedSet(values: seq<U16>): seq<U16> {
    if values == [] then [] else Insert(values[0], SortedSet(values[1..]))
  }

  predicate Increasing(s: seq<U16>) { forall i, j :: 0 <= i < j < |s| ==> s[i] < s[j] }

  lemma {:induction false} InsertMembers(x: U16, s: seq<U16>)
    ensures forall y :: y in Insert(x, s) <==> y == x || y in s
  {
    if s != [] && x > s[0] {
      InsertMembers(x, s[1..]);
      assert s == [s[0]] + s[1..];
    }
  }

  lemma {:induction false} InsertIncreasing(x: U16, s: seq<U16>)
    requires Increasing(s)
    ensures Increasing(Insert(x, s))
  {
    if s != [] && x > s[0] {
      InsertIncreasing(x, s[1..]);
      InsertMembers(x, s[1..]);
      var r := Insert(x, s[1..]);
      assert forall i :: 0 <= i < |r| ==> r[i] in r;
    }
  }

  lemma {:induction false} SortedSetSpec(values: seq<U16>)
    ensures Increasing(SortedSet(values))
    ensures forall y :: y in SortedSet(values) <==> y in values
  {
    if values != [] {
      SortedSetSpec(values[1..]);
      InsertIncreasing(values[0], SortedSet(values[1..]));
      InsertMembers(values[0], SortedSet(values[1..]));
      assert values == [values[0]] + values[1..];
    }
  }

  /** An increasing sequence is determined by its members. */
  lemma {:induction false} IncreasingUnique(a: seq<U16>, b: seq<U16>)
    requires Increasing(a) && Increasing(b) && forall y :: y in a <==> y in b
    ensures a == b
  {
    assert (a == [] || a[0] in b) && (b == [] || b[0] in a);
    if a != [] && b != [] {
      assert a[0] in b && b[0] in a;
      assert a[0] == b[0];
      assert a == [a[0]] + a[1..] && b == [b[0]] + b[1..];
      forall y ensures y in a[1..] <==> y in b[1..] {
        assert y in a <==> y == a[0] || y in a[1..];
        assert y in b <==> y == b[0] || y in b[1..];
      }
      IncreasingUnique(a[1..], b[1..]);
    }
  }

  function MaxOf(values: seq<U16>): U16
    requires values != []
  {
    if |values| == 1 || values[0] >= MaxOf(values[1..]) then values[0] else MaxOf(values[1..])
  }

  function WithoutNamesAndAlpn(extensions: seq<U16>): seq<U16> {
    if extensions == [] then []
    else
      var own := if extensions[0] == 0 || extensions[0] == 16 then [] else [extensions[0]];
      own + WithoutNamesAndAlpn(extensions[1..])
  }

  /** The host name's bytes stand for its text: '.' is 46. */
  function SniFlag(sni: Option<seq<Byte>>): char {
    if sni.Some? && 46 in sni.value && |sni.value| >= 3 then 'd' else 'i'
  }

  function AlpnPart(alpn: seq<seq<Byte>>): seq<Byte> {
    if alpn == [] || alpn[0] == [] then [48, 48] else if |alpn[0]| == 1 then alpn[0] + [48] else alpn[0][..2]
  }

  function Ja4(h: ClientHello): Ja4Content {
    var version := if h.supportedVersions != [] then MaxOf(h.supportedVersions) else Version(h);
    var ciphers := SortedSet(NoGrease(h.ciphers));
    var extensions := NoGrease(h.extensions);
    Ja4Content(VersionCode(version), SniFlag(h.sni), |ciphers|, |extensions|, AlpnPart(h.alpn),
               ciphers, SortedSet(WithoutNamesAndAlpn(extensions)))
  }

  lemma {:induction false} NoGreaseMembers(values: seq<U16>)
    ensures forall y :: y in NoGrease(values) <==> y in values && !IsGrease(y)
  {
    if values != [] {
      NoGreaseMembers(values[1..]);
      assert values == [values[0]] + values[1..];
    }
  }

  lemma {:induction false} WithoutMembers(values: seq<U16>)
    ensures forall y :: y in WithoutNamesAndAlpn(values) <==> y in values && y != 0 && y != 16
  {
    if values != [] {
      WithoutMembers(values[1..]);
      assert values == [values[0]] + values[1..];
    }
  }

  lemma SortedSetsAgree(a: seq<U16>, b: seq<U16>)
    requires forall y :: y in a <==> y in b
    ensures SortedSet(a) == SortedSet(b)
  {
    SortedSetSpec(a);
    SortedSetSpec(b);
    IncreasingUnique(SortedSet(a), SortedSet(b));
  }

  /** `b` is `a` with its ciphers and extensions permuted and GREASE inserted or removed. */
  predicate Reshuffled(a: ClientHello, b: ClientHello) {
    && multiset(NoGrease(a.ciphers)) == multiset(NoGrease(b.ciphers))
    && multiset(NoGrease(a.extensions)) == multiset(NoGrease(b.extensions))
    && a.recordVer == b.recordVer && a.clientVer == b.clientVer && a.sni == b.sni && a.alpn == b.alpn
    && a.supportedVersions == b.supportedVersions
  }

  lemma SameMultisetSameMembers(a: seq<U16>, b: seq<U16>)
    requires multiset(a) == multiset(b)
    ensures |a| == |b| && forall y :: y in a <==> y in b
  {
    assert |multiset(a)| == |multiset(b)|;
    forall y ensures y in a <==> y in b {
      assert y in multiset(a) <==> y in multiset(b);
    }
  }

  /** JA4's content does not see the order of ciphers or extensions, nor GREASE. */
  lemma Ja4IgnoresOrderAndGrease(a: ClientHello, b: ClientHello)
    requires Reshuffled(a, b)
    ensures Ja4(a) == Ja4(b)
  {
    SameMultisetSameMembers(NoGrease(a.ciphers), NoGrease(b.ciphers));
    SortedSetsAgree(NoGrease(a.ciphers), NoGrease(b.ciphers));
    var ea, eb := NoGrease(a.extensions), NoGrease(b.extensions);
    SameMultisetSameMembers(ea, eb);
    WithoutMembers(ea);
    WithoutMembers(eb);
    SortedSetsAgree(WithoutNamesAndAlpn(ea), WithoutNamesAndAlpn(eb));
  }

  lemma NoGreaseSkips(before: seq<U16>, after: seq<U16>, grease: U16)
    requires IsGrease(grease)
    ensures NoGrease(before + [grease] + after) == NoGrease(before + after)
  {
    NoGreaseConcat(before, after);
    NoGreaseConcat(before + [grease], after);
    NoGreaseConcat(before, [grease]);
    assert NoGrease([grease]) == [];
  }

  /** Inserting a GREASE value anywhere in the cipher list or in the extension list is one such change. */
  lemma GreaseInsertionReshuffles(h: ClientHello, before: seq<U16>, after: seq<U16>, grease: U16)
    requires IsGrease(grease)
    ensures h.ciphers == before + after ==> Reshuffled(h, h.(ciphers := before + [grease] + after))
    ensures h.extensions == before + after ==> Reshuffled(h, h.(extensions := before + [grease] + after))
  {
    NoGreaseSkips(before, after, grease);
  }

  lemma SortedSetsEqualIff(a: seq<U16>, b: seq<U16>)
    ensures SortedSet(a) == SortedSet(b) <==> forall y :: y in a <==> y in b
  {
    SortedSetSpec(a);
    SortedSetSpec(b);
    if forall y :: y in a <==> y in b { SortedSetsAgree(a, b); }
  }

  function Ja4Version(h: ClientHello): string {
    VersionCode(if h.supportedVersions != [] then MaxOf(h.supportedVersions) else Version(h))
  }

  /** `y` enters the second hash of JA4: an extension other than server_name, ALPN and GREASE. */
  predicate Hashed(extensions: seq<U16>, y: U16) { y in extensions && y != 0 && y != 16 && !IsGrease(y) }

  /** Two parsed hellos share their JA4 content exactly when they agree on the printed version, host flag
      and ALPN, on the set of ciphers, on the number of extensions and on the set of hashed ones. */
  lemma Ja4Characterised(a: ClientHello, b: ClientHello)
    ensures Ja4(a) == Ja4(b) <==>
            && Ja4Version(a) == Ja4Version(b) && SniFlag(a.sni) == SniFlag(b.sni)
               && AlpnPart(a.alpn) == AlpnPart(b.alpn)
            && (forall y :: y in NoGrease(a.ciphers) <==> y in NoGrease(b.ciphers))
            && |NoGrease(a.extensions)| == |NoGrease(b.extensions)|
            && (forall y :: Hashed(a.extensions, y) <==> Hashed(b.extensions, y))
  {
    hide SortedSet, NoGrease, WithoutNamesAndAlpn;
    var ea, eb := NoGrease(a.extensions), NoGrease(b.extensions);
    NoGreaseMembers(a.extensions);
    NoGreaseMembers(b.extensions);
    WithoutMembers(ea);
    WithoutMembers(eb);
    assert forall y :: y in WithoutNamesAndAlpn(ea) <==> Hashed(a.extensions, y);
    assert forall y :: y in WithoutNamesAndAlpn(eb) <==> Hashed(b.extensions, y);
    SortedSetsEqualIff(WithoutNamesAndAlpn(ea), WithoutNamesAndAlpn(eb));
    SortedSetsEqualIff(NoGrease(a.ciphers), NoGrease(b.ciphers));
    if Ja4(a) == Ja4(b) {
      assert forall y :: Hashed(a.extensions, y) <==> Hashed(b.extensions, y);
    } else if (forall y :: y in NoGrease(a.ciphers) <==> y in NoGrease(b.ciphers))
              && (forall y :: Hashed(a.extensions, y) <==> Hashed(b.extensions, y)) {
      assert SortedSet(NoGrease(a.ciphers)) == SortedSet(NoGrease(b.ciphers));
      assert SortedSet(WithoutNamesAndAlpn(ea)) == SortedSet(WithoutNamesAndAlpn(eb));
    }
  }

  /** From wire to JA4: two written hellos with the same GREASE-free ciphers and extensions, in whatever
      order, the same GREASE-free versions, host and protocols share their JA4 content. */
  lemma WireJa4IgnoresOrderAndGrease(h: Hello, k: Hello)
    requires WellFormed(h) && WellFormed(k)
    requires multiset(NoGrease(h.ciphers)) == multiset(NoGrease(k.ciphers))
    requires multiset(NoGrease(Kinds(h.extensions))) == multiset(NoGrease(Kinds(k.extensions)))
    requires NoGrease(AllVersions(h.extensions)) == NoGrease(AllVersions(k.extensions))
    requires h.recordVer == k.recordVer && h.clientVer == k.clientVer
    requires Host(h.extensions) == Host(k.extensions) && AllProtocols(h.extensions) == AllProtocols(k.extensions)
    ensures Parse(Write(h)).Some? && Parse(Write(k)).Some?
    ensures Ja4(Parse(Write(h)).value) == Ja4(Parse(Write(k)).value)
  {
    hide Ja4, NoGrease, Host, AllProtocols, AllVersions, AllGroups, AllFormats, Kinds, Write, Parse, WellFormed;
    ParseWritten(h);
    ParseWritten(k);
    NoGreaseTwice(h.ciphers);
    NoGreaseTwice(k.ciphers);
    NoGreaseTwice(Kinds(h.extensions));
    NoGreaseTwice(Kinds(k.extensions));
    Ja4IgnoresOrderAndGrease(View(h), View(k));
  }
}
