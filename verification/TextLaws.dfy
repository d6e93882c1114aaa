/** What printing, stripping, case mapping and ordering of strings mean, said without the functions
    that do it. */
module TextLaws {
  import opened Text

  /** The number a decimal numeral denotes. */
  function Denotes(s: string): int {
    if s == "" then 0 else 10 * Denotes(s[..|s| - 1]) + (s[|s| - 1] as int - 48)
  }

  lemma {:induction false} DigitsDenote(n: nat)
    ensures Denotes(Digits(n)) == n && (n > 0 ==> Digits(n)[0] != '0')
  {
    if n >= 10 {
      DigitsDenote(n / 10);
      assert Digits(n)[..|Digits(n)| - 1] == Digits(n / 10);
    }
  }

  predicate AllSpace(s: string) { forall i :: 0 <= i < |s| ==> IsSpace(s[i]) }

  /** Neither end is white space. */
  predicate NoOuterSpace(s: string) { s == "" || (!IsSpace(s[0]) && !IsSpace(s[|s| - 1])) }

  lemma {:induction false} StripLeftCuts(s: string) returns (lead: string)
    ensures s == lead + StripLeft(s) && AllSpace(lead)
    ensures StripLeft(s) == "" || !IsSpace(StripLeft(s)[0])
  {
    if s != "" && IsSpace(s[0]) {
      var rest := StripLeftCuts(s[1..]);
      lead := [s[0]] + rest;
      assert s == [s[0]] + s[1..];
    } else {
      lead := "";
    }
  }

  lemma {:induction false} StripRightCuts(s: string) returns (tail: string)
    ensures s == StripRight(s) + tail && AllSpace(tail)
    ensures StripRight(s) == "" || !IsSpace(StripRight(s)[|StripRight(s)| - 1])
  {
    if s != "" && IsSpace(s[|s| - 1]) {
      var rest := StripRightCuts(s[..|s| - 1]);
      tail := rest + [s[|s| - 1]];
      assert s == s[..|s| - 1] + [s[|s| - 1]];
    } else {
      tail := "";
    }
  }

  /** Stripping removes white space at both ends, all of it, and nothing else. */
  lemma StripCuts(s: string) returns (lead: string, tail: string)
    ensures s == lead + Strip(s) + tail && AllSpace(lead) && AllSpace(tail) && NoOuterSpace(Strip(s))
  {
    lead := StripLeftCuts(s);
    tail := StripRightCuts(StripLeft(s));
    var kept := Strip(s);
    assert kept != "" ==> kept[0] == StripLeft(s)[0];
  }

  lemma StrippedStays(s: string)
    requires NoOuterSpace(s)
    ensures Strip(s) == s
  {
  }

  /** White space by code point: the tab to the return, the four separators, the blank, and the wider ones. */
  lemma SpacesAre(c: char)
    ensures IsSpace(c) <==> c as int in {9, 10, 11, 12, 13, 28, 29, 30, 31, 32, 133, 160, 5760, 8192, 8193, 8194, 8195,
                                         8196, 8197, 8198, 8199, 8200, 8201, 8202, 8232, 8233, 8239, 8287, 12288}
  {
  }

  /** Case mapping exchanges a-z and A-Z, place by place, and leaves the rest. */
  lemma {:induction false} CasesAt(s: string, i: nat)
    requires i < |s|
    ensures Upper(s)[i] as int == if 97 <= s[i] as int <= 122 then s[i] as int - 32 else s[i] as int
    ensures Lower(s)[i] as int == if 65 <= s[i] as int <= 90 then s[i] as int + 32 else s[i] as int
  {
    if i > 0 { CasesAt(s[1..], i - 1); }
  }

  predicate UpperCase(s: string) { forall i :: 0 <= i < |s| ==> !(97 <= s[i] as int <= 122) }

  lemma UpperCaseStays(s: string)
    requires UpperCase(s)
    ensures Upper(s) == s
  {
    forall i | 0 <= i < |s| ensures Upper(s)[i] == s[i] { CasesAt(s, i); }
  }

  /** `a` sorts before `b`: it is a beginning of it, or smaller where they first differ. */
  ghost predicate SortsBefore(a: string, b: string) {
    a <= b || exists k :: 0 <= k < |a| && k < |b| && a[..k] == b[..k] && a[k] < b[k]
  }

  lemma SortsBeforeSkips(a: string, b: string)
    requires a != "" && b != "" && a[0] == b[0]
    ensures SortsBefore(a, b) <==> SortsBefore(a[1..], b[1..])
  {
    var a', b' := a[1..], b[1..];
    assert a == [a[0]] + a' && b == [b[0]] + b';
    if k :| 0 <= k < |a'| && k < |b'| && a'[..k] == b'[..k] && a'[k] < b'[k] {
      assert a[..k + 1] == [a[0]] + a'[..k] && b[..k + 1] == [b[0]] + b'[..k];
      assert a[k + 1] < b[k + 1];
    }
    if k :| 0 <= k < |a| && k < |b| && a[..k] == b[..k] && a[k] < b[k] {
      assert a'[..k - 1] == a[..k][1..] && b'[..k - 1] == b[..k][1..];
      assert a'[k - 1] < b'[k - 1];
    }
  }

  lemma SortsBeforeAtOnce(a: string, b: string)
    requires a != "" && b != "" && a[0] != b[0]
    ensures SortsBefore(a, b) <==> a[0] < b[0]
  {
    assert a[..0] == b[..0];
    assert forall k :: 0 < k <= |a| && k <= |b| ==> a[..k][0] == a[0] && b[..k][0] == b[0];
  }

  lemma {:induction false} StringLeqIsCodePointOrder(a: string, b: string)
    ensures StringLeq(a, b) <==> SortsBefore(a, b)
    decreases |a|
  {
    if a != "" && b != "" {
      hide SortsBefore;
      if a[0] == b[0] {
        StringLeqIsCodePointOrder(a[1..], b[1..]);
        SortsBeforeSkips(a, b);
      } else {
        SortsBeforeAtOnce(a, b);
      }
    }
  }
}
