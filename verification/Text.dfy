/** Decimal printing, joining and comparing of strings, with the facts that make
    a printed form determine what was printed. */
module Text {

  function Digit(d: nat): char
    requires d < 10
  {
    "0123456789"[d]
  }

  /** str(n) */
  function Digits(n: nat): (s: string)
    ensures s != []
  {
    if n < 10 then [Digit(n)] else Digits(n / 10) + [Digit(n % 10)]
  }

  predicate IsDigit(c: char) { '0' <= c <= '9' }

  lemma {:induction false} DigitsAreDigits(n: nat)
    ensures forall i :: 0 <= i < |Digits(n)| ==> IsDigit(Digits(n)[i])
  {
    if n >= 10 { DigitsAreDigits(n / 10); }
  }

  lemma DigitInjective(d: nat, e: nat)
    requires d < 10 && e < 10 && Digit(d) == Digit(e)
    ensures d == e
  {
  }

  lemma {:induction false} DigitsInjective(m: nat, n: nat)
    requires Digits(m) == Digits(n)
    ensures m == n
  {
    if m >= 10 && n >= 10 {
      var a, b := Digits(m / 10), Digits(n / 10);
      assert a == Digits(m)[..|Digits(m)| - 1] && b == Digits(n)[..|Digits(n)| - 1];
      assert Digits(m)[|Digits(m)| - 1] == Digit(m % 10) && Digits(n)[|Digits(n)| - 1] == Digit(n % 10);
      DigitsInjective(m / 10, n / 10);
      DigitInjective(m % 10, n % 10);
    } else if m < 10 && n < 10 {
      assert Digits(m)[0] == Digit(m) && Digits(n)[0] == Digit(n);
      DigitInjective(m, n);
    }
  }

  // ----- cutting at a separator -----

  lemma CutFirst<T>(a: seq<T>, x: seq<T>, b: seq<T>, y: seq<T>, sep: T)
    requires a + [sep] + x == b + [sep] + y
    requires sep !in a && sep !in b
    ensures a == b && x == y
  {
    var s, t := a + [sep] + x, b + [sep] + y;
    assert s[|a|] == sep && t[|b|] == sep;
    assert forall i :: 0 <= i < |a| ==> s[i] == a[i];
    assert forall i :: 0 <= i < |b| ==> t[i] == b[i];
    assert a == s[..|a|] && b == t[..|b|] && x == s[|a| + 1..] && y == t[|b| + 1..];
  }

  lemma CutLast<T>(a: seq<T>, x: seq<T>, b: seq<T>, y: seq<T>, sep: T)
    requires a + [sep] + x == b + [sep] + y
    requires sep !in x && sep !in y
    ensures a == b && x == y
  {
    var s, t := a + [sep] + x, b + [sep] + y;
    assert s[|a|] == sep && t[|b|] == sep;
    assert forall i :: |a| < i < |s| ==> s[i] == x[i - |a| - 1];
    assert forall i :: |b| < i < |t| ==> t[i] == y[i - |b| - 1];
    assert a == s[..|a|] && b == t[..|b|] && x == s[|a| + 1..] && y == t[|b| + 1..];
  }

  /** "-".join(str(n) for n in ns) */
  function JoinNumbers(ns: seq<nat>): string {
    if ns == [] then ""
    else if |ns| == 1 then Digits(ns[0])
    else Digits(ns[0]) + "-" + JoinNumbers(ns[1..])
  }

  predicate DigitsOrDash(s: string) { forall i :: 0 <= i < |s| ==> IsDigit(s[i]) || s[i] == '-' }

  lemma {:induction false} JoinNumbersAlphabet(ns: seq<nat>)
    ensures DigitsOrDash(JoinNumbers(ns))
  {
    if ns != [] {
      DigitsAreDigits(ns[0]);
      if |ns| > 1 { JoinNumbersAlphabet(ns[1..]); }
    }
  }

  /** Two or more numbers print with a dash. */
  lemma DashShows(ns: seq<nat>)
    requires |ns| > 1
    ensures '-' in JoinNumbers(ns)
  {
    assert JoinNumbers(ns)[|Digits(ns[0])|] == '-';
  }

  lemma NoDash(n: nat)
    ensures '-' !in Digits(n)
  {
    DigitsAreDigits(n);
  }

  /** A printed list of numbers determines the list. */
  lemma {:induction false} JoinNumbersInjective(a: seq<nat>, b: seq<nat>)
    requires JoinNumbers(a) == JoinNumbers(b)
    ensures a == b
  {
    if a == [] || b == [] {
      assert JoinNumbers(a) == "";
    } else {
      NoDash(a[0]);
      NoDash(b[0]);
      if |a| > 1 { DashShows(a); }
      if |b| > 1 { DashShows(b); }
      if |a| == 1 && |b| == 1 {
        DigitsInjective(a[0], b[0]);
      } else if |a| > 1 && |b| > 1 {
        CutFirst(Digits(a[0]), JoinNumbers(a[1..]), Digits(b[0]), JoinNumbers(b[1..]), '-');
        DigitsInjective(a[0], b[0]);
        JoinNumbersInjective(a[1..], b[1..]);
        assert a == [a[0]] + a[1..] && b == [b[0]] + b[1..];
      }
    }
  }

  // ----- code point order -----

  predicate StringLeq(a: string, b: string)
    decreases |a|
  {
    a == "" || (b != "" && (a[0] < b[0] || (a[0] == b[0] && StringLeq(a[1..], b[1..]))))
  }

  lemma {:induction false} StringLeqTotal(a: string, b: string)
    ensures StringLeq(a, b) || StringLeq(b, a)
    decreases |a|
  {
    if a != "" && b != "" && a[0] == b[0] { StringLeqTotal(a[1..], b[1..]); }
  }

  lemma {:induction false} StringLeqAntisymmetric(a: string, b: string)
    requires StringLeq(a, b) && StringLeq(b, a)
    ensures a == b
    decreases |a|
  {
    if a != "" && b != "" {
      StringLeqAntisymmetric(a[1..], b[1..]);
      assert a == [a[0]] + a[1..] && b == [b[0]] + b[1..];
    }
  }

  // ----- normalising -----

  /** a or b */
  function OrElse(a: string, b: string): string { if a != "" then a else b }

  /** What str.strip removes. */
  predicate IsSpace(c: char) {
    || c == ' ' || '\t' <= c <= '\r' || '\U{1c}' <= c <= '\U{1f}'
    || c == '\U{85}' || c == '\U{a0}' || c == '\U{1680}' || '\U{2000}' <= c <= '\U{200a}'
    || c == '\U{2028}' || c == '\U{2029}' || c == '\U{202f}' || c == '\U{205f}' || c == '\U{3000}'
  }

  function StripLeft(s: string): string {
    if s != "" && IsSpace(s[0]) then StripLeft(s[1..]) else s
  }

  function StripRight(s: string): string {
    if s != "" && IsSpace(s[|s| - 1]) then StripRight(s[..|s| - 1]) else s
  }

  function Strip(s: string): string { StripRight(StripLeft(s)) }

  /** part in text */
  predicate Contains(text: string, part: string) { exists i :: 0 <= i <= |text| && part <= text[i..] }

  function UpperChar(c: char): char { if 'a' <= c <= 'z' then c - 'a' + 'A' else c }

  function LowerChar(c: char): char { if 'A' <= c <= 'Z' then c - 'A' + 'a' else c }

  function Upper(s: string): (r: string)
    ensures |r| == |s| && forall i :: 0 <= i < |r| ==> !('a' <= r[i] <= 'z')
  {
    if s == "" then "" else [UpperChar(s[0])] + Upper(s[1..])
  }

  function Lower(s: string): (r: string)
    ensures |r| == |s|
  {
    if s == "" then "" else [LowerChar(s[0])] + Lower(s[1..])
  }

  predicate IsLower(s: string) { forall i :: 0 <= i < |s| ==> !('A' <= s[i] <= 'Z') }

  lemma {:induction false} LowerKeepsLower(s: string)
    ensures IsLower(Lower(s)) && (IsLower(s) ==> Lower(s) == s)
  {
    if s != "" { LowerKeepsLower(s[1..]); }
  }
}
