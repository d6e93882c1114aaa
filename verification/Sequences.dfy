/** Sums, filters and subsequences: the vocabulary in which the models state
    conservation and order. */
module Sequences {

  // ----- sums -----

  function SumBy<T>(s: seq<T>, weight: T -> nat): nat {
    if s == [] then 0 else SumBy(s[..|s| - 1], weight) + weight(s[|s| - 1])
  }

  lemma {:induction false} SumByUpdate<T>(s: seq<T>, weight: T -> nat, i: nat, x: T)
    requires i < |s|
    ensures SumBy(s[i := x], weight) + weight(s[i]) == SumBy(s, weight) + weight(x)
  {
    var last := |s| - 1;
    if i == last {
      assert s[i := x][..last] == s[..last];
    } else {
      assert s[i := x][..last] == s[..last][i := x];
      SumByUpdate(s[..last], weight, i, x);
    }
  }

  lemma {:induction false} SumByZero<T>(s: seq<T>, weight: T -> nat)
    requires forall i :: 0 <= i < |s| ==> weight(s[i]) == 0
    ensures SumBy(s, weight) == 0
  {
    if s != [] { SumByZero(s[..|s| - 1], weight); }
  }

  lemma {:induction false} SumByConcat<T>(a: seq<T>, b: seq<T>, weight: T -> nat)
    ensures SumBy(a + b, weight) == SumBy(a, weight) + SumBy(b, weight)
  {
    if b == [] {
      assert a + b == a;
    } else {
      assert (a + b)[..|a + b| - 1] == a + b[..|b| - 1];
      SumByConcat(a, b[..|b| - 1], weight);
    }
  }

  lemma SumBySnoc<T>(s: seq<T>, x: T, weight: T -> nat)
    ensures SumBy(s + [x], weight) == SumBy(s, weight) + weight(x)
  {
    assert (s + [x])[..|s|] == s;
  }

  lemma SumByHead<T>(s: seq<T>, weight: T -> nat)
    requires s != []
    ensures SumBy(s, weight) == weight(s[0]) + SumBy(s[1..], weight)
  {
    SumByConcat([s[0]], s[1..], weight);
    assert [s[0]] + s[1..] == s;
    assert SumBy([s[0]][..0], weight) == 0;
  }

  // ----- filters -----

  function Filter<T>(s: seq<T>, keep: T -> bool): (r: seq<T>)
  {
    if s == [] then []
    else Filter(s[..|s| - 1], keep) + if keep(s[|s| - 1]) then [s[|s| - 1]] else []
  }

  lemma FilterSnoc<T>(s: seq<T>, x: T, keep: T -> bool)
    ensures Filter(s + [x], keep) == if keep(x) then Filter(s, keep) + [x] else Filter(s, keep)
  {
    assert (s + [x])[..|s|] == s;
  }

  lemma {:induction false} FilterConcat<T>(a: seq<T>, b: seq<T>, keep: T -> bool)
    ensures Filter(a + b, keep) == Filter(a, keep) + Filter(b, keep)
  {
    if b == [] {
      assert a + b == a;
    } else {
      assert (a + b)[..|a + b| - 1] == a + b[..|b| - 1];
      FilterConcat(a, b[..|b| - 1], keep);
    }
  }

  lemma {:induction false} FilterMembers<T>(s: seq<T>, keep: T -> bool)
    ensures forall x :: x in Filter(s, keep) <==> x in s && keep(x)
  {
    if s != [] {
      FilterMembers(s[..|s| - 1], keep);
      assert s == s[..|s| - 1] + [s[|s| - 1]];
    }
  }

  lemma {:induction false} FilterAll<T>(s: seq<T>, keep: T -> bool)
    requires forall i :: 0 <= i < |s| ==> keep(s[i])
    ensures Filter(s, keep) == s
  {
    if s != [] { FilterAll(s[..|s| - 1], keep); }
  }

  lemma {:induction false} FilterNone<T>(s: seq<T>, keep: T -> bool)
    requires forall i :: 0 <= i < |s| ==> !keep(s[i])
    ensures Filter(s, keep) == []
  {
    if s != [] { FilterNone(s[..|s| - 1], keep); }
  }

  /** Filtering first with a weaker test changes nothing. */
  lemma {:induction false} FilterTwice<T>(s: seq<T>, weak: T -> bool, strong: T -> bool)
    requires forall i :: 0 <= i < |s| && strong(s[i]) ==> weak(s[i])
    ensures Filter(Filter(s, weak), strong) == Filter(s, strong)
  {
    if s != [] {
      var init, last := s[..|s| - 1], s[|s| - 1];
      FilterTwice(init, weak, strong);
      FilterSnoc(Filter(init, weak), last, strong);
      assert s == init + [last];
      FilterSnoc(init, last, weak);
      FilterSnoc(init, last, strong);
    }
  }

  // ----- the last few -----

  /** s[-n:], for positive n */
  function LastN<T>(s: seq<T>, n: nat): seq<T> { if |s| <= n then s else s[|s| - n..] }

  /** Forgetting all but the last few, and later again, is forgetting once at the end. */
  lemma LastNAgain<T>(s: seq<T>, more: seq<T>, n: nat)
    ensures LastN(LastN(s, n) + more, n) == LastN(s + more, n)
    ensures n > 0 && s != [] ==> LastN(s, n) != [] && LastN(s, n)[|LastN(s, n)| - 1] == s[|s| - 1]
    ensures s == [] ==> LastN(s, n) == []
  {
  }

  // ----- subsequences -----

  /** `a` is obtained from `b` by deleting elements, the order of the others kept. */
  predicate Subseq<T(==)>(a: seq<T>, b: seq<T>)
    decreases |b|
  {
    if a == [] then true
    else if b == [] then false
    else (a[|a| - 1] == b[|b| - 1] && Subseq(a[..|a| - 1], b[..|b| - 1])) || Subseq(a, b[..|b| - 1])
  }

  lemma {:induction false} SubseqSelf<T>(a: seq<T>)
    ensures Subseq(a, a)
  {
    if a != [] { SubseqSelf(a[..|a| - 1]); }
  }

  lemma SubseqSnoc<T>(a: seq<T>, b: seq<T>, x: T)
    requires Subseq(a, b)
    ensures Subseq(a + [x], b + [x]) && Subseq(a, b + [x])
  {
    assert (a + [x])[..|a|] == a && (b + [x])[..|b|] == b;
  }

  lemma AppendSnoc<T>(a: seq<T>, c: seq<T>)
    requires c != []
    ensures a + c == a + c[..|c| - 1] + [c[|c| - 1]]
  {
  }

  lemma {:induction false} SubseqAppend<T>(a: seq<T>, b: seq<T>, c: seq<T>)
    requires Subseq(a, b)
    ensures Subseq(a + c, b + c) && Subseq(a, b + c)
  {
    if c == [] {
      assert a + c == a && b + c == b;
    } else {
      hide Subseq;
      var c', x := c[..|c| - 1], c[|c| - 1];
      SubseqAppend(a, b, c');
      SubseqSnoc(a + c', b + c', x);
      SubseqSnoc(a, b + c', x);
      AppendSnoc(a, c);
      AppendSnoc(b, c);
    }
  }

  lemma {:induction false} SubseqInit<T>(a: seq<T>, b: seq<T>)
    requires a != [] && Subseq(a, b)
    ensures Subseq(a[..|a| - 1], b)
    decreases |b|
  {
    var a', b' := a[..|a| - 1], b[..|b| - 1];
    if Subseq(a, b') {
      SubseqInit(a, b');
    }
    assert Subseq(a', b');
  }

  /** Deleting one more element keeps a subsequence a subsequence. */
  lemma {:induction false} SubseqDrop<T>(a: seq<T>, x: T, c: seq<T>, b: seq<T>)
    requires Subseq(a + [x] + c, b)
    ensures Subseq(a + c, b)
    decreases |b|, |c|
  {
    var whole := a + [x] + c;
    if c == [] {
      SubseqInit(whole, b);
      assert whole[..|whole| - 1] == a + c;
    } else if a + c != [] {
      var c', b' := c[..|c| - 1], b[..|b| - 1];
      assert whole[..|whole| - 1] == a + [x] + c' && (a + c)[..|a + c| - 1] == a + c';
      if Subseq(whole, b') {
        SubseqDrop(a, x, c, b');
      } else {
        SubseqDrop(a, x, c', b');
      }
    }
  }

  lemma {:induction false} SubseqFilter<T>(a: seq<T>, b: seq<T>, keep: T -> bool)
    requires Subseq(a, b)
    ensures Subseq(Filter(a, keep), Filter(b, keep))
    decreases |b|
  {
    if a != [] {
      var a', b', x := a[..|a| - 1], b[..|b| - 1], b[|b| - 1];
      assert Filter(b, keep) == if keep(x) then Filter(b', keep) + [x] else Filter(b', keep);
      if Subseq(a, b') {
        SubseqFilter(a, b', keep);
        SubseqSnoc(Filter(a, keep), Filter(b', keep), x);
      } else {
        assert Filter(a, keep) == if keep(x) then Filter(a', keep) + [x] else Filter(a', keep);
        SubseqFilter(a', b', keep);
        SubseqSnoc(Filter(a', keep), Filter(b', keep), x);
      }
    }
  }

  lemma {:induction false} SubseqPrefix<T>(a: seq<T>, tail: seq<T>, b: seq<T>)
    requires Subseq(a + tail, b)
    ensures Subseq(a, b)
  {
    if tail == [] {
      assert a + tail == a;
    } else {
      SubseqInit(a + tail, b);
      assert (a + tail)[..|a + tail| - 1] == a + tail[..|tail| - 1];
      SubseqPrefix(a, tail[..|tail| - 1], b);
    }
  }

  lemma {:induction false} SubseqMembers<T>(a: seq<T>, b: seq<T>)
    requires Subseq(a, b)
    ensures forall x :: x in a ==> x in b
    decreases |b|
  {
    if a != [] {
      var a', b' := a[..|a| - 1], b[..|b| - 1];
      assert a == a' + [a[|a| - 1]] && b == b' + [b[|b| - 1]];
      if Subseq(a, b') {
        SubseqMembers(a, b');
      } else {
        SubseqMembers(a', b');
      }
    }
  }

  predicate Distinct<T(==)>(s: seq<T>) {
    forall i, j :: 0 <= i < j < |s| ==> s[i] != s[j]
  }

  lemma {:induction false} SubseqDistinct<T>(a: seq<T>, b: seq<T>)
    requires Subseq(a, b) && Distinct(b)
    ensures Distinct(a)
    decreases |b|
  {
    if a != [] {
      var a', b' := a[..|a| - 1], b[..|b| - 1];
      if Subseq(a, b') {
        SubseqDistinct(a, b');
      } else {
        SubseqDistinct(a', b');
        SubseqMembers(a', b');
        assert forall i :: 0 <= i < |a'| ==> a[i] == a'[i] && a'[i] in b';
      }
    }
  }
}
