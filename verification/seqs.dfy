/** Order-preserving filtering and left folds over sequences: the model of
    `Array.prototype.filter` and `Array.prototype.reduce` with a zero seed. */
module Seqs {

  /** Keeps the elements that satisfy `p`, in their original order. */
  function Filter<T>(s: seq<T>, p: T -> bool): (r: seq<T>)
    ensures |r| <= |s|
    ensures forall i :: 0 <= i < |r| ==> r[i] in s && p(r[i])
  {
    if |s| == 0 then []
    else if p(s[0]) then [s[0]] + Filter(s[1..], p)
    else Filter(s[1..], p)
  }

  /** Nothing that satisfies `p` is dropped. (Kept apart from `Filter`'s
      contract so that the two membership directions do not feed each
      other in every proof that mentions a filter.) */
  lemma {:induction false} FilterComplete<T>(s: seq<T>, p: T -> bool)
    ensures forall i :: 0 <= i < |s| && p(s[i]) ==> s[i] in Filter(s, p)
  {
    if |s| > 0 {
      FilterComplete(s[1..], p);
      forall i | 1 <= i < |s| && p(s[i]) ensures s[i] in Filter(s, p) {
        assert s[i] == s[1..][i - 1];
      }
    }
  }

  /** Every element is kept as many times as it occurs, when `p` holds of
      it, and not at all otherwise: no occurrence is merged or dropped. */
  lemma {:induction false} FilterCount<T>(s: seq<T>, p: T -> bool)
    ensures forall x :: multiset(Filter(s, p))[x] == if p(x) then multiset(s)[x] else 0
  {
    if |s| > 0 {
      FilterCount(s[1..], p);
      assert s == [s[0]] + s[1..];
      assert multiset(s) == multiset{s[0]} + multiset(s[1..]);
      if p(s[0]) {
        assert multiset(Filter(s, p)) == multiset{s[0]} + multiset(Filter(s[1..], p));
      }
    }
  }

  /** `a` can be obtained from `b` by deleting elements: `a` lists some of
      the elements of `b` in the order `b` lists them. */
  predicate SubsequenceOf<T(==)>(a: seq<T>, b: seq<T>)
  {
    if |a| == 0 then true
    else if |b| == 0 then false
    else if a[0] == b[0] then SubsequenceOf(a[1..], b[1..])
    else SubsequenceOf(a, b[1..])
  }

  lemma {:induction false} FilterIsSubsequence<T>(s: seq<T>, p: T -> bool)
    ensures SubsequenceOf(Filter(s, p), s)
  {
    if |s| > 0 {
      FilterIsSubsequence(s[1..], p);
      if p(s[0]) {
        assert Filter(s, p)[1..] == Filter(s[1..], p);
      }
    }
  }

  /** A filter whose predicate holds everywhere returns the input unchanged. */
  lemma {:induction false} FilterKeepsAll<T>(s: seq<T>, p: T -> bool)
    requires forall i :: 0 <= i < |s| ==> p(s[i])
    ensures Filter(s, p) == s
  {
    if |s| > 0 {
      FilterKeepsAll(s[1..], p);
      assert [s[0]] + s[1..] == s;
    }
  }

  /** Left fold with `+` from 0.0, as `reduce((sum, x) => sum + f(x), 0)`. */
  function SumBy<T>(xs: seq<T>, f: T -> real): real
  {
    if |xs| == 0 then 0.0 else SumBy(xs[..|xs| - 1], f) + f(xs[|xs| - 1])
  }

  /** Left fold with `+` from 0 over integer terms. */
  function SumIntBy<T>(xs: seq<T>, f: T -> int): int
  {
    if |xs| == 0 then 0 else SumIntBy(xs[..|xs| - 1], f) + f(xs[|xs| - 1])
  }

  /** The fold over a concatenation is the sum of the folds. */
  lemma {:induction false} SumByAppend<T>(xs: seq<T>, ys: seq<T>, f: T -> real)
    ensures SumBy(xs + ys, f) == SumBy(xs, f) + SumBy(ys, f)
  {
    if |ys| > 0 {
      var zs := xs + ys;
      assert zs[..|zs| - 1] == xs + ys[..|ys| - 1];
      SumByAppend(xs, ys[..|ys| - 1], f);
    } else {
      assert xs + ys == xs;
    }
  }

  lemma {:induction false} SumIntByAppend<T>(xs: seq<T>, ys: seq<T>, f: T -> int)
    ensures SumIntBy(xs + ys, f) == SumIntBy(xs, f) + SumIntBy(ys, f)
  {
    if |ys| > 0 {
      var zs := xs + ys;
      assert zs[..|zs| - 1] == xs + ys[..|ys| - 1];
      SumIntByAppend(xs, ys[..|ys| - 1], f);
    } else {
      assert xs + ys == xs;
    }
  }

  /** Replacing one element changes the fold by the difference of its terms. */
  lemma {:induction false} SumByUpdate<T>(xs: seq<T>, i: int, y: T, f: T -> real)
    requires 0 <= i < |xs|
    ensures SumBy(xs[i := y], f) == SumBy(xs, f) - f(xs[i]) + f(y)
  {
    assert xs == xs[..i] + [xs[i]] + xs[i + 1..];
    assert xs[i := y] == xs[..i] + [y] + xs[i + 1..];
    SumByAppend(xs[..i] + [xs[i]], xs[i + 1..], f);
    SumByAppend(xs[..i] + [y], xs[i + 1..], f);
    SumByAppend(xs[..i], [xs[i]], f);
    SumByAppend(xs[..i], [y], f);
    assert SumBy([y], f) == f(y) by { assert [y][..0] == []; }
    assert SumBy([xs[i]], f) == f(xs[i]) by { assert [xs[i]][..0] == []; }
  }

  /** Removing one element lowers the fold by that element's term. */
  lemma {:induction false} SumByRemove<T>(xs: seq<T>, i: int, f: T -> real)
    requires 0 <= i < |xs|
    ensures SumBy(xs[..i] + xs[i + 1..], f) == SumBy(xs, f) - f(xs[i])
  {
    assert xs == xs[..i] + [xs[i]] + xs[i + 1..];
    SumByAppend(xs[..i] + [xs[i]], xs[i + 1..], f);
    SumByAppend(xs[..i], [xs[i]], f);
    SumByAppend(xs[..i], xs[i + 1..], f);
    assert SumBy([xs[i]], f) == f(xs[i]) by { assert [xs[i]][..0] == []; }
  }

  /** A fold of non-negative terms is non-negative. */
  lemma {:induction false} SumByNonNegative<T>(xs: seq<T>, f: T -> real)
    requires forall i :: 0 <= i < |xs| ==> f(xs[i]) >= 0.0
    ensures SumBy(xs, f) >= 0.0
  {
    if |xs| > 0 {
      SumByNonNegative(xs[..|xs| - 1], f);
    }
  }

  /** Folds of two term functions that agree on every element are equal. */
  lemma {:induction false} SumByPointwise<T>(xs: seq<T>, f: T -> real, g: T -> real)
    requires forall i :: 0 <= i < |xs| ==> f(xs[i]) == g(xs[i])
    ensures SumBy(xs, f) == SumBy(xs, g)
  {
    if |xs| > 0 {
      SumByPointwise(xs[..|xs| - 1], f, g);
    }
  }
}
