/** Sums of a real-valued function over a sequence: the model of `np.sum`
    applied to an array built by a comprehension over a list. */
module Sums {
  import Arith

  /** f(xs[0]) + f(xs[1]) + ... + f(xs[|xs| - 1]); 0 for an empty sequence. */
  function SumOf<T>(f: T -> real, xs: seq<T>): real
  {
    if |xs| == 0 then 0.0 else f(xs[0]) + SumOf(f, xs[1..])
  }

  /** Summing a concatenation sums the two parts. */
  lemma {:induction false} SumOfAppend<T>(f: T -> real, a: seq<T>, b: seq<T>)
    ensures SumOf(f, a + b) == SumOf(f, a) + SumOf(f, b)
  {
    if |a| == 0 {
      assert a + b == b;
    } else {
      assert (a + b)[1..] == a[1..] + b;
      SumOfAppend(f, a[1..], b);
    }
  }

  /** A sum of positive terms over a non-empty sequence is positive. */
  lemma {:induction false} SumOfPositive<T>(f: T -> real, xs: seq<T>)
    requires |xs| > 0
    requires forall x :: x in xs ==> f(x) > 0.0
    ensures SumOf(f, xs) > 0.0
  {
    if |xs| > 1 {
      assert forall x :: x in xs[1..] ==> x in xs;
      SumOfPositive(f, xs[1..]);
    }
  }

  /** `c * f`, pointwise. */
  function Scaled<T>(c: real, f: T -> real): T -> real
  {
    x => c * f(x)
  }

  /** A constant factor moves out of a sum. */
  lemma {:induction false} SumOfScaled<T>(c: real, f: T -> real, xs: seq<T>)
    ensures SumOf(Scaled(c, f), xs) == c * SumOf(f, xs)
  {
    if |xs| > 0 {
      SumOfScaled(c, f, xs[1..]);
      assert SumOf(Scaled(c, f), xs) == c * f(xs[0]) + c * SumOf(f, xs[1..]);
    }
  }

  /** Summing is monotone in the terms. */
  lemma {:induction false} SumOfMonotone<T>(f: T -> real, g: T -> real, xs: seq<T>)
    requires forall x :: x in xs ==> f(x) <= g(x)
    ensures SumOf(f, xs) <= SumOf(g, xs)
  {
    if |xs| > 0 {
      assert forall x :: x in xs[1..] ==> x in xs;
      SumOfMonotone(f, g, xs[1..]);
    }
  }

  /** Pointwise c * w <= v with positive weights w gives
      c <= sum(v) / sum(w). */
  lemma RatioAtLeast<T>(w: T -> real, v: T -> real, c: real, xs: seq<T>)
    requires |xs| > 0
    requires forall x :: x in xs ==> w(x) > 0.0
    requires forall x :: x in xs ==> Scaled(c, w)(x) <= v(x)
    ensures SumOf(w, xs) > 0.0
    ensures c <= SumOf(v, xs) / SumOf(w, xs)
  {
    SumOfMonotone(Scaled(c, w), v, xs);
    SumOfScaled(c, w, xs);
    SumOfPositive(w, xs);
    Arith.DivAtLeast(c, SumOf(v, xs), SumOf(w, xs));
  }

  /** Pointwise v <= c * w with positive weights w gives
      sum(v) / sum(w) <= c. */
  lemma RatioAtMost<T>(w: T -> real, v: T -> real, c: real, xs: seq<T>)
    requires |xs| > 0
    requires forall x :: x in xs ==> w(x) > 0.0
    requires forall x :: x in xs ==> v(x) <= Scaled(c, w)(x)
    ensures SumOf(w, xs) > 0.0
    ensures SumOf(v, xs) / SumOf(w, xs) <= c
  {
    SumOfMonotone(v, Scaled(c, w), xs);
    SumOfScaled(c, w, xs);
    SumOfPositive(w, xs);
    Arith.DivAtMost(c, SumOf(v, xs), SumOf(w, xs));
  }

  /** Taking out the term at index k. */
  lemma SumOfRemove<T>(f: T -> real, b: seq<T>, k: int)
    requires 0 <= k < |b|
    ensures SumOf(f, b) == f(b[k]) + SumOf(f, b[..k] + b[k + 1..])
  {
    assert b == b[..k] + ([b[k]] + b[k + 1..]);
    SumOfAppend(f, b[..k], [b[k]] + b[k + 1..]);
    SumOfAppend(f, b[..k], b[k + 1..]);
    assert ([b[k]] + b[k + 1..])[1..] == b[k + 1..];
  }

  /** Removing the same element from two sequences with equal multisets
      leaves equal multisets. */
  lemma MultisetRemove<T>(a: seq<T>, b: seq<T>, k: int)
    requires |a| > 0 && 0 <= k < |b| && b[k] == a[0]
    requires multiset(a) == multiset(b)
    ensures multiset(a[1..]) == multiset(b[..k] + b[k + 1..])
  {
    var x := a[0];
    var rest := b[..k] + b[k + 1..];
    calc {
      multiset{x} + multiset(a[1..]);
      { assert a == [x] + a[1..]; }
      multiset(a);
      multiset(b);
      { assert b == b[..k] + [x] + b[k + 1..]; }
      multiset(b[..k]) + multiset{x} + multiset(b[k + 1..]);
      multiset{x} + multiset(rest);
    }
    assert multiset(a[1..]) == (multiset{x} + multiset(a[1..])) - multiset{x};
    assert multiset(rest) == (multiset{x} + multiset(rest)) - multiset{x};
  }

  /** The order of the terms does not matter: two sequences holding the same
      multiset of elements have the same sum. */
  lemma {:induction false} SumOfPermutation<T>(f: T -> real, a: seq<T>, b: seq<T>)
    requires multiset(a) == multiset(b)
    ensures SumOf(f, a) == SumOf(f, b)
    decreases |a|
  {
    if |a| == 0 {
      assert |b| == |multiset(b)| == 0;
    } else {
      assert a[0] in multiset(b);
      var k :| 0 <= k < |b| && b[k] == a[0];
      SumOfRemove(f, b, k);
      MultisetRemove(a, b, k);
      SumOfPermutation(f, a[1..], b[..k] + b[k + 1..]);
    }
  }
}
