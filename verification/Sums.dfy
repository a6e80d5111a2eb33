/** Finite sums of reals, the arithmetic every statistical kernel and every running
    integral of the repository is built from.  Floats are modelled as exact reals. */
module Sums {

  /** Sum of f over a list. */
  ghost function SumBy<T>(f: T -> real, xs: seq<T>): real {
    if xs == [] then 0.0 else SumBy(f, xs[..|xs|-1]) + f(xs[|xs|-1])
  }

  function Max(x: real, y: real): real { if x < y then y else x }

  predicate AtMost(x: real, y: real) { x <= y }

  function Abs(x: real): real { if x < 0.0 then -x else x }

  predicate Distinct<T(==)>(xs: seq<T>) { forall i, j :: 0 <= i < j < |xs| ==> xs[i] != xs[j] }

  lemma {:induction false} SubsetSize<T>(s: set<T>, t: set<T>)
    requires s <= t
    ensures |s| <= |t| && (|s| == |t| <==> s == t)
  {
    if s == {} {
    } else {
      var x :| x in s;
      SubsetSize(s - {x}, t - {x});
      assert s == (s - {x}) + {x} && t == (t - {x}) + {x};
    }
  }

  lemma SplitLast<T>(xs: seq<T>)
    requires xs != []
    ensures xs == xs[..|xs|-1] + [xs[|xs|-1]]
  {}

  lemma SplitAt<T>(xs: seq<T>, j: nat)
    requires j < |xs|
    ensures xs == (xs[..j] + [xs[j]]) + xs[j+1..]
  {}

  lemma DropAppended<T>(xs: seq<T>, x: T)
    ensures (xs + [x])[..|xs + [x]| - 1] == xs
    ensures (xs + [x])[|xs + [x]| - 1] == x
  {}

  lemma MultisetAppend<T>(xs: seq<T>, x: T)
    ensures multiset(xs + [x]) == multiset(xs) + multiset{x}
  {}

  lemma SumByAppend<T>(f: T -> real, xs: seq<T>, x: T)
    ensures SumBy(f, xs + [x]) == SumBy(f, xs) + f(x)
  {
    assert (xs + [x])[..|xs|] == xs;
  }

  lemma {:induction false} SumByConcat<T>(f: T -> real, xs: seq<T>, ys: seq<T>)
    ensures SumBy(f, xs + ys) == SumBy(f, xs) + SumBy(f, ys)
  {
    if ys == [] {
      assert xs + ys == xs;
    } else {
      var k := |ys| - 1;
      SumByConcat(f, xs, ys[..k]);
      assert xs + ys == (xs + ys[..k]) + [ys[k]];
      SumByAppend(f, xs + ys[..k], ys[k]);
    }
  }

  lemma MultisetRemoveLast<T>(xs: seq<T>)
    requires xs != []
    ensures multiset(xs[..|xs|-1]) == multiset(xs) - multiset{xs[|xs|-1]}
  {
    assert xs == xs[..|xs|-1] + [xs[|xs|-1]];
  }

  lemma MultisetRemoveAt<T>(ys: seq<T>, j: nat)
    requires j < |ys|
    ensures multiset(ys[..j] + ys[j+1..]) == multiset(ys) - multiset{ys[j]}
  {
    assert ys == (ys[..j] + [ys[j]]) + ys[j+1..];
  }

  lemma SumByRemoveAt<T>(f: T -> real, ys: seq<T>, j: nat)
    requires j < |ys|
    ensures SumBy(f, ys) == SumBy(f, ys[..j] + ys[j+1..]) + f(ys[j])
  {
    hide SumBy;
    SplitAt(ys, j);
    SumByConcat(f, ys[..j] + [ys[j]], ys[j+1..]);
    SumByAppend(f, ys[..j], ys[j]);
    SumByConcat(f, ys[..j], ys[j+1..]);
  }

  lemma IndexOf<T>(xs: seq<T>, ys: seq<T>, k: nat) returns (j: nat)
    requires multiset(xs) == multiset(ys) && k < |xs|
    ensures j < |ys| && ys[j] == xs[k]
  {
    assert xs[k] in multiset(ys);
    j :| 0 <= j < |ys| && ys[j] == xs[k];
  }

  /** A sum does not depend on the order of its terms. */
  lemma {:induction false} SumByPermutation<T>(f: T -> real, xs: seq<T>, ys: seq<T>)
    requires multiset(xs) == multiset(ys)
    ensures SumBy(f, xs) == SumBy(f, ys)
    decreases |xs|
  {
    if xs == [] {
      assert |multiset(ys)| == 0;
    } else {
      var k := |xs| - 1;
      var j := IndexOf(xs, ys, k);
      MultisetRemoveLast(xs);
      MultisetRemoveAt(ys, j);
      SumByPermutation(f, xs[..k], ys[..j] + ys[j+1..]);
      SumByRemoveAt(f, ys, j);
    }
  }

  /** Sum of a list of reals. */
  function Sum(xs: seq<real>): real {
    if xs == [] then 0.0 else Sum(xs[..|xs|-1]) + xs[|xs|-1]
  }

  lemma SumAppend(xs: seq<real>, x: real)
    ensures Sum(xs + [x]) == Sum(xs) + x
  {
    assert (xs + [x])[..|xs|] == xs;
  }

  lemma TimesDistributes(a: real, x: real, y: real)
    ensures Times(a, x + y) == Times(a, x) + Times(a, y)
  {}

  lemma {:induction false} SumConstant(c: real, xs: seq<real>)
    requires forall i :: 0 <= i < |xs| ==> xs[i] == c
    ensures Sum(xs) == c * |xs| as real
  {
    if xs != [] {
      SumConstant(c, xs[..|xs|-1]);
    }
  }

  lemma {:induction false} SumPermutation(xs: seq<real>, ys: seq<real>)
    requires multiset(xs) == multiset(ys)
    ensures Sum(xs) == Sum(ys)
  {
    SumAsSumBy(xs);
    SumAsSumBy(ys);
    SumByPermutation(Itself, xs, ys);
  }

  function Itself(x: real): real { x }

  lemma {:induction false} SumAsSumBy(xs: seq<real>)
    ensures Sum(xs) == SumBy(Itself, xs)
  {
    if xs != [] {
      SumAsSumBy(xs[..|xs|-1]);
    }
  }

  /** A product kept as one term, so that structural proofs can hide the multiplication. */
  function Times(x: real, y: real): real { x * y }

  /** Inner product of two lists of the same length. */
  function Dot(xs: seq<real>, ys: seq<real>): real
    requires |xs| == |ys|
  {
    if xs == [] then 0.0 else Dot(xs[..|xs|-1], ys[..|xs|-1]) + Times(xs[|xs|-1], ys[|xs|-1])
  }

  lemma {:induction false} DotSymmetric(xs: seq<real>, ys: seq<real>)
    requires |xs| == |ys|
    ensures Dot(xs, ys) == Dot(ys, xs)
  {
    if xs != [] {
      assert Times(xs[|xs|-1], ys[|xs|-1]) == Times(ys[|xs|-1], xs[|xs|-1]);
      DotSymmetric(xs[..|xs|-1], ys[..|xs|-1]);
    }
  }

  lemma {:induction false} DotNonNegative(xs: seq<real>)
    ensures Dot(xs, xs) >= 0.0
  {
    if xs != [] {
      DotNonNegative(xs[..|xs|-1]);
      var x := xs[|xs|-1];
      assert x * x >= 0.0;
    }
  }

  lemma {:induction false} DotMonotone(xs: seq<real>, ys: seq<real>)
    requires |xs| == |ys|
    requires forall i :: 0 <= i < |xs| ==> 0.0 <= xs[i] <= ys[i]
    ensures Dot(xs, xs) <= Dot(ys, ys)
  {
    if xs != [] {
      var k := |xs| - 1;
      DotMonotone(xs[..k], ys[..k]);
      SquareMonotone(xs[k], ys[k]);
    }
  }

  lemma SquareMonotone(x: real, y: real)
    requires 0.0 <= x <= y
    ensures x * x <= y * y
  {
    assert x * x <= x * y;
    assert x * y <= y * y;
  }

  /** Squares decide the order of non-negative reals. */
  lemma SquareOrder(x: real, y: real)
    requires 0.0 <= y
    ensures x * x <= y * y ==> x <= y
  {
    if x > y {
      var d := x - y;
      assert d * d > 0.0 && d * y >= 0.0;
      assert x * x == y * y + 2.0 * (d * y) + d * d;
    }
  }

  /** The Cauchy-Schwarz inequality. */
  lemma {:induction false} CauchySchwarz(xs: seq<real>, ys: seq<real>)
    requires |xs| == |ys|
    ensures Dot(xs, ys) * Dot(xs, ys) <= Dot(xs, xs) * Dot(ys, ys)
  {
    if xs != [] {
      var k := |xs| - 1;
      CauchySchwarz(xs[..k], ys[..k]);
      DotNonNegative(xs[..k]);
      DotNonNegative(ys[..k]);
      CauchyStep(Dot(xs[..k], ys[..k]), Dot(xs[..k], xs[..k]), Dot(ys[..k], ys[..k]), xs[k], ys[k]);
    }
  }

  lemma CauchyStep(d: real, p: real, q: real, x: real, y: real)
    requires p >= 0.0 && q >= 0.0 && d * d <= p * q
    ensures (d + x * y) * (d + x * y) <= (p + x * x) * (q + y * y)
  {
    var u := p * (y * y);
    var v := q * (x * x);
    assert x * x >= 0.0 && y * y >= 0.0;
    assert u >= 0.0 && v >= 0.0;
    var t := 2.0 * (d * (x * y));
    assert t * t <= (u + v) * (u + v) by {
      var s := (x * y) * (x * y);
      assert s >= 0.0;
      assert t * t == 4.0 * ((d * d) * s);
      assert (d * d) * s <= (p * q) * s;
      assert u * v == (p * q) * s;
      assert (u - v) * (u - v) >= 0.0;
      assert (u + v) * (u + v) == (u - v) * (u - v) + 4.0 * (u * v);
    }
    SquareOrder(t, u + v);
    BinomialSquare(d, x * y);
    ProductOfSums(p, x * x, q, y * y);
    assert (x * y) * (x * y) == (x * x) * (y * y);
  }

  lemma BinomialSquare(a: real, b: real)
    ensures (a + b) * (a + b) == a * a + 2.0 * (a * b) + b * b
  {}

  lemma ProductOfSums(p: real, a: real, q: real, b: real)
    ensures (p + a) * (q + b) == p * q + p * b + q * a + a * b
  {}

  // ----- means -----

  function Mean(xs: seq<real>): real { if xs == [] then 0.0 else Sum(xs) / |xs| as real }

  function Shifted(xs: seq<real>, c: real): seq<real> { seq(|xs|, i requires 0 <= i < |xs| => xs[i] - c) }

  lemma MeanTimesCount(xs: seq<real>)
    ensures Times(Mean(xs), |xs| as real) == Sum(xs)
  {}

  lemma {:induction false} SumShifted(xs: seq<real>, c: real)
    ensures Sum(Shifted(xs, c)) == Sum(xs) - Times(c, |xs| as real)
  {
    if xs == [] {
      assert Times(c, 0.0) == 0.0;
    } else {
      var n := |xs| - 1;
      assert Shifted(xs, c)[..n] == Shifted(xs[..n], c);
      SumShifted(xs[..n], c);
      TimesDistributes(c, n as real, 1.0);
    }
  }

  // ----- squares, roots and quotients -----

  lemma {:induction false} ZeroSquares(d: seq<real>)
    ensures Dot(d, d) >= 0.0
    ensures Dot(d, d) == 0.0 <==> forall i :: 0 <= i < |d| ==> d[i] == 0.0
  {
    if d != [] {
      var n := |d| - 1;
      ZeroSquares(d[..n]);
      SquareZero(d[n]);
      assert d == d[..n] + [d[n]];
    }
  }

  lemma SquareZero(x: real)
    ensures Times(x, x) >= 0.0 && (Times(x, x) == 0.0 <==> x == 0.0)
  {
    if x != 0.0 {
      SameSigns(x, x);
    }
  }

  lemma SameSigns(x: real, y: real)
    requires (x < 0.0 && y < 0.0) || (x > 0.0 && y > 0.0)
    ensures Times(x, y) > 0.0
  {
    assert x < 0.0 ==> (-x) * (-y) > 0.0;
  }

  /** A square root on the non-negative reals. */
  ghost predicate IsRoot(root: real -> real) {
    forall x :: x >= 0.0 ==> root(x) >= 0.0 && Times(root(x), root(x)) == x
  }

  lemma RootOfSquare(root: real -> real, s: real)
    requires IsRoot(root) && s > 0.0
    ensures root(Times(s, s)) == s
  {
    assert Times(s, s) >= 0.0;
    var r := root(Times(s, s));
    assert Times(r, r) == Times(s, s);
    SquareOrder(r, s);
    SquareOrder(s, r);
  }

  lemma QuotientIs(x: real, y: real, q: real)
    requires y != 0.0 && q * y == x
    ensures x / y == q
  {}

  /** Division by a positive number, in the forms used. */
  lemma Quotients(x: real, y: real, n: real)
    requires n > 0.0
    ensures Times(x / n, n) == x && Times(n, x / n) == x
    ensures (x / n == 0.0 <==> x == 0.0) && (x / n == 1.0 <==> x == n)
    ensures (0.0 <= x ==> 0.0 <= x / n) && (x <= n ==> x / n <= 1.0) && (-n <= x ==> -1.0 <= x / n)
    ensures x <= y ==> x / n <= y / n
  {
    assert (x / n) * n == x && 1.0 == n / n && -1.0 == (-n) / n;
    QuotientGrows(0.0, x, n);
    QuotientGrows(x, n, n);
    QuotientGrows(-n, x, n);
    QuotientGrows(x, y, n);
  }

  lemma QuotientGrows(x: real, y: real, n: real)
    requires n > 0.0
    ensures x <= y ==> x / n <= y / n
  {
    var a, b := x / n, y / n;
    assert a * n == x && b * n == y;
    assert a > b ==> (a - b) * n > 0.0;
  }

  // ----- lists without repetition -----

  lemma {:induction false} OnceAtMost<T>(xs: seq<T>, x: T)
    requires Distinct(xs)
    ensures multiset(xs)[x] <= 1
  {
    if xs != [] {
      var n := |xs| - 1;
      OnceAtMost(xs[..n], x);
      SplitLast(xs);
      if xs[n] == x {
        assert x !in xs[..n];
      }
    }
  }

  lemma TwiceCounts<T>(ys: seq<T>, i: nat, j: nat)
    requires i < j < |ys| && ys[i] == ys[j]
    ensures multiset(ys)[ys[i]] >= 2
  {
    assert ys == ys[..j] + ys[j..];
    assert ys[i] in multiset(ys[..j]) by { assert ys[..j][i] == ys[i]; }
    assert ys[j] in multiset(ys[j..]) by { assert ys[j..][0] == ys[j]; }
  }

  /** Rearranging a list brings in no repetition. */
  lemma DistinctPermutation<T>(xs: seq<T>, ys: seq<T>)
    requires multiset(xs) == multiset(ys) && Distinct(xs)
    ensures Distinct(ys)
  {
    forall i, j | 0 <= i < j < |ys| ensures ys[i] != ys[j] {
      OnceAtMost(xs, ys[i]);
      if ys[i] == ys[j] {
        TwiceCounts(ys, i, j);
      }
    }
  }

  // ----- images of lists -----

  ghost function Map<S, T>(f: S -> T, xs: seq<S>): (ys: seq<T>)
    ensures |ys| == |xs| && forall i :: 0 <= i < |xs| ==> ys[i] == f(xs[i])
  {
    if xs == [] then [] else Map(f, xs[..|xs|-1]) + [f(xs[|xs|-1])]
  }

  /** The members that pass, in order. */
  ghost function Filter<T>(f: T -> bool, xs: seq<T>): seq<T> {
    if xs == [] then []
    else if f(xs[|xs|-1]) then Filter(f, xs[..|xs|-1]) + [xs[|xs|-1]] else Filter(f, xs[..|xs|-1])
  }

  lemma {:induction false} MapRemoveAt<S, T>(f: S -> T, ys: seq<S>, j: nat)
    requires j < |ys|
    ensures Map(f, ys[..j] + ys[j+1..]) == Map(f, ys)[..j] + Map(f, ys)[j+1..]
  {
    hide Map;
  }

  /** Rearranging a list rearranges its image. */
  lemma {:induction false} MapPermutation<S, T>(f: S -> T, xs: seq<S>, ys: seq<S>)
    requires multiset(xs) == multiset(ys)
    ensures multiset(Map(f, xs)) == multiset(Map(f, ys))
    decreases |xs|
  {
    if xs == [] {
      assert |multiset(ys)| == 0;
    } else {
      var k := |xs| - 1;
      var j := IndexOf(xs, ys, k);
      MultisetRemoveLast(xs);
      MultisetRemoveAt(ys, j);
      MapPermutation(f, xs[..k], ys[..j] + ys[j+1..]);
      MapRemoveAt(f, ys, j);
      MultisetAppend(Map(f, xs[..k]), f(xs[k]));
      MultisetRemoveAt(Map(f, ys), j);
    }
  }
}
