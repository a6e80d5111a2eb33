/** Rank correlation of two metrics: ranks by one sort, then the product-moment formula. */
module Spearman {
  import opened Sums
  import Sorting

  /** A value with its position, compared as a tuple is: by value, then by position. */
  datatype Entry = Entry(value: real, index: nat)

  predicate Before(x: Entry, y: Entry) { x.value < y.value || (x.value == y.value && x.index < y.index) }

  function Enumerated(values: seq<real>): seq<Entry> {
    seq(|values|, i requires 0 <= i < |values| => Entry(values[i], i))
  }

  predicate AtMost(x: Entry, y: Entry) { !Before(y, x) }

  ghost predicate Ascending(es: seq<Entry>) { forall i, j :: 0 <= i < j < |es| ==> Before(es[i], es[j]) }

  /** Sorting by value and position; no two entries are equal. */
  function Ordered(values: seq<real>): seq<Entry> { Sorting.Sorted(AtMost, Enumerated(values)) }

  lemma OrderedAscends(values: seq<real>)
    ensures Ascending(Ordered(values))
    ensures multiset(Ordered(values)) == multiset(Enumerated(values)) && |Ordered(values)| == |values|
  {
    var all, ordered := Enumerated(values), Ordered(values);
    Sorting.SortedIsSorted(AtMost, all);
    DistinctPermutation(all, ordered);
    forall i, j | 0 <= i < j < |ordered| ensures Before(ordered[i], ordered[j]) {
      assert AtMost(ordered[i], ordered[j]);
    }
  }

  // ----- ranks -----

  function Precedes(e: Entry): Entry -> real { x => if Before(x, e) then 1.0 else 0.0 }

  /** The rank of e: one more than the number of entries before it. */
  ghost function Rank(all: seq<Entry>, e: Entry): real { 1.0 + SumBy(Precedes(e), all) }

  ghost function RankIn(all: seq<Entry>): Entry -> real { e => Rank(all, e) }

  ghost function RankSeq(values: seq<real>): (ranks: seq<real>)
    ensures |ranks| == |values|
  {
    Map(RankIn(Enumerated(values)), Enumerated(values))
  }

  function Naturals(n: nat): seq<real> { seq(n, k requires 0 <= k < n => (k + 1) as real) }

  lemma {:induction false} CountInPrefix(es: seq<Entry>, k: nat, m: nat)
    requires Ascending(es) && k < |es| && m <= |es|
    ensures SumBy(Precedes(es[k]), es[..m]) == (if m <= k then m else k) as real
  {
    if m > 0 {
      CountInPrefix(es, k, m - 1);
      assert es[..m] == es[..m-1] + [es[m-1]];
      SumByAppend(Precedes(es[k]), es[..m-1], es[m-1]);
      assert m - 1 < k ==> Before(es[m-1], es[k]);
      assert k < m - 1 ==> Before(es[k], es[m-1]);
    }
  }

  /** In the sorted list, position k holds the entry of rank k + 1. */
  lemma RankAtPosition(all: seq<Entry>, ordered: seq<Entry>, k: nat)
    requires Ascending(ordered) && multiset(ordered) == multiset(all) && k < |ordered|
    ensures Rank(all, ordered[k]) == (k + 1) as real
  {
    SumByPermutation(Precedes(ordered[k]), all, ordered);
    CountInPrefix(ordered, k, |ordered|);
    assert ordered[..|ordered|] == ordered;
  }

  /** What the sort gives: every index once, the entry of rank k + 1 at position k. */
  ghost predicate Ordering(values: seq<real>, ordered: seq<Entry>) {
    && |ordered| == |values|
    && (forall k :: 0 <= k < |ordered| ==>
        ordered[k].index < |values| && RankSeq(values)[ordered[k].index] == (k + 1) as real)
    && (forall j, k :: 0 <= j < k < |ordered| ==> ordered[j].index != ordered[k].index)
    && (forall i :: 0 <= i < |values| ==> Placed(ordered, i))
  }

  ghost predicate Placed(ordered: seq<Entry>, i: nat) { exists k: nat :: Holds(ordered, k, i) }

  ghost predicate Holds(ordered: seq<Entry>, k: nat, i: nat) { k < |ordered| && ordered[k].index == i }

  lemma SortOrders(values: seq<real>)
    ensures Ordering(values, Ordered(values))
  {
    var all := Enumerated(values);
    var ordered := Ordered(values);
    OrderedAscends(values);
    forall k | 0 <= k < |ordered|
      ensures ordered[k].index < |values| && RankSeq(values)[ordered[k].index] == (k + 1) as real &&
          ordered[k] == all[ordered[k].index]
    {
      var i := IndexOf(ordered, all, k);
      RankAtPosition(all, ordered, k);
    }
    forall i | 0 <= i < |values| ensures Placed(ordered, i) {
      var k := IndexOf(all, ordered, i);
      assert Holds(ordered, k, i);
    }
  }

  /** The ranks are a permutation of 1..n. */
  lemma RanksPermute(values: seq<real>)
    ensures multiset(RankSeq(values)) == multiset(Naturals(|values|))
  {
    var all := Enumerated(values);
    var ordered := Ordered(values);
    OrderedAscends(values);
    MapPermutation(RankIn(all), all, ordered);
    forall k | 0 <= k < |ordered| ensures Map(RankIn(all), ordered)[k] == Naturals(|values|)[k] {
      RankAtPosition(all, ordered, k);
    }
    assert Map(RankIn(all), ordered) == Naturals(|values|);
  }

  /** The ranks order positions by value, ties by position. */
  lemma RanksFollowOrder(values: seq<real>, i: nat, j: nat)
    requires i < |values| && j < |values|
    ensures RankSeq(values)[i] < RankSeq(values)[j] <==> values[i] < values[j] || (values[i] == values[j] && i < j)
  {
    var all := Enumerated(values);
    var ordered := Ordered(values);
    OrderedAscends(values);
    var p := IndexOf(all, ordered, i);
    var q := IndexOf(all, ordered, j);
    RankAtPosition(all, ordered, p);
    RankAtPosition(all, ordered, q);
    assert p < q ==> Before(all[i], all[j]);
    assert q < p ==> Before(all[j], all[i]);
  }

  /** Sorting pairs of value and position, then writing each rank at its position. */
  method Ranks(values: seq<real>) returns (ranks: seq<real>)
    ensures ranks == RankSeq(values)
  {
    var ordered := Ordered(values);
    SortOrders(values);
    hide RankSeq, Ordered;
    var slots := new real[|values|](_ => 0.0);
    for k := 0 to |ordered|
      invariant forall j :: 0 <= j < k ==> slots[ordered[j].index] == (j + 1) as real
    {
      slots[ordered[k].index] := (k + 1) as real;
    }
    ranks := slots[..];
    forall i | 0 <= i < |values| ensures ranks[i] == RankSeq(values)[i] {
      assert Placed(ordered, i);
      var k: nat :| Holds(ordered, k, i);
    }
  }

  // ----- sums of ranks -----

  /** Sum of squared deviations of 1..n from their mean: n (n^2 - 1) / 12. */
  function Scatter(n: real): real { Cubic(n) / 12.0 }

  function Cubic(n: real): real { n * (n * n - 1.0) }

  function PowerSum(n: real): real { n * (n + 1.0) * (2.0 * n + 1.0) / 6.0 }

  lemma {:induction false} NaturalSums(n: nat)
    ensures Sum(Naturals(n)) == Times(n as real, n as real + 1.0) / 2.0
    ensures Dot(Naturals(n), Naturals(n)) == PowerSum(n as real)
  {
    if n > 0 {
      var m := n - 1;
      NaturalSums(m);
      assert Naturals(n)[..m] == Naturals(m);
    }
  }

  lemma {:induction false} DotShifted(xs: seq<real>, c: real)
    ensures Dot(Shifted(xs, c), Shifted(xs, c)) == Dot(xs, xs) - Times(2.0 * c, Sum(xs)) + Times(|xs| as real, c * c)
  {
    if xs == [] {
      assert Times(2.0 * c, 0.0) == 0.0 && Times(0.0, c * c) == 0.0;
    } else {
      var n := |xs| - 1;
      assert Shifted(xs, c)[..n] == Shifted(xs[..n], c);
      DotShifted(xs[..n], c);
      ShiftStep(xs[n], c, Sum(xs[..n]), n as real);
      hide Times, Shifted;
    }
  }

  lemma ShiftStep(x: real, c: real, sum: real, n: real)
    ensures Times(x - c, x - c) - Times(2.0 * c, sum) + Times(n, c * c)
      == Times(x, x) - Times(2.0 * c, sum + x) + Times(n + 1.0, c * c)
  {}

  function Square(x: real): real { Times(x, x) }

  lemma {:induction false} DotAsSum(xs: seq<real>)
    ensures Dot(xs, xs) == Sum(Map(Square, xs))
  {
    if xs != [] {
      DotAsSum(xs[..|xs|-1]);
      SumAppend(Map(Square, xs[..|xs|-1]), Square(xs[|xs|-1]));
    }
  }

  /** Any ranking has mean (n + 1) / 2 and the same scatter about it. */
  lemma RankMoments(values: seq<real>)
    requires values != []
    ensures var ranks, n := RankSeq(values), |values| as real;
      Mean(ranks) == (n + 1.0) / 2.0 && Dot(Shifted(ranks, Mean(ranks)), Shifted(ranks, Mean(ranks))) == Scatter(n)
  {
    hide RankSeq, Dot, Sum, PowerSum, Scatter, Times;
    var ranks, n := RankSeq(values), |values| as real;
    RanksPermute(values);
    SumPermutation(ranks, Naturals(|values|));
    MapPermutation(Square, ranks, Naturals(|values|));
    SumPermutation(Map(Square, ranks), Map(Square, Naturals(|values|)));
    DotAsSum(ranks);
    DotAsSum(Naturals(|values|));
    NaturalSums(|values|);
    MomentsOf(ranks, n, Mean(ranks));
  }

  lemma MeanOfNaturals(n: real, s: real)
    requires n > 0.0 && s == Times(n, n + 1.0) / 2.0
    ensures s / n == (n + 1.0) / 2.0
  {
    assert ((n + 1.0) / 2.0) * n == n * (n + 1.0) / 2.0;
    QuotientIs(s, n, (n + 1.0) / 2.0);
  }

  lemma MomentsOf(ranks: seq<real>, n: real, m: real)
    requires n > 0.0 && |ranks| as real == n && m == Mean(ranks)
    requires Sum(ranks) == Times(n, n + 1.0) / 2.0 && Dot(ranks, ranks) == PowerSum(n)
    ensures m == (n + 1.0) / 2.0
    ensures Dot(Shifted(ranks, m), Shifted(ranks, m)) == Scatter(n)
  {
    hide Dot, Sum, PowerSum, Scatter, Times;
    MeanOfNaturals(n, Sum(ranks));
    DotShifted(ranks, m);
    ScatterValue(n, m, Sum(ranks));
  }

  lemma ScatterValue(n: real, m: real, s: real)
    requires m == (n + 1.0) / 2.0 && s == Times(n, n + 1.0) / 2.0
    ensures PowerSum(n) - Times(2.0 * m, s) + Times(n, m * m) == Scatter(n)
  {
    var q := n * n;
    var c := n * q;
    assert s == (q + n) / 2.0;
    assert n * s == (c + q) / 2.0;
    assert Times(2.0 * m, s) == n * s + s;
    assert m * m == (q + 2.0 * n + 1.0) / 4.0;
    assert Times(n, m * m) == (c + 2.0 * q + n) / 4.0;
    assert Cubic(n) == c - n;
    hide Times, PowerSum, Cubic;
  }

  lemma ScatterPositive(n: real)
    requires n >= 2.0
    ensures Scatter(n) > 0.0
  {
    assert n * n >= 4.0;
    assert n * (n * n - 1.0) > 0.0;
  }

  // ----- the coefficient -----

  function Differences(xs: seq<real>, ys: seq<real>): seq<real>
    requires |xs| == |ys|
  {
    seq(|xs|, i requires 0 <= i < |xs| => xs[i] - ys[i])
  }

  lemma {:induction false} DotDifferences(xs: seq<real>, ys: seq<real>)
    requires |xs| == |ys|
    ensures Dot(Differences(xs, ys), Differences(xs, ys)) == Dot(xs, xs) + Dot(ys, ys) - 2.0 * Dot(xs, ys)
  {
    if xs != [] {
      var n := |xs| - 1;
      assert Differences(xs, ys)[..n] == Differences(xs[..n], ys[..n]);
      DotDifferences(xs[..n], ys[..n]);
    }
  }

  /** Sum of squared rank differences. */
  ghost function RankGap(left: seq<real>, right: seq<real>): real
    requires |left| == |right|
  {
    var d := Differences(RankSeq(left), RankSeq(right));
    Dot(d, d)
  }

  /** The textbook coefficient: 1 - 6 sum d^2 / (n (n^2 - 1)). */
  ghost function Classic(left: seq<real>, right: seq<real>): real
    requires |left| == |right| >= 2
  {
    ScatterPositive(|left| as real);
    1.0 - RankGap(left, right) / (2.0 * Scatter(|left| as real))
  }

  lemma ClassicFormula(left: seq<real>, right: seq<real>)
    requires |left| == |right| >= 2
    ensures var n := |left| as real;
      Cubic(n) > 0.0 && Classic(left, right) == 1.0 - 6.0 * RankGap(left, right) / Cubic(n)
  {
    var n := |left| as real;
    ScatterPositive(n);
    hide RankGap, Cubic;
    SixOver(RankGap(left, right), Cubic(n));
  }

  lemma SixOver(g: real, d: real)
    requires d > 0.0
    ensures g / (2.0 * (d / 12.0)) == 6.0 * g / d
  {
    QuotientIs(g, d / 6.0, 6.0 * (g / d));
    QuotientIs(6.0 * g, d, 6.0 * (g / d));
  }

  ghost function Centred(values: seq<real>): seq<real> { Shifted(RankSeq(values), Mean(RankSeq(values))) }

  lemma CrossTerm(left: seq<real>, right: seq<real>)
    requires |left| == |right| >= 2
    ensures Dot(Centred(left), Centred(left)) == Dot(Centred(right), Centred(right)) == Scatter(|left| as real)
    ensures Dot(Centred(left), Centred(right)) == Scatter(|left| as real) - RankGap(left, right) / 2.0
  {
    hide RankSeq, Dot, Mean, Scatter;
    RankMoments(left);
    RankMoments(right);
    DotDifferences(Centred(left), Centred(right));
    assert Differences(Centred(left), Centred(right)) == Differences(RankSeq(left), RankSeq(right));
  }

  /** The coefficient lies between -1 and 1. */
  lemma ClassicBounded(left: seq<real>, right: seq<real>)
    requires |left| == |right| >= 2
    ensures -1.0 <= Classic(left, right) <= 1.0
  {
    var s, x := Scatter(|left| as real), Dot(Centred(left), Centred(right));
    CrossTerm(left, right);
    ScatterPositive(|left| as real);
    CauchySchwarz(Centred(left), Centred(right));
    SquareOrder(x, s);
    SquareOrder(-x, s);
    Quotient(s, x, RankGap(left, right));
  }

  lemma Quotient(s: real, x: real, g: real)
    requires s > 0.0 && x == s - g / 2.0 && -s <= x <= s
    ensures x / s == 1.0 - g / (2.0 * s) && -1.0 <= x / s <= 1.0
  {
    HalfGap(s, g);
    Quotients(x, 0.0, s);
  }

  /** It is 1 exactly when both metrics rank every candidate alike. */
  lemma PerfectIffSameRanks(left: seq<real>, right: seq<real>)
    requires |left| == |right| >= 2
    ensures Classic(left, right) == 1.0 <==> RankSeq(left) == RankSeq(right)
  {
    ScatterPositive(|left| as real);
    var d := Differences(RankSeq(left), RankSeq(right));
    ZeroSquares(d);
    Quotients(Dot(d, d), 0.0, 2.0 * Scatter(|left| as real));
    assert forall i :: 0 <= i < |left| ==> d[i] == RankSeq(left)[i] - RankSeq(right)[i];
  }

  datatype Outcome = Nothing | Mismatch | Coefficient(value: real)

  /** The product-moment formula on ranks is the textbook coefficient, for every square root:
      its denominator is never zero.  Lists shorter than two give no value, and lists of
      different lengths are an error. */
  method Correlate(left: seq<real>, right: seq<real>, root: real -> real) returns (outcome: Outcome)
    requires IsRoot(root)
    ensures |left| < 2 ==> outcome == Nothing
    ensures 2 <= |left| != |right| ==> outcome == Mismatch
    ensures 2 <= |left| == |right| ==> outcome == Coefficient(Classic(left, right))
    ensures outcome.Coefficient? ==> -1.0 <= outcome.value <= 1.0
  {
    if |left| < 2 {
      return Nothing;
    }
    if |left| != |right| {
      return Mismatch;
    }
    var leftRanks := Ranks(left);
    var rightRanks := Ranks(right);
    hide RankSeq, Dot, Scatter, IsRoot;
    var x, y := Shifted(leftRanks, Mean(leftRanks)), Shifted(rightRanks, Mean(rightRanks));
    var numerator := Dot(x, y);
    var denominator := root(Times(Dot(x, x), Dot(y, y)));
    CrossTerm(left, right);
    ScatterPositive(|left| as real);
    RootOfSquare(root, Scatter(|left| as real));
    ClassicBounded(left, right);
    CoefficientValue(left, right);
    outcome := Coefficient(if denominator != 0.0 then numerator / denominator else 0.0);
  }

  lemma CoefficientValue(left: seq<real>, right: seq<real>)
    requires |left| == |right| >= 2
    ensures Scatter(|left| as real) > 0.0
    ensures Dot(Centred(left), Centred(right)) / Scatter(|left| as real) == Classic(left, right)
  {
    var s := Scatter(|left| as real);
    CrossTerm(left, right);
    ScatterPositive(|left| as real);
    HalfGap(s, RankGap(left, right));
  }

  lemma HalfGap(s: real, g: real)
    requires s > 0.0
    ensures (s - g / 2.0) / s == 1.0 - g / (2.0 * s)
  {
    var q := g / (2.0 * s);
    assert q * (2.0 * s) == g;
    QuotientIs(s - g / 2.0, s, 1.0 - q);
  }
}
