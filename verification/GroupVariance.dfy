/** Variance explained by a grouping of surrogate predictions: main effects and interactions. */
module GroupVariance {
  import opened Sums
  import opened Grouping

  /** Sum of squared deviations from c. */
  function Spread(xs: seq<real>, c: real): real { Dot(Shifted(xs, c), Shifted(xs, c)) }

  /** Population variance. */
  function PVariance(xs: seq<real>): real { if xs == [] then 0.0 else Spread(xs, Mean(xs)) / |xs| as real }

  lemma {:induction false} SumSplits<L>(labels: seq<L>, xs: seq<real>, l: L)
    requires |labels| == |xs|
    ensures Sum(xs) == Sum(Pick(labels, xs, l)) + Sum(Drop(labels, xs, l))
  {
    if xs != [] {
      var n := |xs| - 1;
      SumSplits(labels[..n], xs[..n], l);
      SumAppend(Pick(labels[..n], xs[..n], l), xs[n]);
      SumAppend(Drop(labels[..n], xs[..n], l), xs[n]);
    }
  }

  lemma {:induction false} SquaresSplit<L>(labels: seq<L>, xs: seq<real>, l: L)
    requires |labels| == |xs|
    ensures Dot(xs, xs) == Dot(Pick(labels, xs, l), Pick(labels, xs, l)) + Dot(Drop(labels, xs, l), Drop(labels, xs, l))
  {
    hide Times;
    if xs != [] {
      var n := |xs| - 1;
      SquaresSplit(labels[..n], xs[..n], l);
    }
  }

  /** Lists that agree in the sum of every label agree in the sum. */
  lemma {:induction false} SameTotals<L>(labels: seq<L>, xs: seq<real>, ys: seq<real>)
    requires |labels| == |xs| == |ys|
    requires forall l :: l in labels ==> Sum(Pick(labels, xs, l)) == Sum(Pick(labels, ys, l))
    ensures Sum(xs) == Sum(ys)
    decreases |labels|
  {
    if labels != [] {
      var l := labels[0];
      SumSplits(labels, xs, l);
      SumSplits(labels, ys, l);
      DropLabel(labels, xs, ys, l);
      forall k | k in Drop(labels, labels, l)
        ensures Sum(Pick(Drop(labels, labels, l), Drop(labels, xs, l), k)) ==
            Sum(Pick(Drop(labels, labels, l), Drop(labels, ys, l), k))
      {
        PickAfterDrop(labels, xs, l, k);
        PickAfterDrop(labels, ys, l, k);
      }
      SameTotals(Drop(labels, labels, l), Drop(labels, xs, l), Drop(labels, ys, l));
    }
  }

  /** A list whose squares are smaller within every label has the smaller sum of squares. */
  lemma {:induction false} SmallerSquares<L>(labels: seq<L>, xs: seq<real>, ys: seq<real>)
    requires |labels| == |xs| == |ys|
    requires forall l :: l in labels ==>
        Dot(Pick(labels, xs, l), Pick(labels, xs, l)) <= Dot(Pick(labels, ys, l), Pick(labels, ys, l))
    ensures Dot(xs, xs) <= Dot(ys, ys)
    decreases |labels|
  {
    hide Dot;
    if labels == [] {
      assert xs == ys;
    } else {
      var l := labels[0];
      SquaresSplit(labels, xs, l);
      SquaresSplit(labels, ys, l);
      DropLabel(labels, xs, ys, l);
      forall k | k in Drop(labels, labels, l)
        ensures Dot(Pick(Drop(labels, labels, l), Drop(labels, xs, l), k),
            Pick(Drop(labels, labels, l), Drop(labels, xs, l), k))
             <= Dot(Pick(Drop(labels, labels, l), Drop(labels, ys, l), k),
                 Pick(Drop(labels, labels, l), Drop(labels, ys, l), k))
      {
        PickAfterDrop(labels, xs, l, k);
        PickAfterDrop(labels, ys, l, k);
      }
      SmallerSquares(Drop(labels, labels, l), Drop(labels, xs, l), Drop(labels, ys, l));
    }
  }

  // ----- group means -----

  function Means<L(==)>(labels: seq<L>, values: seq<real>): seq<real>
    requires |labels| == |values|
  {
    seq(|values|, i requires 0 <= i < |values| => Mean(Pick(labels, values, labels[i])))
  }

  function Explained<L(==)>(labels: seq<L>, values: seq<real>): real
    requires |labels| == |values|
  {
    if |values| > 1 then PVariance(Means(labels, values)) else 0.0
  }

  lemma PickedMeans<L>(labels: seq<L>, values: seq<real>, l: L)
    requires |labels| == |values|
    ensures var picked := Pick(labels, Means(labels, values), l);
      |picked| == |Pick(labels, values, l)| && forall k :: 0 <= k < |picked| ==>
          picked[k] == Mean(Pick(labels, values, l))
  {
    PickLength(labels, values, Means(labels, values), l);
    PickConstant(labels, Means(labels, values), l, Mean(Pick(labels, values, l)));
  }

  lemma {:induction false} SumOfConstant(c: real, xs: seq<real>)
    requires forall i :: 0 <= i < |xs| ==> xs[i] == c
    ensures Sum(xs) == Times(c, |xs| as real)
  {
    SumConstant(c, xs);
  }

  /** Replacing values by their group means keeps the total. */
  lemma MeansKeepTotal<L>(labels: seq<L>, values: seq<real>)
    requires |labels| == |values|
    ensures Sum(Means(labels, values)) == Sum(values)
  {
    forall l | l in labels ensures Sum(Pick(labels, Means(labels, values), l)) == Sum(Pick(labels, values, l)) {
      PickedMeans(labels, values, l);
      SumOfConstant(Mean(Pick(labels, values, l)), Pick(labels, Means(labels, values), l));
      MeanTimesCount(Pick(labels, values, l));
    }
    SameTotals(labels, Means(labels, values), values);
  }

  lemma {:induction false} PickShifted<L>(labels: seq<L>, xs: seq<real>, c: real, l: L)
    requires |labels| == |xs|
    ensures Pick(labels, Shifted(xs, c), l) == Shifted(Pick(labels, xs, l), c)
  {
    if xs != [] {
      var n := |xs| - 1;
      assert Shifted(xs, c)[..n] == Shifted(xs[..n], c);
      PickShifted(labels[..n], xs[..n], c, l);
    }
  }

  /** The mean is the constant with the least sum of squares: n * mean^2 <= sum of squares. */
  lemma ConstantSquares(xs: seq<real>, cs: seq<real>, c: real)
    requires |xs| == |cs| && forall i :: 0 <= i < |cs| ==> cs[i] == c
    requires Sum(xs) == Times(c, |xs| as real)
    ensures Dot(cs, cs) <= Dot(xs, xs)
  {
    hide Times, Dot, Sum;
    DotConstant(xs, cs, c);
    DotConstant(cs, cs, c);
    SumOfConstant(c, cs);
    CauchySchwarz(xs, cs);
    DotNonNegative(cs);
    DotNonNegative(xs);
  }

  lemma {:induction false} DotConstant(xs: seq<real>, cs: seq<real>, c: real)
    requires |xs| == |cs| && forall i :: 0 <= i < |cs| ==> cs[i] == c
    ensures Dot(xs, cs) == Times(c, Sum(xs))
  {
    if xs == [] {
      assert Times(c, 0.0) == 0.0;
    } else {
      var n := |xs| - 1;
      DotConstant(xs[..n], cs[..n], c);
      TimesDistributes(c, Sum(xs[..n]), xs[n]);
      assert Times(xs[n], c) == Times(c, xs[n]);
    }
  }

  /** Law of total variance, first half: around any constant, group means spread no more than
      the values they average. */
  lemma MeansSpreadLess<L>(labels: seq<L>, values: seq<real>, c: real)
    requires |labels| == |values|
    ensures Spread(Means(labels, values), c) <= Spread(values, c)
  {
    var means := Means(labels, values);
    forall l | l in labels
      ensures Dot(Pick(labels, Shifted(means, c), l), Pick(labels, Shifted(means, c), l))
           <= Dot(Pick(labels, Shifted(values, c), l), Pick(labels, Shifted(values, c), l))
    {
      PickShifted(labels, means, c, l);
      PickShifted(labels, values, c, l);
      PickedMeans(labels, values, l);
      GroupSpread(Pick(labels, values, l), Pick(labels, means, l), c);
    }
    SmallerSquares(labels, Shifted(means, c), Shifted(values, c));
  }

  lemma GroupSpread(xs: seq<real>, ms: seq<real>, c: real)
    requires |xs| == |ms| && forall i :: 0 <= i < |ms| ==> ms[i] == Mean(xs)
    ensures Dot(Shifted(ms, c), Shifted(ms, c)) <= Dot(Shifted(xs, c), Shifted(xs, c))
  {
    SumShifted(xs, c);
    MeanTimesCount(xs);
    assert Times(Mean(xs) - c, |xs| as real) == Times(Mean(xs), |xs| as real) - Times(c, |xs| as real);
    ConstantSquares(Shifted(xs, c), Shifted(ms, c), Mean(xs) - c);
  }

  /** The variance explained by any grouping lies between 0 and the whole variance. */
  lemma ExplainedBounds<L>(labels: seq<L>, values: seq<real>)
    requires |labels| == |values|
    ensures 0.0 <= Explained(labels, values) <= PVariance(values)
  {
    var means := Means(labels, values);
    MeansKeepTotal(labels, values);
    MeansSpreadLess(labels, values, Mean(values));
    DotNonNegative(Shifted(means, Mean(means)));
    DotNonNegative(Shifted(values, Mean(values)));
    if |values| > 0 {
      Quotients(Spread(means, Mean(values)), Spread(values, Mean(values)), |values| as real);
    }
  }

  // ----- refinement: pairs of labels -----

  /** Equal fine labels have equal coarse labels. */
  ghost predicate Refines<F, C>(fine: seq<F>, coarse: seq<C>) {
    |fine| == |coarse| && forall i, j :: 0 <= i < |fine| && 0 <= j < |fine| && fine[i] == fine[j] ==>
        coarse[i] == coarse[j]
  }

  lemma {:induction false} PickOrigins<L, T, U>(labels: seq<L>, xs: seq<T>, ys: seq<U>, l: L, k: nat) returns (i: nat)
    requires |labels| == |xs| == |ys| && k < |Pick(labels, xs, l)|
    ensures i < |xs| && labels[i] == l && k < |Pick(labels, ys, l)|
    ensures xs[i] == Pick(labels, xs, l)[k] && ys[i] == Pick(labels, ys, l)[k]
  {
    PickLength(labels, xs, ys, l);
    var n := |xs| - 1;
    PickLength(labels[..n], xs[..n], ys[..n], l);
    if labels[n] == l && k == |Pick(labels, xs, l)| - 1 {
      i := n;
    } else {
      i := PickOrigins(labels[..n], xs[..n], ys[..n], l, k);
    }
  }

  /** Inside a coarse group, a fine group is selected whole. */
  lemma {:induction false} PickInsidePick<F, C, T>(fine: seq<F>, coarse: seq<C>, xs: seq<T>, c: C, f: F)
    requires |fine| == |coarse| == |xs|
    requires forall i :: 0 <= i < |fine| && fine[i] == f ==> coarse[i] == c
    ensures |Pick(coarse, fine, c)| == |Pick(coarse, xs, c)|
    ensures Pick(Pick(coarse, fine, c), Pick(coarse, xs, c), f) == Pick(fine, xs, f)
  {
    PickLength(coarse, fine, xs, c);
    if xs != [] {
      var n := |xs| - 1;
      PickInsidePick(fine[..n], coarse[..n], xs[..n], c, f);
      if coarse[n] == c {
        DropAppended(Pick(coarse[..n], fine[..n], c), fine[n]);
        DropAppended(Pick(coarse[..n], xs[..n], c), xs[n]);
      }
    }
  }

  /** Averaging finely first does not change the total of a coarse group. */
  lemma TowerTotal<F, C>(fine: seq<F>, coarse: seq<C>, values: seq<real>, c: C)
    requires |fine| == |coarse| == |values| && Refines(fine, coarse)
    ensures Sum(Pick(coarse, Means(fine, values), c)) == Sum(Pick(coarse, values, c))
  {
    var labels, inner := Pick(coarse, fine, c), Pick(coarse, values, c);
    PickLength(coarse, fine, values, c);
    PickLength(coarse, Means(fine, values), values, c);
    forall k | 0 <= k < |inner| ensures Pick(coarse, Means(fine, values), c)[k] == Means(labels, inner)[k] {
      var i := PickOrigins(coarse, Means(fine, values), fine, c, k);
      PickInsidePick(fine, coarse, values, c, fine[i]);
    }
    assert Pick(coarse, Means(fine, values), c) == Means(labels, inner);
    MeansKeepTotal(labels, inner);
  }

  lemma TowerMeans<F, C>(fine: seq<F>, coarse: seq<C>, values: seq<real>)
    requires |fine| == |coarse| == |values| && Refines(fine, coarse)
    ensures Means(coarse, Means(fine, values)) == Means(coarse, values)
  {
    forall i | 0 <= i < |values| ensures Means(coarse, Means(fine, values))[i] == Means(coarse, values)[i] {
      TowerTotal(fine, coarse, values, coarse[i]);
      PickLength(coarse, Means(fine, values), values, coarse[i]);
      PickSome(coarse, values, i);
    }
  }

  /** A finer grouping explains at least as much. */
  lemma FinerExplainsMore<F, C>(fine: seq<F>, coarse: seq<C>, values: seq<real>)
    requires |fine| == |coarse| == |values| && Refines(fine, coarse)
    ensures Explained(coarse, values) <= Explained(fine, values)
  {
    if |values| > 1 {
      TowerMeans(fine, coarse, values);
      ExplainedBounds(coarse, Means(fine, values));
    }
  }

  function Zip<A, B>(xs: seq<A>, ys: seq<B>): seq<(A, B)>
    requires |xs| == |ys|
  {
    seq(|xs|, i requires 0 <= i < |xs| => (xs[i], ys[i]))
  }

  function Importance(variance: real, total: real): real { if total > 0.0 then variance / total else 0.0 }

  /** The variance attributed to the interaction of two parameters. */
  function Interaction<A(==), B(==)>(left: seq<A>, right: seq<B>, values: seq<real>): real
    requires |left| == |right| == |values|
  {
    Max(0.0, Explained(Zip(left, right), values) - Explained(left, values) - Explained(right, values))
  }

  /** The pair grouping explains at least as much as either parameter alone, and every main
      effect and interaction importance is a fraction. */
  lemma ImportancesAreFractions<A, B>(left: seq<A>, right: seq<B>, values: seq<real>)
    requires |left| == |right| == |values|
    ensures Explained(Zip(left, right), values) >= Explained(left, values)
    ensures Explained(Zip(left, right), values) >= Explained(right, values)
    ensures 0.0 <= Importance(Explained(left, values), PVariance(values)) <= 1.0
    ensures 0.0 <= Importance(Interaction(left, right, values), PVariance(values)) <= 1.0
    ensures Interaction(left, right, values) <= Explained(Zip(left, right), values)
  {
    FinerExplainsMore(Zip(left, right), left, values);
    FinerExplainsMore(Zip(left, right), right, values);
    ExplainedBounds(left, values);
    ExplainedBounds(right, values);
    ExplainedBounds(Zip(left, right), values);
    if PVariance(values) > 0.0 {
      Quotients(Explained(left, values), 0.0, PVariance(values));
      Quotients(Interaction(left, right, values), 0.0, PVariance(values));
    }
  }

  /** Grouping in a dictionary of lists, then the variance of the group means. */
  method GroupVariance<L(==,!new)>(labels: seq<L>, values: seq<real>) returns (variance: real)
    requires |labels| == |values|
    ensures variance == Explained(labels, values)
    ensures 0.0 <= variance <= PVariance(values)
  {
    hide Pick, Mean, PVariance;
    var grouped: map<L, seq<real>> := map[];
    for i := 0 to |labels|
      invariant Grouped(grouped, labels, values, i)
    {
      GroupedGrows(grouped, labels, values, i);
      var key, value := labels[i], values[i];
      grouped := grouped[key := (if key in grouped then grouped[key] else []) + [value]];
    }
    GroupedWhole(grouped, labels, values);
    var means: seq<real> := [];
    for i := 0 to |labels|
      invariant means == Means(labels, values)[..i]
    {
      means := means + [Mean(grouped[labels[i]])];
    }
    assert means == Means(labels, values);
    ExplainedBounds(labels, values);
    variance := if |means| > 1 then PVariance(means) else 0.0;
  }
}
