/** Distance between two configurations of a mixed search space: linear, logarithmic,
    categorical and inactive parameters. */
module MixedDistance {
  import opened Sums

  datatype Value = Number(float: real) | Choice(key: nat)

  datatype Rule = Numeric(low: real, high: real, logScale: bool) | Categorical

  datatype Parameter = Parameter(name: string, rule: Rule)

  /** A configuration: the active parameters and their values. */
  type Point = map<string, Value>

  type Space = seq<Parameter>

  const TINY: real := 0.000000000001

  ghost predicate Increasing(log: real -> real) { forall x, y :: 0.0 < x < y ==> log(x) < log(y) }

  /** A numeric rule reads an active value as a number. */
  predicate Typed(p: Point, space: Space) {
    forall i :: 0 <= i < |space| && space[i].rule.Numeric? && space[i].name in p ==> p[space[i].name].Number?
  }

  /** The parameter's active number lies within its bounds. */
  predicate Fits(p: Point, q: Parameter) {
    q.rule.Numeric? && q.name in p ==> p[q.name].Number? && q.rule.low <= p[q.name].float <= q.rule.high
  }

  predicate InDomain(p: Point, space: Space) { forall i :: 0 <= i < |space| ==> Fits(p, space[i]) }

  function Linear(x: real, y: real, low: real, high: real): real { Abs(x - y) / Max(high - low, TINY) }

  function NumericGap(x: real, y: real, rule: Rule, log: real -> real): real
    requires rule.Numeric?
  {
    if rule.logScale && rule.low > 0.0 && x > 0.0 && y > 0.0 then
      // high >= low > 0 on every rule the space holds
      Linear(log(x), log(y), log(rule.low), log(rule.high))
    else
      Linear(x, y, rule.low, rule.high)
  }

  /** The distance along one parameter. */
  function Gap(left: Point, right: Point, p: Parameter, log: real -> real): real
    requires p.rule.Numeric? && p.name in left ==> left[p.name].Number?
    requires p.rule.Numeric? && p.name in right ==> right[p.name].Number?
  {
    if (p.name in left) != (p.name in right) then 1.0
    else if p.name !in left then 0.0
    else if p.rule.Numeric? then NumericGap(left[p.name].float, right[p.name].float, p.rule, log)
    else if left[p.name] == right[p.name] then 0.0 else 1.0
  }

  function Gaps(left: Point, right: Point, space: Space, log: real -> real): seq<real>
    requires Typed(left, space) && Typed(right, space)
  {
    seq(|space|, i requires 0 <= i < |space| => Gap(left, right, space[i], log))
  }

  /** d is the root mean square of xs, or 0 for no coordinates. */
  ghost predicate IsRms(d: real, xs: seq<real>) {
    d >= 0.0 && Times(|xs| as real, Times(d, d)) == Dot(xs, xs) && (xs == [] ==> d == 0.0)
  }

  ghost predicate IsDistance(d: real, left: Point, right: Point, space: Space, log: real -> real) {
    Typed(left, space) && Typed(right, space) && IsRms(d, Gaps(left, right, space, log))
  }

  /** The loop over the space: one appended gap per parameter, branch by branch, then the
      root mean square. */
  method Distance(left: Point, right: Point, space: Space, log: real -> real, root: real -> real) returns (d: real)
    requires Typed(left, space) && Typed(right, space) && IsRoot(root)
    ensures IsDistance(d, left, right, space, log)
  {
    var distances: seq<real> := [];
    for i := 0 to |space|
      invariant |distances| == i && forall j :: 0 <= j < i ==> distances[j] == Gap(left, right, space[j], log)
    {
      var name, rule := space[i].name, space[i].rule;
      if (name in left) != (name in right) {
        distances := distances + [1.0];
        continue;
      }
      if name !in left {
        distances := distances + [0.0];
      } else if rule.Numeric? {
        var low, high, x, y := rule.low, rule.high, left[name].float, right[name].float;
        if rule.logScale && low > 0.0 && x > 0.0 && y > 0.0 {
          low, high, x, y := log(low), log(high), log(x), log(y);
        }
        distances := distances + [Abs(x - y) / Max(high - low, TINY)];
      } else {
        distances := distances + [if left[name] == right[name] then 0.0 else 1.0];
      }
    }
    assert distances == Gaps(left, right, space, log);
    hide Gap, Dot, IsRoot;
    if |distances| > 0 {
      RootMeanSquare(distances, root);
      d := root(Dot(distances, distances) / |distances| as real);
    } else {
      d := 0.0;
    }
  }

  lemma RootMeanSquare(xs: seq<real>, root: real -> real)
    requires xs != [] && IsRoot(root)
    ensures IsRms(root(Dot(xs, xs) / |xs| as real), xs)
  {
    DotNonNegative(xs);
    var q := Dot(xs, xs) / |xs| as real;
    Quotients(Dot(xs, xs), 0.0, |xs| as real);
    assert Times(root(q), root(q)) == q;
    hide Dot, IsRoot;
  }

  // ----- one coordinate -----

  lemma LinearTriangle(x: real, y: real, z: real, low: real, high: real)
    ensures 0.0 <= Linear(x, z, low, high) <= Linear(x, y, low, high) + Linear(y, z, low, high)
  {}

  lemma GapBounded(a: Point, b: Point, p: Parameter, log: real -> real)
    requires Fits(a, p) && Fits(b, p) && Increasing(log)
    ensures 0.0 <= Gap(a, b, p, log) <= 1.0
  {}

  lemma GapTriangle(a: Point, b: Point, c: Point, p: Parameter, log: real -> real)
    requires Fits(a, p) && Fits(b, p) && Fits(c, p) && Increasing(log)
    ensures 0.0 <= Gap(a, c, p, log) <= Gap(a, b, p, log) + Gap(b, c, p, log)
  {
    GapBounded(a, b, p, log);
    GapBounded(b, c, p, log);
    GapBounded(a, c, p, log);
    if p.name in a && p.name in b && p.name in c && p.rule.Numeric? {
      var x, y, z := a[p.name].float, b[p.name].float, c[p.name].float;
      LinearTriangle(x, y, z, p.rule.low, p.rule.high);
      LinearTriangle(log(x), log(y), log(z), log(p.rule.low), log(p.rule.high));
    }
  }

  /** Both points leave the parameter inactive, or both give it the same value. */
  predicate Agree(a: Point, b: Point, name: string) {
    (name in a <==> name in b) && (name in a && name in b ==> a[name] == b[name])
  }

  lemma GapZero(a: Point, b: Point, p: Parameter, log: real -> real)
    requires Fits(a, p) && Fits(b, p) && Increasing(log)
    ensures Gap(a, b, p, log) == 0.0 <==> Agree(a, b, p.name)
  {
    if p.name in a && p.name in b && p.rule.Numeric? {
      var x, y := a[p.name].float, b[p.name].float;
    }
  }

  // ----- the distance -----

  /** A distance exists for one value only. */
  lemma RmsUnique(d: real, e: real, xs: seq<real>)
    requires IsRms(d, xs) && IsRms(e, xs)
    ensures d == e
  {
    hide Dot;
    if xs != [] {
      SquareOrder(d, e);
      SquareOrder(e, d);
    }
  }

  lemma RmsMonotone(d: real, e: real, xs: seq<real>, ys: seq<real>)
    requires IsRms(d, xs) && IsRms(e, ys) && |xs| == |ys|
    requires Dot(xs, xs) <= Dot(ys, ys)
    ensures d <= e
  {
    hide Dot;
    if xs != [] {
      SquareOrder(d, e);
    }
  }

  /** The distance of two configurations in the domain lies in [0, 1]. */
  lemma DistanceIsBounded(d: real, left: Point, right: Point, space: Space, log: real -> real)
    requires InDomain(left, space) && InDomain(right, space) && Increasing(log)
    requires IsDistance(d, left, right, space, log)
    ensures 0.0 <= d <= 1.0
  {
    hide Fits, Gap, Dot;
    var xs := Gaps(left, right, space, log);
    var ones := seq(|xs|, i => 1.0);
    forall i | 0 <= i < |xs| ensures 0.0 <= xs[i] <= ones[i] {
      GapBounded(left, right, space[i], log);
    }
    DotMonotone(xs, ones);
    Ones(ones);
    if xs != [] {
      assert Times(1.0, 1.0) == 1.0;
      RmsMonotone(d, 1.0, xs, ones);
    }
  }

  lemma Ones(ones: seq<real>)
    requires forall i :: 0 <= i < |ones| ==> ones[i] == 1.0
    ensures Dot(ones, ones) == Times(|ones| as real, Times(1.0, 1.0))
  {
    OnesDot(ones);
  }

  lemma {:induction false} OnesDot(ones: seq<real>)
    requires forall i :: 0 <= i < |ones| ==> ones[i] == 1.0
    ensures Dot(ones, ones) == |ones| as real
  {
    if ones != [] {
      OnesDot(ones[..|ones|-1]);
    }
  }

  /** It does not depend on their order. */
  lemma DistanceIsSymmetric(d: real, left: Point, right: Point, space: Space, log: real -> real)
    requires InDomain(left, space) && InDomain(right, space)
    ensures IsDistance(d, left, right, space, log) <==> IsDistance(d, right, left, space, log)
  {
    forall i | 0 <= i < |space| ensures Gap(left, right, space[i], log) == Gap(right, left, space[i], log) {
      assert Fits(left, space[i]) && Fits(right, space[i]);
    }
    assert Gaps(left, right, space, log) == Gaps(right, left, space, log);
  }

  /** It is 0 exactly when they agree on every parameter of the space. */
  lemma ZeroDistance(d: real, left: Point, right: Point, space: Space, log: real -> real)
    requires InDomain(left, space) && InDomain(right, space) && Increasing(log)
    requires IsDistance(d, left, right, space, log)
    ensures d == 0.0 <==> forall i :: 0 <= i < |space| ==> Agree(left, right, space[i].name)
  {
    hide Fits, Gap, Dot, Agree;
    var xs := Gaps(left, right, space, log);
    forall i | 0 <= i < |space| ensures xs[i] == 0.0 <==> Agree(left, right, space[i].name) {
      GapZero(left, right, space[i], log);
    }
    ZeroSquares(xs);
    ZeroRms(d, xs);
  }

  lemma ZeroRms(d: real, xs: seq<real>)
    requires IsRms(d, xs)
    ensures d == 0.0 <==> Dot(xs, xs) == 0.0
  {
    if xs == [] {
    } else if d == 0.0 {
      assert Times(0.0, 0.0) == 0.0 && Times(|xs| as real, 0.0) == 0.0;
    } else {
      SameSigns(d, d);
      SameSigns(|xs| as real, Times(d, d));
    }
  }

  /** The triangle inequality. */
  lemma TriangleInequality(ab: real, bc: real, ac: real, a: Point, b: Point, c: Point, space: Space, log: real -> real)
    requires InDomain(a, space) && InDomain(b, space) && InDomain(c, space) && Increasing(log)
    requires IsDistance(ab, a, b, space, log) && IsDistance(bc, b, c, space, log) && IsDistance(ac, a, c, space, log)
    ensures ac <= ab + bc
  {
    hide Fits, Gap, Dot;
    var xs, ys, zs := Gaps(a, b, space, log), Gaps(b, c, space, log), Gaps(a, c, space, log);
    var sum := seq(|space|, i requires 0 <= i < |space| => xs[i] + ys[i]);
    forall i | 0 <= i < |space| ensures 0.0 <= zs[i] <= sum[i] {
      GapTriangle(a, b, c, space[i], log);
    }
    DotMonotone(zs, sum);
    Minkowski(ab, bc, xs, ys, sum);
    ByTheSquares(ac, ab + bc, zs, sum);
  }

  lemma ByTheSquares(d: real, e: real, xs: seq<real>, ys: seq<real>)
    requires IsRms(d, xs) && e >= 0.0 && |xs| == |ys|
    requires Dot(xs, xs) <= Dot(ys, ys) <= Times(|ys| as real, Times(e, e))
    ensures d <= e
  {
    hide Dot;
    if xs != [] {
      SquareOrder(d, e);
    }
  }

  /** Root mean squares are subadditive. */
  lemma Minkowski(d: real, e: real, xs: seq<real>, ys: seq<real>, sum: seq<real>)
    requires IsRms(d, xs) && IsRms(e, ys) && |xs| == |ys| == |sum|
    requires forall i :: 0 <= i < |sum| ==> sum[i] == xs[i] + ys[i]
    ensures Dot(sum, sum) <= Times(|sum| as real, Times(d + e, d + e))
  {
    hide Dot, Times;
    SquareOfSum(xs, ys, sum);
    CrossRms(d, e, xs, ys);
    ExpandSquare(|xs| as real, d, e);
  }

  lemma CrossRms(d: real, e: real, xs: seq<real>, ys: seq<real>)
    requires IsRms(d, xs) && IsRms(e, ys) && |xs| == |ys|
    ensures Dot(xs, ys) <= Times(|xs| as real, Times(d, e))
  {
    hide Dot, Times;
    CauchySchwarz(xs, ys);
    CrossBound(|xs| as real, d, e, Dot(xs, ys), Dot(xs, xs), Dot(ys, ys));
  }

  lemma {:induction false} SquareOfSum(xs: seq<real>, ys: seq<real>, sum: seq<real>)
    requires |xs| == |ys| == |sum|
    requires forall i :: 0 <= i < |sum| ==> sum[i] == xs[i] + ys[i]
    ensures Dot(sum, sum) == Dot(xs, xs) + 2.0 * Dot(xs, ys) + Dot(ys, ys)
  {
    if sum != [] {
      var n := |sum| - 1;
      SquareOfSum(xs[..n], ys[..n], sum[..n]);
    }
  }

  lemma ExpandSquare(n: real, d: real, e: real)
    ensures Times(n, Times(d + e, d + e)) == Times(n, Times(d, d)) + 2.0 * Times(n, Times(d, e)) + Times(n, Times(e, e))
  {}

  lemma CrossBound(n: real, d: real, e: real, x: real, p: real, q: real)
    requires n >= 0.0 && d >= 0.0 && e >= 0.0
    requires p == Times(n, Times(d, d)) && q == Times(n, Times(e, e)) && x * x <= p * q
    ensures x <= Times(n, Times(d, e))
  {
    var bound := Times(n, Times(d, e));
    assert bound * bound == p * q;
    assert d * e >= 0.0;
    assert bound >= 0.0;
    SquareOrder(x, bound);
  }
}
