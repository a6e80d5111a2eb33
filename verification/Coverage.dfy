/** Search-space coverage: how far reference configurations lie from the nearest observed
    ones, and how the summaries of those distances react to more evidence. */
module Coverage {
  import opened Sums
  import opened Sorting
  import opened MixedDistance

  /** A candidate's configuration, and whether its score is a number. */
  datatype Candidate<P> = Candidate(parameters: P, scored: bool)

  type Distance<!P> = (P, P) -> real

  function Observed<P>(candidates: seq<Candidate<P>>, valid: P -> bool): seq<P> {
    if candidates == [] then []
    else
      var last := candidates[|candidates|-1];
      var rest := Observed(candidates[..|candidates|-1], valid);
      if valid(last.parameters) then rest + [last.parameters] else rest
  }

  function FullFidelity<P>(candidates: seq<Candidate<P>>, valid: P -> bool): seq<P> {
    if candidates == [] then []
    else
      var last := candidates[|candidates|-1];
      var rest := FullFidelity(candidates[..|candidates|-1], valid);
      if last.scored && valid(last.parameters) then rest + [last.parameters] else rest
  }

  lemma {:induction false} FullIsObserved<P>(candidates: seq<Candidate<P>>, valid: P -> bool)
    ensures forall p :: p in FullFidelity(candidates, valid) ==> p in Observed(candidates, valid)
  {
    if candidates != [] {
      FullIsObserved(candidates[..|candidates|-1], valid);
    }
  }

  ghost function Parameters<P>(): Candidate<P> -> P { (c: Candidate<P>) => c.parameters }

  ghost function IsValid<P>(valid: P -> bool): Candidate<P> -> bool { (c: Candidate<P>) => valid(c.parameters) }

  ghost function IsScored<P>(valid: P -> bool): Candidate<P> -> bool {
    (c: Candidate<P>) => c.scored && valid(c.parameters)
  }

  /** Observed are the configurations of the valid candidates in order, at full fidelity those of the
      scored ones among them. */
  lemma {:induction false} ObservedExactly<P>(candidates: seq<Candidate<P>>, valid: P -> bool)
    ensures Observed(candidates, valid) == Map(Parameters(), Filter(IsValid(valid), candidates))
    ensures FullFidelity(candidates, valid) == Map(Parameters(), Filter(IsScored(valid), candidates))
  {
    if candidates != [] {
      var n := |candidates| - 1;
      ObservedExactly(candidates[..n], valid);
      DropAppended(Filter(IsValid(valid), candidates[..n]), candidates[n]);
      DropAppended(Filter(IsScored(valid), candidates[..n]), candidates[n]);
    }
  }

  // ----- nearest distances -----

  function Closest<P>(point: P, observed: seq<P>, distance: Distance<P>): (d: real)
    requires observed != []
    ensures exists k :: 0 <= k < |observed| && d == distance(point, observed[k])
    ensures forall k :: 0 <= k < |observed| ==> d <= distance(point, observed[k])
  {
    var n := |observed| - 1;
    var here := distance(point, observed[n]);
    if n == 0 then here
    else
      var before := Closest(point, observed[..n], distance);
      if here < before then here else before
  }

  function Nearest<P>(reference: seq<P>, observed: seq<P>, distance: Distance<P>): seq<real> {
    if observed == [] then []
    else seq(|reference|, i requires 0 <= i < |reference| => Closest(reference[i], observed, distance))
  }

  /** More observed configurations never bring a larger distance. */
  lemma ClosestIsAntitone<P>(point: P, fewer: seq<P>, more: seq<P>, distance: Distance<P>)
    requires fewer != [] && forall p :: p in fewer ==> p in more
    ensures more != [] && Closest(point, more, distance) <= Closest(point, fewer, distance)
  {
    assert fewer[0] in more;
    var d := Closest(point, fewer, distance);
    var k :| 0 <= k < |fewer| && d == distance(point, fewer[k]);
    assert fewer[k] in more;
  }

  /** On the configurations of a domain. */
  ghost predicate PseudoMetric<P(!new)>(domain: P -> bool, distance: Distance<P>) {
    && (forall p, q :: domain(p) && domain(q) ==> distance(p, q) == distance(q, p) >= 0.0)
    && (forall p :: domain(p) ==> distance(p, p) == 0.0)
    && (forall p, q, r :: domain(p) && domain(q) && domain(r) ==> distance(p, r) <= distance(p, q) + distance(q, r))
  }

  /** The nearest distance moves no faster than the configuration, and is 0 at every
      observed configuration. */
  lemma ClosestIsLipschitz<P(!new)>(domain: P -> bool, p: P, q: P, observed: seq<P>, distance: Distance<P>)
    requires observed != [] && PseudoMetric(domain, distance)
    requires domain(p) && domain(q) && forall k :: 0 <= k < |observed| ==> domain(observed[k])
    ensures Closest(p, observed, distance) <= Closest(q, observed, distance) + distance(p, q)
    ensures p in observed ==> Closest(p, observed, distance) == 0.0
  {
    var d := Closest(q, observed, distance);
    var k :| 0 <= k < |observed| && d == distance(q, observed[k]);
    assert distance(p, observed[k]) <= distance(p, q) + distance(q, observed[k]);
    var e := Closest(p, observed, distance);
    assert e >= 0.0;
    assert p in observed ==> e <= distance(p, p);
  }

  ghost function Within(space: Space): Point -> bool { p => InDomain(p, space) }

  /** The distance of a mixed search space. */
  ghost predicate Measures(distance: Distance<Point>, space: Space, log: real -> real) {
    forall p, q :: InDomain(p, space) && InDomain(q, space) ==> IsDistance(distance(p, q), p, q, space, log)
  }

  /** That distance is a pseudo-metric on the configurations of the space. */
  lemma MixedIsPseudoMetric(distance: Distance<Point>, space: Space, log: real -> real)
    requires Measures(distance, space, log) && Increasing(log)
    ensures PseudoMetric(Within(space), distance)
  {
    hide InDomain, IsDistance;
    forall p, q | InDomain(p, space) && InDomain(q, space) ensures distance(p, q) == distance(q, p) >= 0.0 {
      SameEitherWay(distance, space, log, p, q);
    }
    forall p | InDomain(p, space) ensures distance(p, p) == 0.0 {
      ZeroDistance(distance(p, p), p, p, space, log);
    }
    forall p, q, r | InDomain(p, space) && InDomain(q, space) && InDomain(r, space)
      ensures distance(p, r) <= distance(p, q) + distance(q, r)
    {
      TriangleInequality(distance(p, q), distance(q, r), distance(p, r), p, q, r, space, log);
    }
  }

  lemma SameEitherWay(distance: Distance<Point>, space: Space, log: real -> real, p: Point, q: Point)
    requires Measures(distance, space, log) && Increasing(log) && InDomain(p, space) && InDomain(q, space)
    ensures distance(p, q) == distance(q, p) >= 0.0
  {
    DistanceIsSymmetric(distance(p, q), p, q, space, log);
    DistanceIsBounded(distance(p, q), p, q, space, log);
    RmsUnique(distance(p, q), distance(q, p), Gaps(q, p, space, log));
    hide InDomain, Gaps, IsRms;
  }

  // ----- summaries -----

  function Median(ordered: seq<real>): real
    requires ordered != []
  {
    var n := |ordered|;
    if n % 2 == 1 then ordered[n / 2] else (ordered[n / 2 - 1] + ordered[n / 2]) / 2.0
  }

  function Greatest(xs: seq<real>): (m: real)
    requires xs != []
    ensures m in xs && forall x :: x in xs ==> x <= m
  {
    var n := |xs| - 1;
    SplitLast(xs);
    if n == 0 then xs[0]
    else
      var before := Greatest(xs[..n]);
      if before < xs[n] then xs[n] else before
  }

  datatype Summary = Missing | Summary(median: real, p90: real, maximum: real)

  function Summarise(values: seq<real>): Summary {
    var ordered := Sorted(AtMost, values);
    SortedIsSorted(AtMost, values);
    if ordered == [] then Missing
    else Summary(Median(ordered), ordered[9 * (|ordered| - 1) / 10], Greatest(ordered))
  }

  function Reaches(v: real): real -> real { x => if x <= v then 1.0 else 0.0 }

  /** In an ascending list, the entries not above v are the ones before the first entry above v. */
  lemma {:induction false} CountUpTo(xs: seq<real>, m: nat, k: nat, v: real)
    requires Ascending(AtMost, xs) && k < |xs| && m <= |xs|
    ensures xs[k] <= v && k < m ==> SumBy(Reaches(v), xs[..m]) >= (k + 1) as real
    ensures xs[k] <= v && m <= k ==> SumBy(Reaches(v), xs[..m]) == m as real
    ensures v < xs[k] ==> SumBy(Reaches(v), xs[..m]) <= k as real
  {
    if m > 0 {
      CountUpTo(xs, m - 1, k, v);
      assert xs[..m] == xs[..m-1] + [xs[m-1]];
      SumByAppend(Reaches(v), xs[..m-1], xs[m-1]);
      PrefixCount(xs, m - 1, v);
      assert m - 1 <= k ==> AtMost(xs[m-1], xs[k]) || m - 1 == k;
      assert k < m - 1 ==> AtMost(xs[k], xs[m-1]);
    }
  }

  lemma {:induction false} PrefixCount(xs: seq<real>, m: nat, v: real)
    requires m <= |xs|
    ensures 0.0 <= SumBy(Reaches(v), xs[..m]) <= m as real
  {
    if m > 0 {
      PrefixCount(xs, m - 1, v);
      assert xs[..m] == xs[..m-1] + [xs[m-1]];
      SumByAppend(Reaches(v), xs[..m-1], xs[m-1]);
    }
  }

  lemma {:induction false} FewerReach(xs: seq<real>, ys: seq<real>, v: real)
    requires |xs| == |ys| && forall i :: 0 <= i < |xs| ==> xs[i] <= ys[i]
    ensures SumBy(Reaches(v), ys) <= SumBy(Reaches(v), xs)
  {
    if xs != [] {
      FewerReach(xs[..|xs|-1], ys[..|xs|-1], v);
    }
  }

  /** Smaller values have smaller order statistics, whatever the two orders are. */
  lemma OrderStatistics(xs: seq<real>, ys: seq<real>, k: nat)
    requires |xs| == |ys| && k < |xs| && forall i :: 0 <= i < |xs| ==> xs[i] <= ys[i]
    ensures |Sorted(AtMost, xs)| == |Sorted(AtMost, ys)| == |xs|
    ensures Sorted(AtMost, xs)[k] <= Sorted(AtMost, ys)[k]
  {
    hide Sorted, SumBy;
    SortedIsSorted(AtMost, xs);
    SortedIsSorted(AtMost, ys);
    hide TotalPreorder, Ascending;
    var v := Sorted(AtMost, ys)[k];
    RanksUpTo(ys, Sorted(AtMost, ys), k, v);
    RanksUpTo(xs, Sorted(AtMost, xs), k, v);
    FewerReach(xs, ys, v);
  }

  lemma RanksUpTo(xs: seq<real>, ordered: seq<real>, k: nat, v: real)
    requires Ascending(AtMost, ordered) && multiset(ordered) == multiset(xs) && k < |ordered|
    ensures ordered[k] <= v ==> SumBy(Reaches(v), xs) >= (k + 1) as real
    ensures v < ordered[k] ==> SumBy(Reaches(v), xs) <= k as real
  {
    hide SumBy;
    CountUpTo(ordered, |ordered|, k, v);
    assert ordered[..|ordered|] == ordered;
    SumByPermutation(Reaches(v), xs, ordered);
  }

  /** v is the least number that more than k of the values do not exceed. */
  ghost predicate LeastAbove(values: seq<real>, k: nat, v: real) {
    && SumBy(Reaches(v), values) > k as real
    && forall w :: w < v ==> SumBy(Reaches(w), values) <= k as real
  }

  /** The summary by counting: the maximum, the value that more than 0.9 (n - 1) values do not exceed, and
      the mean of the two middle ones, which are one for an odd number of values. */
  lemma SummaryMeans(values: seq<real>) returns (low: real, high: real)
    requires values != []
    ensures var s, n := Summarise(values), |values|;
      && s.Summary? && s.median == (low + high) / 2.0
      && LeastAbove(values, (n - 1) / 2, low) && LeastAbove(values, n / 2, high)
      && LeastAbove(values, 9 * (n - 1) / 10, s.p90) && LeastAbove(values, n - 1, s.maximum)
  {
    var n := |values|;
    var ordered := SummaryOf(values);
    hide Summarise, LeastAbove, Ascending;
    low, high := ordered[(n - 1) / 2], ordered[n / 2];
    StandsAt(values, ordered, (n - 1) / 2);
    StandsAt(values, ordered, n / 2);
    StandsAt(values, ordered, 9 * (n - 1) / 10);
    StandsAt(values, ordered, n - 1);
  }

  lemma SummaryOf(values: seq<real>) returns (ordered: seq<real>)
    requires values != []
    ensures |ordered| == |values| && Ascending(AtMost, ordered) && multiset(ordered) == multiset(values)
    ensures var n := |values|;
      Summarise(values) ==
      Summary((ordered[(n - 1) / 2] + ordered[n / 2]) / 2.0, ordered[9 * (n - 1) / 10], ordered[n - 1])
  {
    ordered := Sorted(AtMost, values);
    SortedIsSorted(AtMost, values);
    hide Sorted;
    LastIsGreatest(ordered);
    hide TotalPreorder, Ascending, Greatest;
    MiddleIsMedian(ordered);
  }

  lemma MiddleIsMedian(ordered: seq<real>)
    requires ordered != []
    ensures var n := |ordered|; Median(ordered) == (ordered[(n - 1) / 2] + ordered[n / 2]) / 2.0
  {
    var n := |ordered|;
    assert n % 2 == 1 ==> (n - 1) / 2 == n / 2;
    assert n % 2 == 0 ==> (n - 1) / 2 == n / 2 - 1;
  }

  lemma LastIsGreatest(ordered: seq<real>)
    requires ordered != [] && Ascending(AtMost, ordered)
    ensures Greatest(ordered) == ordered[|ordered| - 1]
  {
    var n, m := |ordered| - 1, Greatest(ordered);
    var k :| 0 <= k < |ordered| && ordered[k] == m;
    assert k < n ==> AtMost(ordered[k], ordered[n]);
    assert ordered[n] in ordered;
  }

  lemma StandsAt(values: seq<real>, ordered: seq<real>, k: nat)
    requires Ascending(AtMost, ordered) && multiset(ordered) == multiset(values) && k < |ordered|
    ensures LeastAbove(values, k, ordered[k])
  {
    hide Ascending, SumBy;
    RanksUpTo(values, ordered, k, ordered[k]);
    forall w | w < ordered[k] ensures SumBy(Reaches(w), values) <= k as real {
      RanksUpTo(values, ordered, k, w);
    }
  }

  lemma SmallerSummary(xs: seq<real>, ys: seq<real>)
    requires |xs| == |ys| > 0 && forall i :: 0 <= i < |xs| ==> xs[i] <= ys[i]
    ensures Summarise(xs).Summary? && Summarise(ys).Summary?
    ensures Summarise(xs).median <= Summarise(ys).median
    ensures Summarise(xs).p90 <= Summarise(ys).p90
    ensures Summarise(xs).maximum <= Summarise(ys).maximum
  {
    hide Sorted, Ascending, TotalPreorder;
    SortedLength(xs);
    SortedLength(ys);
    forall k | 0 <= k < |xs| ensures Sorted(AtMost, xs)[k] <= Sorted(AtMost, ys)[k] {
      OrderStatistics(xs, ys, k);
    }
    GreatestSorted(xs);
    GreatestSorted(ys);
  }

  lemma SortedLength(xs: seq<real>)
    ensures |Sorted(AtMost, xs)| == |xs|
  {
    SortedIsSorted(AtMost, xs);
  }

  lemma GreatestSorted(xs: seq<real>)
    requires xs != []
    ensures |Sorted(AtMost, xs)| == |xs| && Greatest(Sorted(AtMost, xs)) == Sorted(AtMost, xs)[|xs| - 1]
  {
    SortedIsSorted(AtMost, xs);
    var ordered := Sorted(AtMost, xs);
    var m := Greatest(ordered);
    var k :| 0 <= k < |ordered| && ordered[k] == m;
    assert k < |xs| - 1 ==> AtMost(ordered[k], ordered[|xs| - 1]);
    assert ordered[|xs| - 1] in ordered;
  }

  /** Coverage is antitone in evidence: with any scored configuration, every attempted
      distance and every summary of them is at most the full-fidelity one. */
  lemma AttemptedCoversMore<P>(candidates: seq<Candidate<P>>, valid: P -> bool, reference: seq<P>,
      distance: Distance<P>)
    requires FullFidelity(candidates, valid) != [] && reference != []
    ensures var attempted := Summarise(Nearest(reference, Observed(candidates, valid), distance));
      var full := Summarise(Nearest(reference, FullFidelity(candidates, valid), distance));
      && attempted.Summary? && full.Summary?
      && attempted.median <= full.median && attempted.p90 <= full.p90 && attempted.maximum <= full.maximum
  {
    hide Summarise, Closest;
    FullIsObserved(candidates, valid);
    var observed, full := Observed(candidates, valid), FullFidelity(candidates, valid);
    ClosestIsAntitone(reference[0], full, observed, distance);
    forall i | 0 <= i < |reference|
      ensures Closest(reference[i], observed, distance) <= Closest(reference[i], full, distance)
    {
      ClosestIsAntitone(reference[i], full, observed, distance);
    }
    SmallerSummary(Nearest(reference, observed, distance), Nearest(reference, full, distance));
  }

  /** A summary is missing exactly when nothing was observed or nothing is compared. */
  lemma MissingExactly<P>(reference: seq<P>, observed: seq<P>, distance: Distance<P>)
    ensures Summarise(Nearest(reference, observed, distance)).Missing? <==> observed == [] || reference == []
  {
    SortedIsSorted(AtMost, Nearest(reference, observed, distance));
  }

  // ----- grading against random designs -----

  datatype Quality = Insufficient | Poor | Moderate | Good

  function Level(q: Quality): nat { if q.Insufficient? then 0 else if q.Poor? then 1 else if q.Moderate? then 2 else 3 }

  function NotBelow(baselines: seq<real>, median: real): nat {
    if baselines == [] then 0
    else NotBelow(baselines[..|baselines|-1], median) + (if baselines[|baselines|-1] >= median then 1 else 0)
  }

  function Percentile(baselines: seq<real>, median: real): real
    requires baselines != []
  {
    NotBelow(baselines, median) as real / |baselines| as real
  }

  function Grade(percentile: real, median: real): Quality {
    if percentile >= 0.67 && median <= 0.3 then Good
    else if percentile >= 0.33 && median <= 0.5 then Moderate
    else Poor
  }

  lemma {:induction false} NotBelowIsAntitone(baselines: seq<real>, low: real, high: real)
    requires low <= high
    ensures NotBelow(baselines, high) <= NotBelow(baselines, low) <= |baselines|
  {
    if baselines != [] {
      NotBelowIsAntitone(baselines[..|baselines|-1], low, high);
    }
  }

  /** The baseline designs that cover no better. */
  ghost function NoBetter(baselines: seq<real>, median: real): set<nat> {
    set i: nat | i < |baselines| && median <= baselines[i]
  }

  lemma {:induction false} NotBelowIsSize(baselines: seq<real>, median: real)
    ensures NotBelow(baselines, median) == |NoBetter(baselines, median)|
  {
    if baselines != [] {
      var n := |baselines| - 1;
      NotBelowIsSize(baselines[..n], median);
      assert NoBetter(baselines, median) ==
        NoBetter(baselines[..n], median) + (if median <= baselines[n] then {n} else {});
    }
  }

  /** Good coverage beats 67 in 100 baseline designs with a median of at most 0.3; moderate coverage beats 33
      in 100 with one of at most 0.5; any other is poor. */
  lemma GradeMeans(baselines: seq<real>, median: real)
    requires baselines != []
    ensures var grade, better := Grade(Percentile(baselines, median), median), |NoBetter(baselines, median)|;
      && (grade.Good? <==> 100 * better >= 67 * |baselines| && median <= 0.3)
      && (grade.Poor? <==> 100 * better < 33 * |baselines| || median > 0.5)
      && (grade.Good? || grade.Moderate? || grade.Poor?)
  {
    NotBelowIsSize(baselines, median);
    Share(NotBelow(baselines, median), |baselines|, 67);
    Share(NotBelow(baselines, median), |baselines|, 33);
    hide NotBelow, NoBetter;
  }

  lemma Share(k: nat, n: nat, percent: nat)
    requires n > 0
    ensures k as real / n as real >= percent as real / 100.0 <==> 100 * k >= percent * n
  {
    var q := k as real / n as real;
    assert q * n as real == k as real;
    if q >= percent as real / 100.0 {
      assert (q - percent as real / 100.0) * n as real >= 0.0;
    } else {
      assert (percent as real / 100.0 - q) * n as real > 0.0;
    }
  }

  /** Against the same baseline designs, a smaller median distance is never graded worse. */
  lemma GradeIsMonotone(baselines: seq<real>, low: real, high: real)
    requires baselines != [] && low <= high
    ensures 0.0 <= Percentile(baselines, high) <= Percentile(baselines, low) <= 1.0
    ensures Level(Grade(Percentile(baselines, high), high)) <= Level(Grade(Percentile(baselines, low), low))
  {
    NotBelowIsAntitone(baselines, low, high);
    Quotients(NotBelow(baselines, high) as real, NotBelow(baselines, low) as real, |baselines| as real);
    Quotients(NotBelow(baselines, low) as real, 0.0, |baselines| as real);
  }
}
