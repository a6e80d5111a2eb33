/** Retrospective discovery: the in-place Benjamini-Yekutieli adjustment of p-values and the
    greedy grouping of redundant metrics. */
module ResearchAnalysis {
  import opened Sums
  import opened Sorting

  // ----- the specification of the adjustment, independent of any order -----

  /** 1 + 1/2 + ... + 1/n */
  function Harmonic(n: nat): real { if n == 0 then 0.0 else Harmonic(n - 1) + 1.0 / n as real }

  /** Number of values up to t. */
  function Rank(ps: seq<real>, t: real): nat {
    if ps == [] then 0 else Rank(ps[..|ps|-1], t) + (if ps[|ps|-1] <= t then 1 else 0)
  }

  /** The step-up value of a threshold: t * total * H(total) / #{p <= t}. */
  function StepUp(ps: seq<real>, total: nat, t: real): real
    requires Rank(ps, t) > 0
  {
    Scaled(t, total, Rank(ps, t))
  }

  function Scaled(p: real, total: nat, rank: nat): real
    requires rank > 0
  {
    p * total as real * Harmonic(total) / rank as real
  }

  /** v is the adjusted value of p among ps: the least step-up value of a listed threshold not
      below p, and at most 1. */
  ghost predicate IsAdjusted(ps: seq<real>, total: nat, p: real, v: real) {
    && v <= 1.0
    && (forall j :: 0 <= j < |ps| && ps[j] >= p ==> v <= At(ps, total, j))
    && (v == 1.0 || exists j :: 0 <= j < |ps| && ps[j] >= p && v == At(ps, total, j))
  }

  function At(ps: seq<real>, total: nat, j: nat): real
    requires j < |ps|
  {
    RankPositive(ps, j);
    StepUp(ps, total, ps[j])
  }

  lemma {:induction false} RankPositive(ps: seq<real>, j: nat)
    requires j < |ps|
    ensures Rank(ps, ps[j]) > 0
  {
    if j < |ps| - 1 {
      assert ps[..|ps|-1][j] == ps[j];
      RankPositive(ps[..|ps|-1], j);
    }
  }

  lemma {:induction false} RankBounds(ps: seq<real>, t: real)
    ensures Rank(ps, t) <= |ps|
    ensures (forall i :: 0 <= i < |ps| ==> ps[i] <= t) ==> Rank(ps, t) == |ps|
  {
    if ps != [] {
      RankBounds(ps[..|ps|-1], t);
    }
  }

  /** Adjusted values are unique, and monotone in the p-value. */
  lemma AdjustedIsMonotone(ps: seq<real>, total: nat, p: real, v: real, q: real, w: real)
    requires IsAdjusted(ps, total, p, v) && IsAdjusted(ps, total, q, w) && p <= q
    ensures v <= w
    ensures p == q ==> v == w
  {
    hide At;
  }

  lemma HarmonicAtLeastOne(n: nat)
    requires n > 0
    ensures Harmonic(n) >= 1.0
  {
    if n > 1 {
      HarmonicAtLeastOne(n - 1);
      assert 1.0 / n as real >= 0.0;
    }
  }

  lemma ScaledAbove(p: real, total: nat, rank: nat)
    requires 0.0 <= p && 0 < rank <= total
    ensures Scaled(p, total, rank) >= p
  {
    HarmonicAtLeastOne(total);
    ScaledArithmetic(p, total as real, Harmonic(total), rank as real);
  }

  lemma ScaledArithmetic(p: real, t: real, h: real, r: real)
    requires 0.0 <= p && 0.0 < r <= t && h >= 1.0
    ensures p * t * h / r >= p
  {
    Chain(p, t, h);
    assert p * t >= p * r;
  }

  lemma Chain(p: real, t: real, h: real)
    requires 0.0 <= p && 0.0 <= t && h >= 1.0
    ensures p * t * h >= p * t
  {
    var x := p * t;
    assert x >= 0.0;
    assert x * h >= x;
  }

  /** An adjusted value is never below its p-value when the budget covers every hypothesis. */
  lemma AdjustedIsAbove(ps: seq<real>, total: nat, p: real, v: real)
    requires IsAdjusted(ps, total, p, v) && 0.0 <= p <= 1.0 && |ps| <= total
    ensures p <= v
  {
    if v != 1.0 {
      var j :| 0 <= j < |ps| && ps[j] >= p && v == At(ps, total, j);
      RankPositive(ps, j);
      RankBounds(ps, ps[j]);
      ScaledAbove(ps[j], total, Rank(ps, ps[j]));
    }
  }

  /** Thresholding at alpha < 1 rejects exactly the step-up set: some listed threshold at or
      above p satisfies t * total * H(total) / #{p <= t} <= alpha. */
  lemma StepUpRejections(ps: seq<real>, total: nat, p: real, v: real, alpha: real)
    requires IsAdjusted(ps, total, p, v) && alpha < 1.0
    ensures v <= alpha <==> exists j :: 0 <= j < |ps| && ps[j] >= p && At(ps, total, j) <= alpha
  {
    hide At;
  }

  // ----- hypotheses that were screened but not measured -----

  function Padded(ps: seq<real>, total: nat): seq<real>
    requires |ps| <= total
  {
    ps + seq(total - |ps|, i => 1.0)
  }

  lemma {:induction false} RankConcat(ps: seq<real>, qs: seq<real>, t: real)
    ensures Rank(ps + qs, t) == Rank(ps, t) + Rank(qs, t)
  {
    if qs == [] {
      assert ps + qs == ps;
    } else {
      var n := |qs| - 1;
      assert (ps + qs)[..|ps + qs| - 1] == ps + qs[..n];
      RankConcat(ps, qs[..n], t);
    }
  }

  lemma {:induction false} RankOfOnes(qs: seq<real>, t: real)
    requires t < 1.0 && forall i :: 0 <= i < |qs| ==> qs[i] == 1.0
    ensures Rank(qs, t) == 0
  {
    if qs != [] {
      RankOfOnes(qs[..|qs|-1], t);
    }
  }

  /** Padding changes no step-up value below 1. */
  lemma PaddedAt(ps: seq<real>, total: nat, j: nat)
    requires |ps| <= total && j < |ps| && 0.0 <= ps[j] <= 1.0
    ensures Padded(ps, total)[j] == ps[j]
    ensures ps[j] < 1.0 ==> At(Padded(ps, total), total, j) == At(ps, total, j)
    ensures ps[j] == 1.0 ==> At(Padded(ps, total), total, j) >= 1.0 && At(ps, total, j) >= 1.0
  {
    var all := Padded(ps, total);
    var ones := seq(total - |ps|, i => 1.0);
    RankConcat(ps, ones, ps[j]);
    RankPositive(ps, j);
    RankPositive(all, j);
    if ps[j] < 1.0 {
      RankOfOnes(ones, ps[j]);
    } else {
      RankBounds(all, 1.0);
      RankBounds(ps, 1.0);
      ScaledAbove(1.0, total, Rank(all, 1.0));
      ScaledAbove(1.0, total, Rank(ps, 1.0));
    }
  }

  lemma PadAt(ps: seq<real>, total: nat, j: nat)
    requires |ps| <= total && |ps| <= j < total
    ensures Padded(ps, total)[j] == 1.0 && At(Padded(ps, total), total, j) >= 1.0
  {
    var all := Padded(ps, total);
    RankPositive(all, j);
    RankBounds(all, 1.0);
    ScaledAbove(1.0, total, Rank(all, 1.0));
  }

  /** Adjusting the measured hypotheses within the budget is adjusting all of them, with the
      unmeasured ones at p = 1. */
  lemma AdjustedAsPadded(ps: seq<real>, total: nat, p: real, v: real)
    requires |ps| <= total && forall i :: 0 <= i < |ps| ==> 0.0 <= ps[i] <= 1.0
    requires IsAdjusted(ps, total, p, v)
    ensures IsAdjusted(Padded(ps, total), total, p, v)
  {
    hide At;
    var all := Padded(ps, total);
    forall j | 0 <= j < |all| && all[j] >= p ensures v <= At(all, total, j) {
      if j < |ps| {
        PaddedAt(ps, total, j);
      } else {
        PadAt(ps, total, j);
      }
    }
    if v != 1.0 {
      var j :| 0 <= j < |ps| && ps[j] >= p && v == At(ps, total, j);
      PaddedAt(ps, total, j);
    }
  }

  // ----- the loop over ranked records -----

  /** v is the least of 1 and the scaled values at positions i and later. */
  ghost predicate SuffixBound(qs: seq<real>, total: nat, i: nat, v: real) {
    && v <= 1.0
    && (forall k :: i <= k < |qs| ==> v <= Scaled(qs[k], total, k + 1))
    && (v == 1.0 || exists k :: i <= k < |qs| && v == Scaled(qs[k], total, k + 1))
  }

  lemma {:induction false} SortedRank(qs: seq<real>, t: real)
    requires Ascending(AtMost, qs)
    ensures forall i :: 0 <= i < |qs| ==> (qs[i] <= t <==> i < Rank(qs, t))
  {
    if qs != [] {
      var n := |qs| - 1;
      SortedRank(qs[..n], t);
      RankBounds(qs[..n], t);
      if qs[n] <= t {
        forall i | 0 <= i < n ensures qs[..n][i] <= t {}
        RankBounds(qs, t);
      }
    }
  }

  lemma {:induction false} RankPermutation(ps: seq<real>, qs: seq<real>, t: real)
    requires multiset(ps) == multiset(qs)
    ensures Rank(ps, t) == Rank(qs, t)
    decreases |ps|
  {
    if ps == [] {
      assert |multiset(qs)| == 0;
    } else {
      var k := |ps| - 1;
      var j := IndexOf(ps, qs, k);
      MultisetRemoveLast(ps);
      MultisetRemoveAt(qs, j);
      RankPermutation(ps[..k], qs[..j] + qs[j+1..], t);
      SplitAt(qs, j);
      RankConcat(qs[..j] + [qs[j]], qs[j+1..], t);
      RankConcat(qs[..j], [qs[j]], t);
      RankConcat(qs[..j], qs[j+1..], t);
    }
  }

  lemma SmallerRank(t: real, total: nat, rank: nat, more: nat)
    requires 0.0 <= t && 0 < rank <= more
    ensures Scaled(t, total, more) <= Scaled(t, total, rank)
  {
    HarmonicNonNegative(total);
    var x := t * total as real * Harmonic(total);
    assert x >= 0.0 by {
      assert t * total as real >= 0.0;
    }
    QuotientOrder(x, rank as real, more as real);
  }

  lemma {:induction false} HarmonicNonNegative(n: nat)
    ensures Harmonic(n) >= 0.0
  {
    if n > 0 {
      HarmonicNonNegative(n - 1);
      assert 1.0 / n as real >= 0.0;
    }
  }

  lemma QuotientOrder(x: real, r: real, m: real)
    requires 0.0 <= x && 0.0 < r <= m
    ensures x / m <= x / r
  {
    var y := x / r;
    assert y >= 0.0 && y * r == x;
    assert y * m >= y * r;
  }

  /** Last position of a threshold in the sorted list: its rank, minus one. */
  lemma LastPosition(ps: seq<real>, qs: seq<real>, i: nat, j: nat)
    requires Ascending(AtMost, qs) && multiset(ps) == multiset(qs)
    requires i < |qs| && j < |ps| && ps[j] >= qs[i]
    ensures var e := Rank(ps, ps[j]) - 1; i <= e < |qs| && qs[e] == ps[j]
  {
    var t := ps[j];
    RankPermutation(ps, qs, t);
    SortedRank(qs, t);
    RankBounds(qs, t);
    var m := IndexOf(ps, qs, j);
    var e := Rank(qs, t) - 1;
    assert qs[e] <= t;
    assert m <= e;
  }

  /** What the loop leaves at a position is the adjusted value of the p-value there, whatever
      the order among equal p-values. */
  lemma SuffixIsAdjusted(ps: seq<real>, qs: seq<real>, total: nat, i: nat, v: real)
    requires Ascending(AtMost, qs) && multiset(ps) == multiset(qs) && i < |qs|
    requires forall k :: 0 <= k < |qs| ==> qs[k] >= 0.0
    requires SuffixBound(qs, total, i, v)
    ensures IsAdjusted(ps, total, qs[i], v)
  {
    hide Scaled, Ascending;
    forall j | 0 <= j < |ps| && ps[j] >= qs[i] ensures v <= At(ps, total, j) {
      LastPosition(ps, qs, i, j);
    }
    if v != 1.0 {
      var k :| i <= k < |qs| && v == Scaled(qs[k], total, k + 1);
      AttainedAt(ps, qs, total, i, k);
      var j := IndexOf(qs, ps, k);
      assert ps[j] >= qs[i] && At(ps, total, j) <= v;
    }
  }

  lemma AttainedAt(ps: seq<real>, qs: seq<real>, total: nat, i: nat, k: nat)
    requires Ascending(AtMost, qs) && multiset(ps) == multiset(qs) && i <= k < |qs| && qs[k] >= 0.0
    ensures qs[i] <= qs[k]
    ensures forall j :: 0 <= j < |ps| && ps[j] == qs[k] ==> At(ps, total, j) <= Scaled(qs[k], total, k + 1)
  {
    forall j | 0 <= j < |ps| && ps[j] == qs[k] ensures At(ps, total, j) <= Scaled(qs[k], total, k + 1) {
      RankPermutation(ps, qs, ps[j]);
      SortedRank(qs, qs[k]);
      SmallerRank(qs[k], total, k + 1, Rank(ps, ps[j]));
    }
  }

  /** One measured relationship; the adjustment is written into it. */
  class Record {
    const p: real
    var adjusted: real

    constructor (p: real)
      ensures this.p == p && adjusted == p
    {
      this.p, adjusted := p, p;
    }
  }

  function PValues(records: seq<Record>): seq<real> {
    seq(|records|, i requires 0 <= i < |records| => records[i].p)
  }

  function POf(record: Record): real { record.p }

  predicate ByP(x: Record, y: Record) { x.p <= y.p }

  /** The adjustment in place: a bound that only falls is written from the largest p-value to
      the smallest. */
  method Adjust(records: seq<Record>, total: nat)
    requires Distinct(records)
    requires forall i :: 0 <= i < |records| ==> records[i].p >= 0.0
    modifies records
    ensures forall i :: 0 <= i < |records| ==> IsAdjusted(PValues(records), total, records[i].p, records[i].adjusted)
  {
    hide SuffixBound, IsAdjusted, Ascending, Scaled, Sorted;
    var bound := 1.0;
    var ranked := Sorted(ByP, records);
    ghost var qs := PValues(ranked);
    RankedFacts(records, ranked);
    BoundStarts(qs, total);
    for index := |ranked| downto 0
      invariant SuffixBound(qs, total, index, bound)
      invariant forall k :: index <= k < |ranked| ==> SuffixBound(qs, total, k, ranked[k].adjusted)
    {
      var value := Scaled(ranked[index].p, total, index + 1);
      BoundFalls(qs, total, index, bound, value);
      bound := if value < bound then value else bound;
      assert forall k :: index < k < |ranked| ==> ranked[k] != ranked[index];
      ranked[index].adjusted := bound;
    }
    forall i | 0 <= i < |records|
      ensures IsAdjusted(PValues(records), total, records[i].p, records[i].adjusted)
    {
      var k := IndexOf(records, ranked, i);
      SuffixIsAdjusted(PValues(records), qs, total, k, ranked[k].adjusted);
    }
  }

  lemma RankedFacts(records: seq<Record>, ranked: seq<Record>)
    requires ranked == Sorted(ByP, records)
    requires Distinct(records)
    requires forall i :: 0 <= i < |records| ==> records[i].p >= 0.0
    ensures multiset(ranked) == multiset(records)
    ensures Ascending(AtMost, PValues(ranked)) && multiset(PValues(records)) == multiset(PValues(ranked))
    ensures forall i, j :: 0 <= i < j < |ranked| ==> ranked[i] != ranked[j]
    ensures forall i :: 0 <= i < |ranked| ==> ranked[i] in records && ranked[i].p >= 0.0
  {
    SortedIsSorted(ByP, records);
    RankedPValues(records, ranked);
    hide Sorted, PValues, Ascending;
    DistinctPermutation(records, ranked);
    forall i | 0 <= i < |ranked| ensures ranked[i] in records {
      assert ranked[i] in multiset(ranked);
    }
  }

  lemma RankedPValues(records: seq<Record>, ranked: seq<Record>)
    requires multiset(ranked) == multiset(records) && Ascending(ByP, ranked)
    ensures Ascending(AtMost, PValues(ranked)) && multiset(PValues(records)) == multiset(PValues(ranked))
  {
    MapPermutation(POf, records, ranked);
    PValuesAsMap(records);
    PValuesAsMap(ranked);
    forall i, j | 0 <= i < j < |ranked| ensures AtMost(PValues(ranked)[i], PValues(ranked)[j]) {
      assert ByP(ranked[i], ranked[j]);
    }
    hide PValues;
  }

  lemma PValuesAsMap(records: seq<Record>)
    ensures Map(POf, records) == PValues(records)
  {
    hide Map;
  }

  lemma BoundStarts(qs: seq<real>, total: nat)
    ensures SuffixBound(qs, total, |qs|, 1.0)
  {}

  lemma BoundFalls(qs: seq<real>, total: nat, index: nat, bound: real, value: real)
    requires index < |qs| && SuffixBound(qs, total, index + 1, bound)
    requires value == Scaled(qs[index], total, index + 1)
    ensures SuffixBound(qs, total, index, if value < bound then value else bound)
  {
    hide Scaled;
  }

  /** A single hypothesis needs no adjustment. */
  lemma LoneHypothesis(p: real, v: real)
    requires 0.0 <= p && IsAdjusted([p], 1, p, v)
    ensures v == if p < 1.0 then p else 1.0
  {
    assert [p][..0] == [];
    assert Rank([p], p) == 1;
    assert Harmonic(1) == 1.0;
    assert At([p], 1, 0) == p;
  }

  // ----- redundant metrics -----

  type Candidate = map<string, real>

  /** The candidates that report both metrics. */
  function Paired(rows: seq<Candidate>, left: string, right: string): seq<(real, real)> {
    if rows == [] then []
    else
      var row := rows[|rows|-1];
      var before := Paired(rows[..|rows|-1], left, right);
      if left in row && right in row then before + [(row[left], row[right])] else before
  }

  /** Number of values below t. */
  function Smaller(xs: seq<real>, t: real): nat {
    if xs == [] then 0 else Smaller(xs[..|xs|-1], t) + (if xs[|xs|-1] < t then 1 else 0)
  }

  /** Average ranks: ties share the mean of their positions. */
  function Ranks(xs: seq<real>): seq<real> {
    seq(|xs|, i requires 0 <= i < |xs| => (Smaller(xs, xs[i]) + Rank(xs, xs[i]) - 1) as real / 2.0)
  }

  lemma {:induction false} SmallerConcat(xs: seq<real>, ys: seq<real>, t: real)
    ensures Smaller(xs + ys, t) == Smaller(xs, t) + Smaller(ys, t)
  {
    if ys == [] {
      assert xs + ys == xs;
    } else {
      var n := |ys| - 1;
      SmallerConcat(xs, ys[..n], t);
      assert (xs + ys)[..|xs + ys| - 1] == xs + ys[..n];
    }
  }

  lemma {:induction false} SmallerPermutation(xs: seq<real>, ys: seq<real>, t: real)
    requires multiset(xs) == multiset(ys)
    ensures Smaller(xs, t) == Smaller(ys, t)
    decreases |xs|
  {
    if xs == [] {
      assert |multiset(ys)| == 0;
    } else {
      var k := |xs| - 1;
      var j := IndexOf(xs, ys, k);
      MultisetRemoveLast(xs);
      MultisetRemoveAt(ys, j);
      SmallerPermutation(xs[..k], ys[..j] + ys[j+1..], t);
      SplitAt(ys, j);
      SmallerConcat(ys[..j] + [ys[j]], ys[j+1..], t);
      SmallerConcat(ys[..j], [ys[j]], t);
      SmallerConcat(ys[..j], ys[j+1..], t);
    }
  }

  lemma {:induction false} SortedSmaller(qs: seq<real>, t: real)
    requires Ascending(AtMost, qs)
    ensures Smaller(qs, t) <= |qs|
    ensures forall i :: 0 <= i < |qs| ==> (qs[i] < t <==> i < Smaller(qs, t))
  {
    if qs != [] {
      var n := |qs| - 1;
      SortedSmaller(qs[..n], t);
      if qs[n] < t {
        forall i | 0 <= i < n ensures qs[..n][i] < t {
          assert AtMost(qs[i], qs[n]);
        }
      }
    }
  }

  /** In any sorted arrangement equal values stand side by side, and the rank of a value is the middle of
      the positions, from 0, at which it stands. */
  lemma RanksAreMiddles(xs: seq<real>, qs: seq<real>, i: nat)
    requires Ascending(AtMost, qs) && multiset(xs) == multiset(qs) && i < |xs|
    ensures exists first: nat, last: nat ::
      Stands(qs, xs[i], first, last) && Ranks(xs)[i] == (first + last) as real / 2.0
  {
    var t := xs[i];
    RankPermutation(xs, qs, t);
    SmallerPermutation(xs, qs, t);
    SortedRank(qs, t);
    SortedSmaller(qs, t);
    RankBounds(qs, t);
    var k := IndexOf(xs, qs, i);
    hide Rank, Smaller;
    assert Stands(qs, t, Smaller(qs, t), Rank(qs, t) - 1);
  }

  ghost predicate Stands(qs: seq<real>, t: real, first: nat, last: nat) {
    first <= last < |qs| && forall k :: 0 <= k < |qs| ==> (qs[k] == t <==> first <= k <= last)
  }

  /** Deviations from the mean. */
  function Centred(xs: seq<real>): seq<real> { Shifted(xs, Mean(xs)) }

  /** |Spearman| >= 0.995, with the square roots of the denominator squared away; a constant
      list has no correlation. */
  predicate StronglyCorrelated(xs: seq<real>, ys: seq<real>)
    requires |xs| == |ys|
  {
    var x, y := Centred(Ranks(xs)), Centred(Ranks(ys));
    Strong(Dot(x, y), Dot(x, x), Dot(y, y))
  }

  /** An inner product against two sums of squares. */
  predicate Strong(d: real, a: real, b: real) { a * b != 0.0 && d * d >= 0.995 * 0.995 * (a * b) }

  lemma StrongSwaps(d: real, a: real, b: real)
    ensures Strong(d, a, b) <==> Strong(d, b, a)
  {
    assert a * b == b * a;
  }

  ghost function Reports(left: string, right: string): Candidate -> bool { row => left in row && right in row }

  ghost function PairOf(left: string, right: string): Candidate -> (real, real) {
    row => if left in row && right in row then (row[left], row[right]) else (0.0, 0.0)
  }

  lemma {:induction false} PairedIsFilter(rows: seq<Candidate>, left: string, right: string)
    ensures Paired(rows, left, right) == Map(PairOf(left, right), Filter(Reports(left, right), rows))
  {
    if rows != [] {
      var n := |rows| - 1;
      PairedIsFilter(rows[..n], left, right);
      DropAppended(Filter(Reports(left, right), rows[..n]), rows[n]);
    }
  }

  /** Two metrics are redundant when at least six candidates report both and, over those candidates, the
      correlation of their ranks exists and is at least 0.995 in size. */
  lemma RedundantMeans(rows: seq<Candidate>, left: string, right: string, root: real -> real)
    requires IsRoot(root)
    ensures var both := Map(PairOf(left, right), Filter(Reports(left, right), rows));
      var x, y := Centred(Ranks(Firsts(both))), Centred(Ranks(Seconds(both)));
      var denominator := Times(root(Dot(x, x)), root(Dot(y, y)));
      Redundant(rows, left, right) <==> |both| >= 6 && denominator != 0.0 && Abs(Dot(x, y) / denominator) >= 0.995
  {
    PairedIsFilter(rows, left, right);
    var both := Paired(rows, left, right);
    StronglyMeans(Firsts(both), Seconds(both), root);
    hide Paired, Map, Filter, Dot, Centred, Ranks, IsRoot, Times, StronglyCorrelated;
  }

  /** With square roots: the correlation of the ranks is at least 0.995 in size. */
  lemma StronglyMeans(xs: seq<real>, ys: seq<real>, root: real -> real)
    requires |xs| == |ys| && IsRoot(root)
    ensures var x, y := Centred(Ranks(xs)), Centred(Ranks(ys));
      var denominator := Times(root(Dot(x, x)), root(Dot(y, y)));
      StronglyCorrelated(xs, ys) <==> denominator != 0.0 && Abs(Dot(x, y) / denominator) >= 0.995
  {
    hide Dot, Centred, Ranks, IsRoot, Times, Abs, Strong;
    SameCentred(xs, ys);
    CorrelationMeans(Centred(Ranks(xs)), Centred(Ranks(ys)), root);
  }

  lemma SameCentred(xs: seq<real>, ys: seq<real>)
    requires |xs| == |ys|
    ensures |Centred(Ranks(xs))| == |Centred(Ranks(ys))| == |xs|
  {
    hide Mean, Smaller, Rank;
  }

  lemma CorrelationMeans(x: seq<real>, y: seq<real>, root: real -> real)
    requires |x| == |y| && IsRoot(root)
    ensures var denominator := Times(root(Dot(x, x)), root(Dot(y, y)));
      Strong(Dot(x, y), Dot(x, x), Dot(y, y)) <==>
        (denominator != 0.0 && Abs(Dot(x, y) / denominator) >= 0.995)
  {
    hide Dot, IsRoot, Times, Strong;
    DotNonNegative(x);
    DotNonNegative(y);
    ThroughRoots(Dot(x, y), Dot(x, x), Dot(y, y), root);
  }

  lemma ThroughRoots(d: real, a: real, b: real, root: real -> real)
    requires IsRoot(root) && a >= 0.0 && b >= 0.0
    ensures var denominator := Times(root(a), root(b));
      Strong(d, a, b) <==> (denominator != 0.0 && Abs(d / denominator) >= 0.995)
  {
    RootSquares(root, a);
    RootSquares(root, b);
    hide IsRoot, Times, Strong;
    SizeThroughSquares(d, a, b, root(a), root(b));
  }

  lemma RootSquares(root: real -> real, x: real)
    requires IsRoot(root) && x >= 0.0
    ensures root(x) >= 0.0 && Times(root(x), root(x)) == x
  {}

  lemma SizeThroughSquares(d: real, a: real, b: real, r: real, s: real)
    requires r >= 0.0 && s >= 0.0 && Times(r, r) == a && Times(s, s) == b
    ensures Strong(d, a, b) <==>
      (Times(r, s) != 0.0 && Abs(d / Times(r, s)) >= 0.995)
  {
    var q := r * s;
    SquaresMultiply(r, s);
    NonNegativeTimes(r, s);
    SquareZero(q);
    if q != 0.0 {
      QuotientSize(d, q);
      SquaresDecide(Abs(d), 0.995 * q);
      AbsSquare(d);
      ScaledSquare(0.995, q);
    }
  }

  lemma SquaresMultiply(r: real, s: real)
    ensures (r * r) * (s * s) == (r * s) * (r * s)
  {}

  lemma NonNegativeTimes(r: real, s: real)
    requires r >= 0.0 && s >= 0.0
    ensures r * s >= 0.0
  {}

  lemma AbsSquare(d: real)
    ensures Abs(d) * Abs(d) == d * d
  {}

  lemma ScaledSquare(c: real, q: real)
    ensures (c * q) * (c * q) == c * c * (q * q)
  {}

  lemma SquaresDecide(x: real, y: real)
    requires 0.0 <= x && 0.0 <= y
    ensures x * x >= y * y <==> x >= y
  {
    SquareOrder(y, x);
    if x >= y {
      SquareMonotone(y, x);
    }
  }

  lemma QuotientSize(d: real, q: real)
    requires q > 0.0
    ensures Abs(d / q) >= 0.995 <==> Abs(d) >= 0.995 * q
  {
    QuotientAgainst(d, q, 0.995);
    QuotientAgainst(-d, q, 0.995);
    assert (-d) / q == -(d / q);
  }

  lemma QuotientAgainst(d: real, q: real, c: real)
    requires q > 0.0
    ensures d / q >= c <==> d >= c * q
  {
    QuotientIs(c * q, q, c);
    QuotientGrows(c * q, d, q);
    QuotientGrows(d, c * q, q);
    assert (d / q) * q == d;
  }

  function Firsts(ps: seq<(real, real)>): seq<real> { seq(|ps|, i requires 0 <= i < |ps| => ps[i].0) }

  function Seconds(ps: seq<(real, real)>): seq<real> { seq(|ps|, i requires 0 <= i < |ps| => ps[i].1) }

  predicate Redundant(rows: seq<Candidate>, left: string, right: string) {
    var paired := Paired(rows, left, right);
    |paired| >= 6 && StronglyCorrelated(Firsts(paired), Seconds(paired))
  }

  lemma {:induction false} PairedSwaps(rows: seq<Candidate>, left: string, right: string)
    ensures Firsts(Paired(rows, left, right)) == Seconds(Paired(rows, right, left))
    ensures Seconds(Paired(rows, left, right)) == Firsts(Paired(rows, right, left))
  {
    if rows != [] {
      PairedSwaps(rows[..|rows|-1], left, right);
      var a, b := Paired(rows[..|rows|-1], left, right), Paired(rows[..|rows|-1], right, left);
      var row := rows[|rows|-1];
      if left in row && right in row {
        assert Firsts(a + [(row[left], row[right])]) == Firsts(a) + [row[left]];
        assert Seconds(a + [(row[left], row[right])]) == Seconds(a) + [row[right]];
        assert Firsts(b + [(row[right], row[left])]) == Firsts(b) + [row[right]];
        assert Seconds(b + [(row[right], row[left])]) == Seconds(b) + [row[left]];
      }
    }
  }

  lemma StrengthIsSymmetric(xs: seq<real>, ys: seq<real>)
    requires |xs| == |ys|
    ensures StronglyCorrelated(xs, ys) <==> StronglyCorrelated(ys, xs)
  {
    SameCentred(xs, ys);
    var x, y := Centred(Ranks(xs)), Centred(Ranks(ys));
    DotSymmetric(x, y);
    StrongSwaps(Dot(x, y), Dot(x, x), Dot(y, y));
    hide Centred, Ranks, Dot, Strong;
  }

  lemma RedundancyIsSymmetric(rows: seq<Candidate>, left: string, right: string)
    ensures Redundant(rows, left, right) <==> Redundant(rows, right, left)
  {
    var a, b := Paired(rows, left, right), Paired(rows, right, left);
    PairedSwaps(rows, left, right);
    assert |Firsts(a)| == |Seconds(b)|;
    StrengthIsSymmetric(Firsts(a), Seconds(a));
    hide Paired, StronglyCorrelated;
  }

  datatype Group = Group(representative: string, members: seq<string>)

  /** What greedy grouping has established after the names before position i: `heads` are the
      metrics that were not absorbed, `covered` the ones already decided. */
  ghost predicate Grouped(rows: seq<Candidate>, names: seq<string>, families: set<string>, i: nat,
                          groups: seq<Group>, covered: set<string>, heads: set<string>)
    requires i <= |names|
  {
    && Covers(names, families, i, groups, covered, heads)
    && (forall g :: 0 <= g < |groups| ==> WellGrouped(rows, groups[g], covered, heads))
    && (forall g, h :: 0 <= g < h < |groups| ==> Disjoint(groups[g], groups[h]))
    && HeadsApart(rows, names, families, covered, heads)
  }

  ghost predicate Covers(names: seq<string>, families: set<string>, i: nat, groups: seq<Group>, covered: set<string>,
      heads: set<string>)
    requires i <= |names|
  {
    && heads <= covered && covered !! families
    && (forall x :: x in covered ==> x in names)
    && (forall k :: 0 <= k < i ==> names[k] in covered || names[k] in families)
    && (forall x :: x in covered && x !in heads ==> Follows(groups, x))
  }

  ghost predicate HeadsApart(rows: seq<Candidate>, names: seq<string>, families: set<string>, covered: set<string>,
      heads: set<string>) {
    && (forall h, x :: h in heads && x in names && x !in families && x !in covered ==> !Redundant(rows, h, x))
    && (forall h, k :: h in heads && k in heads && h != k ==> !Redundant(rows, h, k))
  }

  ghost predicate WellGrouped(rows: seq<Candidate>, group: Group, covered: set<string>, heads: set<string>) {
    && |group.members| > 1 && group.members[0] == group.representative
    && group.representative in heads
    && (forall k :: 0 <= k < |group.members| ==> group.members[k] in covered)
    && (forall k :: 0 < k < |group.members| ==>
        group.members[k] !in heads && Redundant(rows, group.representative, group.members[k]))
    && (forall j, k :: 0 <= j < k < |group.members| ==> group.members[j] != group.members[k])
  }

  ghost predicate Disjoint(g: Group, h: Group) { forall x :: x in g.members ==> x !in h.members }

  /** The metric was absorbed by some group. */
  ghost predicate Follows(groups: seq<Group>, x: string) {
    exists g, k :: 0 <= g < |groups| && 0 < k < |groups[g].members| && groups[g].members[k] == x
  }

  /** The members collected for one representative after the names before position j. */
  ghost predicate Collected(rows: seq<Candidate>, names: seq<string>, families: set<string>, left: string, j: nat,
                            before: set<string>, members: seq<string>, covered: set<string>)
    requires j <= |names|
  {
    && members != [] && members[0] == left
    && (forall k :: 0 < k < |members| ==>
          members[k] in names && members[k] !in families && members[k] !in before && members[k] != left &&
          Redundant(rows, left, members[k]))
    && (forall i, k :: 0 <= i < k < |members| ==> members[i] != members[k])
    && covered == before + (set k | 0 < k < |members| :: members[k])
    && (forall k :: 0 <= k < j && names[k] != left && names[k] !in families && names[k] !in covered ==>
        !Redundant(rows, left, names[k]))
  }

  /** Greedy grouping by direct redundancy with the first member. */
  method Redundancy(rows: seq<Candidate>, names: seq<string>, families: set<string>) returns (groups: seq<Group>)
    requires forall i, j :: 0 <= i < j < |names| ==> names[i] != names[j]
    ensures Clustered(rows, names, families, groups)
  {
    hide Grouped, Redundant, Clustered;
    groups := [];
    var taken: set<string> := {};
    ghost var heads: set<string> := {};
    NothingGrouped(rows, names, families);
    for i := 0 to |names|
      invariant Grouped(rows, names, families, i, groups, taken, heads)
    {
      var left := names[i];
      if left in taken || left in families {
        SkipName(rows, names, families, i, groups, taken, heads);
      } else {
        var before := taken;
        var members := [left];
        for j := 0 to |names|
          invariant Collected(rows, names, families, left, j, before, members, taken)
        {
          var right := names[j];
          if right != left && right !in taken && right !in families && Redundant(rows, left, right) {
            CollectOne(rows, names, families, left, j, before, members, taken);
            members := members + [right];
            taken := taken + {right};
          }
        }
        CloseGroup(rows, names, families, i, groups, before, heads, members, taken);
        if |members| > 1 {
          groups := groups + [Group(left, members)];
        }
        taken := taken + {left};
        heads := heads + {left};
      }
    }
    GroupedIsClustered(rows, names, families, groups, taken, heads);
  }

  /** The result: disjoint groups of non-family metrics, each member redundant with its
      representative, and no two metrics left outside or in front redundant with each other. */
  ghost predicate Clustered(rows: seq<Candidate>, names: seq<string>, families: set<string>, groups: seq<Group>) {
    && (forall g, h :: 0 <= g < h < |groups| ==> Disjoint(groups[g], groups[h]))
    && (forall g :: 0 <= g < |groups| ==> IsCluster(rows, names, families, groups[g]))
    && forall x, y :: Kept(names, families, groups, x) && Kept(names, families, groups, y) && x != y ==>
        !Redundant(rows, x, y)
  }

  ghost predicate IsCluster(rows: seq<Candidate>, names: seq<string>, families: set<string>, group: Group) {
    && |group.members| > 1 && group.members[0] == group.representative
    && (forall x :: x in group.members ==> x in names && x !in families)
    && (forall k :: 0 < k < |group.members| ==> Redundant(rows, group.representative, group.members[k]))
    && (forall j, k :: 0 <= j < k < |group.members| ==> group.members[j] != group.members[k])
  }

  /** A representative, or a non-family metric in no group. */
  ghost predicate Kept(names: seq<string>, families: set<string>, groups: seq<Group>, x: string) {
    x in names && x !in families && !Follows(groups, x)
  }

  lemma NothingGrouped(rows: seq<Candidate>, names: seq<string>, families: set<string>)
    ensures Grouped(rows, names, families, 0, [], {}, {})
  {}

  lemma SkipName(rows: seq<Candidate>, names: seq<string>, families: set<string>, i: nat, groups: seq<Group>,
      covered: set<string>, heads: set<string>)
    requires i < |names| && Grouped(rows, names, families, i, groups, covered, heads)
    requires names[i] in covered || names[i] in families
    ensures Grouped(rows, names, families, i + 1, groups, covered, heads)
  {
    hide Redundant, Follows, WellGrouped, Disjoint, HeadsApart;
  }

  lemma GroupedIsClustered(rows: seq<Candidate>, names: seq<string>, families: set<string>, groups: seq<Group>,
      covered: set<string>, heads: set<string>)
    requires Grouped(rows, names, families, |names|, groups, covered, heads)
    ensures Clustered(rows, names, families, groups)
  {
    hide Redundant, Follows, Disjoint;
    forall x | Kept(names, families, groups, x) ensures x in heads {
      var k :| 0 <= k < |names| && names[k] == x;
    }
  }

  lemma CollectOne(rows: seq<Candidate>, names: seq<string>, families: set<string>, left: string, j: nat,
                   before: set<string>, members: seq<string>, taken: set<string>)
    requires j < |names| && Collected(rows, names, families, left, j, before, members, taken)
    requires names[j] != left && names[j] !in taken && names[j] !in families && Redundant(rows, left, names[j])
    ensures Collected(rows, names, families, left, j + 1, before, members + [names[j]], taken + {names[j]})
  {
    hide Redundant;
    var more := members + [names[j]];
    forall x | x in before + (set k | 0 < k < |more| :: more[k]) ensures x in taken + {names[j]} {
      if x !in before {
        var k :| 0 < k < |more| && more[k] == x;
      }
    }
    forall x | x in taken + {names[j]} ensures x in before + (set k | 0 < k < |more| :: more[k]) {
      if x == names[j] { assert more[|members|] == x; }
      else if x !in before {
        var k :| 0 < k < |members| && members[k] == x;
        assert more[k] == x;
      }
    }
  }

  lemma CloseGroup(rows: seq<Candidate>, names: seq<string>, families: set<string>, i: nat,
                   groups: seq<Group>, before: set<string>, heads: set<string>, members: seq<string>,
                       taken: set<string>)
    requires i < |names| && Grouped(rows, names, families, i, groups, before, heads)
    requires names[i] !in before && names[i] !in families
    requires Collected(rows, names, families, names[i], |names|, before, members, taken)
    ensures var all := if |members| > 1 then groups + [Group(names[i], members)] else groups;
      Grouped(rows, names, families, i + 1, all, taken + {names[i]}, heads + {names[i]})
  {
    hide Redundant, Follows;
    ClosedHeads(rows, names, families, i, before, heads, members, taken);
    ClosedCover(rows, names, families, i, groups, before, heads, members, taken);
    hide Covers, HeadsApart, WellGrouped, Disjoint, Collected;
  }

  lemma ClosedHeads(rows: seq<Candidate>, names: seq<string>, families: set<string>, i: nat,
                    before: set<string>, heads: set<string>, members: seq<string>, taken: set<string>)
    requires i < |names| && heads <= before && HeadsApart(rows, names, families, before, heads)
    requires names[i] !in before && names[i] !in families
    requires Collected(rows, names, families, names[i], |names|, before, members, taken)
    ensures HeadsApart(rows, names, families, taken + {names[i]}, heads + {names[i]})
  {
    hide Redundant;
    var left := names[i];
    forall x | x in names && x !in families && x !in taken + {left} ensures !Redundant(rows, left, x) {
      var k :| 0 <= k < |names| && names[k] == x;
    }
    forall h | h in heads ensures !Redundant(rows, h, left) && !Redundant(rows, left, h) {
      RedundancyIsSymmetric(rows, h, left);
    }
  }

  lemma ClosedCover(rows: seq<Candidate>, names: seq<string>, families: set<string>, i: nat,
                    groups: seq<Group>, before: set<string>, heads: set<string>, members: seq<string>,
                        taken: set<string>)
    requires i < |names| && Covers(names, families, i, groups, before, heads)
    requires names[i] !in before && names[i] !in families
    requires Collected(rows, names, families, names[i], |names|, before, members, taken)
    ensures var all := if |members| > 1 then groups + [Group(names[i], members)] else groups;
      Covers(names, families, i + 1, all, taken + {names[i]}, heads + {names[i]})
  {
    hide Redundant;
    var left := names[i];
    var all := if |members| > 1 then groups + [Group(left, members)] else groups;
    forall x | x in taken + {left} && x !in heads + {left} ensures Follows(all, x) {
      if x in before {
        assert Follows(groups, x);
        var g, k :| 0 <= g < |groups| && 0 < k < |groups[g].members| && groups[g].members[k] == x;
        assert all[g].members[k] == x;
      } else {
        var k :| 0 < k < |members| && members[k] == x;
        assert all[|groups|].members[k] == x;
      }
    }
  }

}
