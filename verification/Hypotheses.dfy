/** The hypothesis budget of retrospective discovery: configured questions first, then
    parameter and metric pairs in turn until the budget is full. */
module Hypotheses {
  import opened Options
  import opened Sums
  import ResearchAnalysis

  datatype Pair = Pair(left: string, right: string, parameter: bool)

  /** Two lists in turn; the shorter one is filled up with nothing. */
  function Interleaved(xs: seq<Pair>, ys: seq<Pair>): seq<Option<Pair>> {
    var rounds := if |xs| < |ys| then |ys| else |xs|;
    seq(2 * rounds, k requires 0 <= k < 2 * rounds =>
      if k % 2 == 0 then (if k / 2 < |xs| then Some(xs[k / 2]) else None)
      else (if k / 2 < |ys| then Some(ys[k / 2]) else None))
  }

  /** The pairs among the first n places of the interleaving. */
  ghost predicate Scanned(xs: seq<Pair>, ys: seq<Pair>, n: nat, pair: Pair) {
    (exists i :: 0 <= i < |xs| && 2 * i < n && xs[i] == pair) ||
        (exists j :: 0 <= j < |ys| && 2 * j + 1 < n && ys[j] == pair)
  }

  /** The hypotheses are the configured ones and those met in the first n places, once each. */
  ghost predicate Holds(configured: seq<Pair>, xs: seq<Pair>, ys: seq<Pair>, n: nat, hypotheses: seq<Pair>) {
    && Distinct(hypotheses)
    && forall pair :: pair in hypotheses <==> pair in configured || Scanned(xs, ys, n, pair)
  }

  /** Configured hypotheses are filed whatever their number; automatic ones only while the
      budget has room, a parameter pair and a metric pair in turn. */
  method Collect(configured: seq<Pair>, xs: seq<Pair>, ys: seq<Pair>, maxPairs: nat)
      returns (hypotheses: seq<Pair>, ghost n: nat)
    ensures Holds(configured, xs, ys, n, hypotheses)
    // the scan stops exactly when the budget is full or no pair is left
    ensures |hypotheses| < maxPairs ==> forall pair :: pair in xs || pair in ys ==> pair in hypotheses
    ensures n > 0 ==> |hypotheses| <= maxPairs
    ensures |Firsts(configured)| >= maxPairs ==> n == 0
    // configured hypotheses come first, in their own order
    ensures Firsts(configured) <= hypotheses
  {
    hide Firsts;
    hypotheses := [];
    FirstsNext(configured, 0);
    for i := 0 to |configured|
      invariant hypotheses == Firsts(configured[..i])
    {
      FirstsNext(configured, i);
      if configured[i] !in hypotheses {
        hypotheses := hypotheses + [configured[i]];
      }
    }
    assert configured[..|configured|] == configured;
    FirstsHold(configured);
    ScanBegins(configured, xs, ys, hypotheses);
    hide Holds, Interleaved;
    var automatic := Interleaved(xs, ys);
    n := 0;
    var k := 0;
    while k < |automatic|
      invariant n == k <= |automatic|
      invariant Holds(configured, xs, ys, k, hypotheses)
      invariant k > 0 ==> |hypotheses| <= maxPairs
      invariant |Firsts(configured)| >= maxPairs ==> k == 0
      invariant Firsts(configured) <= hypotheses
    {
      if |hypotheses| >= maxPairs {
        break;
      }
      ScanNext(configured, xs, ys, k, hypotheses);
      if automatic[k].Some? && automatic[k].value !in hypotheses {
        hypotheses := hypotheses + [automatic[k].value];
      }
      k, n := k + 1, n + 1;
    }
    if |hypotheses| < maxPairs {
      AllScanned(configured, xs, ys, n, hypotheses);
    }
  }

  lemma ScanBegins(configured: seq<Pair>, xs: seq<Pair>, ys: seq<Pair>, hypotheses: seq<Pair>)
    requires Distinct(hypotheses) && forall pair :: pair in hypotheses <==> pair in configured
    ensures Holds(configured, xs, ys, 0, hypotheses)
  {}

  lemma ScanNext(configured: seq<Pair>, xs: seq<Pair>, ys: seq<Pair>, k: nat, hypotheses: seq<Pair>)
    requires k < |Interleaved(xs, ys)| && Holds(configured, xs, ys, k, hypotheses)
    ensures var next := Interleaved(xs, ys)[k];
      Holds(configured, xs, ys, k + 1,
            if next.Some? && next.value !in hypotheses then hypotheses + [next.value] else hypotheses)
  {}

  /** A list without its later repetitions. */
  ghost function Firsts(pairs: seq<Pair>): seq<Pair> {
    if pairs == [] then []
    else
      var rest, last := Firsts(pairs[..|pairs|-1]), pairs[|pairs|-1];
      if last in rest then rest else rest + [last]
  }

  lemma FirstsNext(pairs: seq<Pair>, i: nat)
    requires i <= |pairs|
    ensures i == 0 ==> Firsts(pairs[..i]) == []
    ensures i < |pairs| ==> var rest := Firsts(pairs[..i]);
      Firsts(pairs[..i+1]) == if pairs[i] in rest then rest else rest + [pairs[i]]
  {
    if i < |pairs| {
      assert pairs[..i+1][..i] == pairs[..i];
    }
  }

  lemma {:induction false} FirstsHold(pairs: seq<Pair>)
    ensures Distinct(Firsts(pairs)) && forall pair :: pair in Firsts(pairs) <==> pair in pairs
  {
    if pairs != [] {
      FirstsHold(pairs[..|pairs|-1]);
      SplitLast(pairs);
    }
  }

  lemma AllScanned(configured: seq<Pair>, xs: seq<Pair>, ys: seq<Pair>, n: nat, hypotheses: seq<Pair>)
    requires n >= |Interleaved(xs, ys)| && Holds(configured, xs, ys, n, hypotheses)
    ensures forall pair :: pair in xs || pair in ys ==> pair in hypotheses
  {
    forall pair | pair in xs || pair in ys ensures Scanned(xs, ys, n, pair) {
      if pair in xs {
        var i :| 0 <= i < |xs| && xs[i] == pair;
      } else {
        var j :| 0 <= j < |ys| && ys[j] == pair;
      }
    }
  }

  /** The two automatic lists: distinct parameter pairs and distinct metric pairs. */
  ghost predicate Kinds(xs: seq<Pair>, ys: seq<Pair>) {
    && Distinct(xs) && Distinct(ys)
    && (forall i :: 0 <= i < |xs| ==> xs[i].parameter) && (forall j :: 0 <= j < |ys| ==> !ys[j].parameter)
  }

  /** Neither kind monopolizes the budget: an automatic pair is taken only after every pair of
      the other kind that comes before it. */
  lemma FairShare(configured: seq<Pair>, xs: seq<Pair>, ys: seq<Pair>, n: nat, hypotheses: seq<Pair>, i: nat, j: nat)
    requires Holds(configured, xs, ys, n, hypotheses) && Kinds(xs, ys) && i < |xs| && j < |ys|
    ensures i <= j && ys[j] in hypotheses && ys[j] !in configured ==> xs[i] in hypotheses
    ensures j < i && xs[i] in hypotheses && xs[i] !in configured ==> ys[j] in hypotheses
  {
    if i <= j && ys[j] in hypotheses && ys[j] !in configured {
      assert Scanned(xs, ys, n, ys[j]);
      assert 2 * i < n;
      assert Scanned(xs, ys, n, xs[i]);
    }
    if j < i && xs[i] in hypotheses && xs[i] !in configured {
      assert Scanned(xs, ys, n, xs[i]);
      assert 2 * j + 1 < n;
      assert Scanned(xs, ys, n, ys[j]);
    }
  }

  // ----- measuring within the budget -----

  /** The hypotheses that are looked at and yield a record: no test evidence before the study
      is final, and enough observations. */
  function Measured(hypotheses: seq<Pair>, final: bool, reachesTest: string -> bool,
      measurable: Pair -> bool): seq<Pair> {
    if hypotheses == [] then []
    else
      var last, rest := hypotheses[|hypotheses|-1],
          Measured(hypotheses[..|hypotheses|-1], final, reachesTest, measurable);
      if Looked(last, final, reachesTest) && measurable(last) then rest + [last] else rest
  }

  predicate Looked(pair: Pair, final: bool, reachesTest: string -> bool) {
    final || (!reachesTest(pair.right) && (pair.parameter || !reachesTest(pair.left)))
  }

  function Min(x: nat, y: nat): nat { if x < y then x else y }

  /** The number of hypotheses the adjustment is told of. */
  function Family(hypotheses: seq<Pair>, maxPairs: nat): nat {
    if Min(|hypotheses|, maxPairs) < 1 then 1 else Min(|hypotheses|, maxPairs)
  }

  lemma {:induction false} MeasuredFits(hypotheses: seq<Pair>, final: bool, reachesTest: string -> bool,
      measurable: Pair -> bool)
    ensures var taken := Measured(hypotheses, final, reachesTest, measurable);
      |taken| <= |hypotheses| && forall pair :: pair in taken <==>
          pair in hypotheses && Looked(pair, final, reachesTest) && measurable(pair)
  {
    if hypotheses != [] {
      SplitLast(hypotheses);
      MeasuredFits(hypotheses[..|hypotheses|-1], final, reachesTest, measurable);
    }
  }

  /** Some metric of the pair carries test evidence; a parameter is no metric. */
  ghost predicate Touches(pair: Pair, reachesTest: string -> bool) {
    exists name :: name in (if pair.parameter then {pair.right} else {pair.left, pair.right}) && reachesTest(name)
  }

  lemma LookedExactly(pair: Pair, final: bool, reachesTest: string -> bool)
    ensures Looked(pair, final, reachesTest) <==> final || !Touches(pair, reachesTest)
  {
    assert pair.right in (if pair.parameter then {pair.right} else {pair.left, pair.right});
    assert !pair.parameter ==> pair.left in (if pair.parameter then {pair.right} else {pair.left, pair.right});
  }

  /** Measured are exactly the hypotheses within the budget that yield a record and, before the study is
      final, touch no test evidence.  They never outnumber the family, which is everything within the
      budget, so adjusting their p-values alone is adjusting the whole family with the unmeasured
      hypotheses at p = 1. */
  lemma BudgetCoversTests(hypotheses: seq<Pair>, maxPairs: nat, final: bool, reachesTest: string -> bool,
      measurable: Pair -> bool, ps: seq<real>, p: real, v: real)
    requires |ps| == |Measured(hypotheses[..Min(|hypotheses|, maxPairs)], final, reachesTest, measurable)|
    requires forall i :: 0 <= i < |ps| ==> 0.0 <= ps[i] <= 1.0
    requires ResearchAnalysis.IsAdjusted(ps, Family(hypotheses, maxPairs), p, v)
    ensures var within := hypotheses[..Min(|hypotheses|, maxPairs)];
      && (within != [] ==> Family(hypotheses, maxPairs) == |within|)
      && forall pair :: pair in Measured(within, final, reachesTest, measurable) <==>
           pair in within && measurable(pair) && (final || !Touches(pair, reachesTest))
    ensures |ps| <= Family(hypotheses, maxPairs)
    ensures ResearchAnalysis.IsAdjusted(ResearchAnalysis.Padded(ps, Family(hypotheses, maxPairs)),
        Family(hypotheses, maxPairs), p, v)
  {
    var within := hypotheses[..Min(|hypotheses|, maxPairs)];
    MeasuredFits(within, final, reachesTest, measurable);
    ResearchAnalysis.AdjustedAsPadded(ps, Family(hypotheses, maxPairs), p, v);
    hide Looked, Touches, Measured;
    forall pair ensures pair in Measured(within, final, reachesTest, measurable) <==>
      pair in within && measurable(pair) && (final || !Touches(pair, reachesTest))
    {
      LookedExactly(pair, final, reachesTest);
    }
  }
}
