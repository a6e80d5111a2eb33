/** Non-dominated candidates: objective against one cost, and several objective components,
    each with its own direction. */
module Pareto {
  import opened Sums

  // ----- fronts of any strict order -----

  ghost predicate StrictOrder<T(!new)>(dominates: (T, T) -> bool) {
    && (forall x :: !dominates(x, x))
    && (forall x, y, z :: dominates(x, y) && dominates(y, z) ==> dominates(x, z))
  }

  predicate Dominated<T>(dominates: (T, T) -> bool, rows: seq<T>, row: T) {
    exists k :: 0 <= k < |rows| && dominates(rows[k], row)
  }

  /** The entries of xs that no row dominates, in order. */
  function Undominated<T>(dominates: (T, T) -> bool, rows: seq<T>, xs: seq<T>): seq<T> {
    if xs == [] then []
    else
      var last, rest := xs[|xs|-1], Undominated(dominates, rows, xs[..|xs|-1]);
      if Dominated(dominates, rows, last) then rest else rest + [last]
  }

  function Front<T>(dominates: (T, T) -> bool, rows: seq<T>): seq<T> { Undominated(dominates, rows, rows) }

  lemma {:induction false} UndominatedCount<T>(dominates: (T, T) -> bool, rows: seq<T>, xs: seq<T>, x: T)
    ensures multiset(Undominated(dominates, rows, xs))[x] == if Dominated(dominates, rows, x) then 0
        else multiset(xs)[x]
  {
    hide Dominated;
    if xs != [] {
      var last, rest := xs[|xs|-1], xs[..|xs|-1];
      UndominatedCount(dominates, rows, rest, x);
      SplitLast(xs);
      MultisetAppend(rest, last);
      MultisetAppend(Undominated(dominates, rows, rest), last);
    }
  }

  lemma FrontMembers<T>(dominates: (T, T) -> bool, rows: seq<T>, x: T)
    ensures x in Front(dominates, rows) <==> x in rows && !Dominated(dominates, rows, x)
  {
    UndominatedCount(dominates, rows, rows, x);
    assert x in rows <==> x in multiset(rows);
    assert x in Front(dominates, rows) <==> x in multiset(Front(dominates, rows));
  }

  /** The positions whose rows dominate x. */
  ghost function Dominators<T>(dominates: (T, T) -> bool, rows: seq<T>, x: T): set<nat> {
    set k: nat | k < |rows| && dominates(rows[k], x)
  }

  lemma FewerDominators<T(!new)>(dominates: (T, T) -> bool, rows: seq<T>, x: T, k: nat)
    requires StrictOrder(dominates) && k < |rows| && dominates(rows[k], x)
    ensures |Dominators(dominates, rows, rows[k])| < |Dominators(dominates, rows, x)|
  {
    var fewer, more := Dominators(dominates, rows, rows[k]), Dominators(dominates, rows, x);
    assert k in more && k !in fewer;
    assert fewer <= more - {k};
    SubsetSize(fewer, more - {k});
  }

  /** Every dominated row is dominated by a row of the front. */
  lemma {:induction false} FrontCovers<T(!new)>(dominates: (T, T) -> bool, rows: seq<T>, x: T) returns (best: T)
    requires StrictOrder(dominates) && Dominated(dominates, rows, x)
    ensures best in Front(dominates, rows) && dominates(best, x)
    decreases |Dominators(dominates, rows, x)|
  {
    var k: nat :| k < |rows| && dominates(rows[k], x);
    FewerDominators(dominates, rows, x, k);
    FrontMembers(dominates, rows, rows[k]);
    if Dominated(dominates, rows, rows[k]) {
      best := FrontCovers(dominates, rows, rows[k]);
    } else {
      best := rows[k];
    }
  }

  /** A non-empty list has a non-empty front. */
  lemma FrontIsNonEmpty<T(!new)>(dominates: (T, T) -> bool, rows: seq<T>)
    requires StrictOrder(dominates) && rows != []
    ensures Front(dominates, rows) != []
  {
    FrontMembers(dominates, rows, rows[0]);
    if Dominated(dominates, rows, rows[0]) {
      var best := FrontCovers(dominates, rows, rows[0]);
    }
  }

  lemma SameDominated<T>(dominates: (T, T) -> bool, rows: seq<T>, other: seq<T>, x: T)
    requires forall y :: y in rows ==> y in other
    ensures Dominated(dominates, rows, x) ==> Dominated(dominates, other, x)
  {
    if Dominated(dominates, rows, x) {
      var k :| 0 <= k < |rows| && dominates(rows[k], x);
      assert rows[k] in other;
    }
  }

  /** The front does not depend on the order of the rows. */
  lemma FrontIgnoresOrder<T(!new)>(dominates: (T, T) -> bool, rows: seq<T>, other: seq<T>)
    requires multiset(rows) == multiset(other)
    ensures multiset(Front(dominates, rows)) == multiset(Front(dominates, other))
  {
    SameMembers(rows, other);
    SameMembers(other, rows);
    forall x ensures multiset(Front(dominates, rows))[x] == multiset(Front(dominates, other))[x] {
      UndominatedCount(dominates, rows, rows, x);
      UndominatedCount(dominates, other, other, x);
      SameDominated(dominates, rows, other, x);
      SameDominated(dominates, other, rows, x);
    }
  }

  lemma SameMembers<T>(rows: seq<T>, other: seq<T>)
    requires multiset(rows) == multiset(other)
    ensures forall x :: x in rows ==> x in other
  {
    forall x | x in rows ensures x in other {
      assert x in multiset(rows);
    }
  }

  /** Excluded rows are irrelevant: the front of the front is the front. */
  lemma FrontIsStable<T(!new)>(dominates: (T, T) -> bool, rows: seq<T>)
    requires StrictOrder(dominates)
    ensures Front(dominates, Front(dominates, rows)) == Front(dominates, rows)
  {
    var front := Front(dominates, rows);
    forall x | x in front ensures !Dominated(dominates, front, x) {
      FrontMembers(dominates, rows, x);
      forall y | y in front ensures y in rows {
        FrontMembers(dominates, rows, y);
      }
      SameDominated(dominates, front, rows, x);
    }
    KeepsAll(dominates, front, front);
  }

  lemma {:induction false} KeepsAll<T>(dominates: (T, T) -> bool, rows: seq<T>, xs: seq<T>)
    requires forall x :: x in xs ==> !Dominated(dominates, rows, x)
    ensures Undominated(dominates, rows, xs) == xs
  {
    hide Dominated;
    if xs != [] {
      SplitLast(xs);
      KeepsAll(dominates, rows, xs[..|xs|-1]);
    }
  }

  // ----- several components -----

  datatype Metric = Metric(name: string, mode: string)

  datatype Candidate = Candidate(trial: int, components: map<string, real>)

  predicate Comparable(metrics: seq<Metric>, c: Candidate) { forall m :: m in metrics ==> m.name in c.components }

  predicate NoWorse(m: Metric, left: real, right: real) { if m.mode == "max" then left >= right else left <= right }

  /** No worse on every component, different on one. */
  predicate Beats(metrics: seq<Metric>, left: Candidate, right: Candidate) {
    && Comparable(metrics, left) && Comparable(metrics, right)
    && (forall m :: m in metrics ==> NoWorse(m, left.components[m.name], right.components[m.name]))
    && (exists m :: m in metrics && left.components[m.name] != right.components[m.name])
  }

  function ByComponents(metrics: seq<Metric>): (Candidate, Candidate) -> bool {
    (left, right) => Beats(metrics, left, right)
  }

  lemma ComponentsAreStrict(metrics: seq<Metric>)
    ensures StrictOrder(ByComponents(metrics))
  {
    forall x, y, z | Beats(metrics, x, y) && Beats(metrics, y, z) ensures Beats(metrics, x, z) {
      BeatsIsTransitive(metrics, x, y, z);
    }
  }

  lemma BeatsIsTransitive(metrics: seq<Metric>, x: Candidate, y: Candidate, z: Candidate)
    requires Beats(metrics, x, y) && Beats(metrics, y, z)
    ensures Beats(metrics, x, z)
  {
    var m :| m in metrics && x.components[m.name] != y.components[m.name];
    assert NoWorse(m, x.components[m.name], y.components[m.name]) &&
        NoWorse(m, y.components[m.name], z.components[m.name]);
    assert x.components[m.name] != z.components[m.name];
    forall k | k in metrics ensures NoWorse(k, x.components[k.name], z.components[k.name]) {
      assert NoWorse(k, x.components[k.name], y.components[k.name]) &&
          NoWorse(k, y.components[k.name], z.components[k.name]);
    }
  }

  function ComparableOnly(metrics: seq<Metric>, candidates: seq<Candidate>): (cs: seq<Candidate>)
    ensures forall c :: c in cs ==> c in candidates && Comparable(metrics, c)
  {
    if candidates == [] then []
    else
      var last, rest := candidates[|candidates|-1], ComparableOnly(metrics, candidates[..|candidates|-1]);
      if Comparable(metrics, last) then rest + [last] else rest
  }

  function Trials(cs: seq<Candidate>): seq<int> { seq(|cs|, i requires 0 <= i < |cs| => cs[i].trial) }

  /** One pass over the metrics, with the two flags of the loop. */
  method Compare(metrics: seq<Metric>, other: Candidate, candidate: Candidate) returns (noWorse: bool, strict: bool)
    requires Comparable(metrics, other) && Comparable(metrics, candidate)
    ensures noWorse && strict <==> Beats(metrics, other, candidate)
  {
    noWorse, strict := true, false;
    for i := 0 to |metrics|
      invariant noWorse <==> forall m :: m in metrics[..i] ==>
          NoWorse(m, other.components[m.name], candidate.components[m.name])
      invariant strict <==> exists m :: m in metrics[..i] && other.components[m.name] != candidate.components[m.name]
    {
      var rule := metrics[i];
      var left, right := other.components[rule.name], candidate.components[rule.name];
      assert metrics[..i+1] == metrics[..i] + [rule];
      noWorse := noWorse && (if rule.mode == "max" then left >= right else left <= right);
      strict := strict || left != right;
    }
    assert metrics[..|metrics|] == metrics;
  }

  /** One candidate against every other one, stopping at the first that beats it. */
  method Beaten(metrics: seq<Metric>, comparable: seq<Candidate>, i: nat) returns (dominated: bool)
    requires i < |comparable| && forall c :: c in comparable ==> Comparable(metrics, c)
    ensures dominated <==> Dominated(ByComponents(metrics), comparable, comparable[i])
  {
    dominated := false;
    ComponentsAreStrict(metrics);
    assert !ByComponents(metrics)(comparable[i], comparable[i]);
    hide Beats, StrictOrder, Comparable;
    for j := 0 to |comparable|
      invariant !dominated
      invariant forall k :: 0 <= k < j ==> !ByComponents(metrics)(comparable[k], comparable[i])
    {
      if j == i {
        continue;
      }
      var noWorse, strict := Compare(metrics, comparable[j], comparable[i]);
      if noWorse && strict {
        dominated := true;
        break;
      }
    }
  }

  /** The trials of the comparable candidates that no other one beats. */
  method ComponentPareto(candidates: seq<Candidate>, metrics: seq<Metric>) returns (front: seq<int>)
    ensures |metrics| < 2 ==> front == []
    ensures |metrics| >= 2 ==> front == Trials(Front(ByComponents(metrics), ComparableOnly(metrics, candidates)))
  {
    front := [];
    if |metrics| < 2 {
      return;
    }
    var comparable := ComparableOnly(metrics, candidates);
    ComponentsAreStrict(metrics);
    ghost var dominates := ByComponents(metrics);
    assert Undominated(dominates, comparable, comparable[..0]) == [];
    hide Dominated, Undominated, StrictOrder, Beats;
    for i := 0 to |comparable|
      invariant front == Trials(Undominated(dominates, comparable, comparable[..i]))
    {
      var dominated := Beaten(metrics, comparable, i);
      NextUndominated(dominates, comparable, i);
      if !dominated {
        front := front + [comparable[i].trial];
      }
    }
    assert comparable[..|comparable|] == comparable;
  }

  lemma NextUndominated(dominates: (Candidate, Candidate) -> bool, rows: seq<Candidate>, i: nat)
    requires i < |rows|
    ensures var before := Undominated(dominates, rows, rows[..i]);
      Trials(Undominated(dominates, rows, rows[..i+1])) ==
          Trials(before) + (if Dominated(dominates, rows, rows[i]) then [] else [rows[i].trial])
  {
    hide Dominated;
    assert rows[..i+1][..i] == rows[..i];
  }

  // ----- objective against one cost -----

  datatype Row = Row(trial: int, objective: real, cost: real)

  predicate Dominates(left: Row, right: Row, mode: string) {
    var objectiveBetter := if mode == "max" then left.objective >= right.objective
        else left.objective <= right.objective;
    var costBetter := left.cost <= right.cost;
    var strict := left.objective != right.objective || left.cost != right.cost;
    objectiveBetter && costBetter && strict
  }

  function ByCost(mode: string): (Row, Row) -> bool { (left, right) => Dominates(left, right, mode) }

  function AsCandidate(row: Row): Candidate {
    Candidate(row.trial, map["objective" := row.objective, "cost" := row.cost])
  }

  function TwoMetrics(mode: string): seq<Metric> { [Metric("objective", mode), Metric("cost", "min")] }

  /** The two-dimensional dominance is the general one over an objective and a cost. */
  lemma CostIsAComponent(left: Row, right: Row, mode: string)
    ensures Dominates(left, right, mode) <==> Beats(TwoMetrics(mode), AsCandidate(left), AsCandidate(right))
  {
    var l, r := AsCandidate(left), AsCandidate(right);
    var o, c := Metric("objective", mode), Metric("cost", "min");
    Names();
    assert l.components["objective"] == left.objective && r.components["objective"] == right.objective;
    assert o in TwoMetrics(mode) && c in TwoMetrics(mode);
    assert forall m :: m in TwoMetrics(mode) ==> m == o || m == c;
  }

  lemma Names()
    ensures "objective" != "cost" && "min" != "max"
  {
    assert |"objective"| != |"cost"|;
    assert "min"[1] != "max"[1];
  }

  /** Some row of every cost front has the best objective of all rows. */
  lemma FrontHoldsBestObjective(rows: seq<Row>, mode: string, best: Row) returns (kept: Row)
    requires best in rows
    requires forall r :: r in rows ==> if mode == "max" then r.objective <= best.objective
        else r.objective >= best.objective
    ensures kept in Front(ByCost(mode), rows) && kept.objective == best.objective && kept.cost <= best.cost
  {
    FrontMembers(ByCost(mode), rows, best);
    if Dominated(ByCost(mode), rows, best) {
      kept := FrontCovers(ByCost(mode), rows, best);
      FrontMembers(ByCost(mode), rows, kept);
      assert Dominates(kept, best, mode);
    } else {
      kept := best;
    }
  }
}
