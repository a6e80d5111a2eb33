/** Persisted run evidence: grouping runs into candidates, and the account of the cells a
    study design requires. */
module Evidence {
  import opened Options
  import opened Sums
  import opened Grouping
  import opened Sorting

  datatype Seed = NoSeed | Seed(value: int)

  /** A run: its trial, its seed, whether it has a final objective, whether it was censored. */
  datatype Run = Run(trial: int, seed: Seed, completed: bool, censored: bool)

  /** An entry of the persisted list; anything but a mapping is skipped. */
  datatype Raw = Malformed | Record(run: Run)

  datatype Candidate = Candidate(trial: int, runs: seq<Run>)

  // ----- grouping runs into candidates -----

  function WellFormed(source: seq<Raw>): seq<Run> {
    if source == [] then []
    else
      var last, rest := source[|source|-1], WellFormed(source[..|source|-1]);
      if last.Record? then rest + [last.run] else rest
  }

  function TrialsOf(runs: seq<Run>): seq<int> { seq(|runs|, i requires 0 <= i < |runs| => runs[i].trial) }

  /** All runs held by the candidates, candidate by candidate. */
  function AllRuns(candidates: seq<Candidate>): seq<Run> {
    if candidates == [] then [] else AllRuns(candidates[..|candidates|-1]) + candidates[|candidates|-1].runs
  }

  ghost predicate DistinctTrials(candidates: seq<Candidate>) {
    forall i, j :: 0 <= i < j < |candidates| ==> candidates[i].trial != candidates[j].trial
  }

  predicate AtMost(x: int, y: int) { x <= y }

  lemma {:induction false} WellFormedPrefix(source: seq<Raw>, i: nat)
    requires i < |source|
    ensures WellFormed(source[..i+1]) == WellFormed(source[..i]) + (if source[i].Record? then [source[i].run] else [])
    ensures WellFormed(source[..i+1]) <= WellFormed(source)
    decreases |source| - i
  {
    assert source[..i+1][..i] == source[..i];
    if i + 1 < |source| {
      WellFormedPrefix(source, i + 1);
    } else {
      assert source[..i+1] == source;
    }
  }

  /** Runs filed in a dictionary of candidates, read back by ascending trial. */
  method GroupRuns(source: seq<Raw>) returns (candidates: seq<Candidate>)
    ensures forall i, j :: 0 <= i < j < |candidates| ==> candidates[i].trial < candidates[j].trial
    ensures forall c :: c in candidates ==> c.runs == Pick(TrialsOf(WellFormed(source)), WellFormed(source), c.trial)
    ensures forall run :: run in WellFormed(source) ==> exists c :: c in candidates && c.trial == run.trial
    ensures multiset(AllRuns(candidates)) == multiset(WellFormed(source))
  {
    hide Filed, Sorted, AllRuns, Pick, WellFormed;
    var grouped: map<int, seq<Run>> := map[];
    var order: seq<int> := [];
    NothingFiled(source);
    for i := 0 to |source|
      invariant Filed(source, i, grouped, order)
    {
      FileNext(source, i, grouped, order);
      if source[i].Malformed? {
        continue;
      }
      var run := source[i].run;
      if run.trial !in grouped {
        order := order + [run.trial];
      }
      grouped := grouped[run.trial := (if run.trial in grouped then grouped[run.trial] else []) + [run]];
    }
    var keys := Sorted(AtMost, order);
    AllFiled(source, grouped, order, keys);
    candidates := Listed(keys, grouped);
  }

  /** After i entries, every well-formed run is filed under its trial, and the trials are
      listed once each in the order they were met. */
  ghost predicate Filed(source: seq<Raw>, i: nat, grouped: map<int, seq<Run>>, order: seq<int>)
    requires i <= |source|
  {
    var runs, k := WellFormed(source), |WellFormed(source[..i])|;
    && k <= |runs| && runs[..k] == WellFormed(source[..i])
    && Grouped(grouped, TrialsOf(runs), runs, k) && KeysOf(order, grouped)
  }

  lemma NothingFiled(source: seq<Raw>)
    ensures Filed(source, 0, map[], [])
  {
    assert WellFormed(source[..0]) == [];
  }

  lemma FileNext(source: seq<Raw>, i: nat, grouped: map<int, seq<Run>>, order: seq<int>)
    requires i < |source| && Filed(source, i, grouped, order)
    ensures source[i].Malformed? ==> Filed(source, i + 1, grouped, order)
    ensures source[i].Record? ==>
      var run := source[i].run;
      Filed(source, i + 1, grouped[run.trial := (if run.trial in grouped then grouped[run.trial] else []) + [run]],
        if run.trial in grouped then order else order + [run.trial])
  {
    var runs, k := WellFormed(source), |WellFormed(source[..i])|;
    WellFormedPrefix(source, i);
    hide WellFormed, Pick;
    if source[i].Record? {
      GroupedGrows(grouped, TrialsOf(runs), runs, k);
      hide Grouped;
    }
  }

  lemma AllFiled(source: seq<Raw>, grouped: map<int, seq<Run>>, order: seq<int>, keys: seq<int>)
    requires Filed(source, |source|, grouped, order) && keys == Sorted(AtMost, order)
    ensures forall i, j :: 0 <= i < j < |keys| ==> keys[i] < keys[j]
    ensures forall i :: 0 <= i < |keys| ==> keys[i] in grouped
    ensures forall c :: c in Listed(keys, grouped) ==>
        c.runs == Pick(TrialsOf(WellFormed(source)), WellFormed(source), c.trial)
    ensures forall run :: run in WellFormed(source) ==> exists c :: c in Listed(keys, grouped) && c.trial == run.trial
    ensures multiset(AllRuns(Listed(keys, grouped))) == multiset(WellFormed(source))
  {
    hide WellFormed, Pick, Sorted, AllRuns;
    assert source[..|source|] == source;
    SortedKeys(order, grouped, keys);
    AsCandidates(keys, grouped, TrialsOf(WellFormed(source)), WellFormed(source));
  }

  function Listed(keys: seq<int>, grouped: map<int, seq<Run>>): seq<Candidate>
    requires forall j :: 0 <= j < |keys| ==> keys[j] in grouped
  {
    seq(|keys|, j requires 0 <= j < |keys| => Candidate(keys[j], grouped[keys[j]]))
  }

  ghost predicate KeysOf(order: seq<int>, grouped: map<int, seq<Run>>) {
    && (forall i, j :: 0 <= i < j < |order| ==> order[i] != order[j])
    && (forall x :: x in order <==> x in grouped)
  }

  lemma SortedKeys(order: seq<int>, grouped: map<int, seq<Run>>, keys: seq<int>)
    requires KeysOf(order, grouped) && keys == Sorted(AtMost, order)
    ensures forall i, j :: 0 <= i < j < |keys| ==> keys[i] < keys[j]
    ensures forall i :: 0 <= i < |keys| ==> keys[i] in grouped
    ensures forall x :: x in keys <==> x in grouped
  {
    SortedIsSorted(AtMost, order);
    DistinctPermutation(order, keys);
    forall x ensures x in keys <==> x in grouped {
      assert x in keys <==> x in multiset(keys);
      assert x in order <==> x in multiset(order);
    }
    forall i | 0 <= i < |keys| ensures keys[i] in grouped {
      assert keys[i] in keys;
    }
    forall i, j | 0 <= i < j < |keys| ensures keys[i] < keys[j] {
      assert AtMost(keys[i], keys[j]);
    }
  }

  lemma AsCandidates(keys: seq<int>, grouped: map<int, seq<Run>>, labels: seq<int>, runs: seq<Run>)
    requires labels == TrialsOf(runs) && Grouped(grouped, labels, runs, |runs|)
    requires forall i, j :: 0 <= i < j < |keys| ==> keys[i] < keys[j]
    requires (forall x :: x in keys <==> x in grouped) && forall i :: 0 <= i < |keys| ==> keys[i] in grouped
    ensures forall c :: c in Listed(keys, grouped) ==> c.runs == Pick(labels, runs, c.trial)
    ensures forall run :: run in runs ==> exists c :: c in Listed(keys, grouped) && c.trial == run.trial
    ensures multiset(AllRuns(Listed(keys, grouped))) == multiset(runs)
  {
    hide Pick, AllRuns;
    var candidates := Listed(keys, grouped);
    assert labels[..|runs|] == labels && runs[..|runs|] == runs;
    forall run | run in runs ensures exists c :: c in candidates && c.trial == run.trial {
      var i :| 0 <= i < |runs| && runs[i] == run;
      assert labels[i] in keys;
      var j :| 0 <= j < |keys| && keys[j] == run.trial;
      assert candidates[j] in candidates && candidates[j].trial == run.trial;
    }
    CollectedRuns(keys, labels, runs, candidates);
    forall i | 0 <= i < |labels| ensures labels[i] in keys {
      assert labels[i] in labels;
    }
    CollectPermutes(keys, labels, runs);
  }

  ghost function Collect(keys: seq<int>, labels: seq<int>, runs: seq<Run>): seq<Run>
    requires |labels| == |runs|
  {
    if keys == [] then [] else Collect(keys[..|keys|-1], labels, runs) + Pick(labels, runs, keys[|keys|-1])
  }

  lemma {:induction false} CollectedRuns(keys: seq<int>, labels: seq<int>, runs: seq<Run>, candidates: seq<Candidate>)
    requires |labels| == |runs| && |candidates| == |keys|
    requires forall j :: 0 <= j < |keys| ==> candidates[j].runs == Pick(labels, runs, keys[j])
    ensures AllRuns(candidates) == Collect(keys, labels, runs)
  {
    hide Pick;
    if keys != [] {
      CollectedRuns(keys[..|keys|-1], labels, runs, candidates[..|keys|-1]);
    }
  }

  lemma {:induction false} PickAndDrop(labels: seq<int>, runs: seq<Run>, l: int)
    requires |labels| == |runs|
    ensures multiset(runs) == multiset(Pick(labels, runs, l)) + multiset(Drop(labels, runs, l))
  {
    if runs != [] {
      var n := |runs| - 1;
      PickAndDrop(labels[..n], runs[..n], l);
      SplitLast(runs);
      MultisetAppend(runs[..n], runs[n]);
      MultisetAppend(Pick(labels[..n], runs[..n], l), runs[n]);
      MultisetAppend(Drop(labels[..n], runs[..n], l), runs[n]);
    }
  }

  lemma {:induction false} CollectAfterDrop(keys: seq<int>, labels: seq<int>, runs: seq<Run>, l: int)
    requires |labels| == |runs| && l !in keys
    ensures |Drop(labels, labels, l)| == |Drop(labels, runs, l)|
    ensures Collect(keys, Drop(labels, labels, l), Drop(labels, runs, l)) == Collect(keys, labels, runs)
  {
    PickLength(labels, labels, runs, l);
    hide Pick, Drop;
    if keys != [] {
      CollectAfterDrop(keys[..|keys|-1], labels, runs, l);
      PickAfterDrop(labels, runs, l, keys[|keys|-1]);
    }
  }

  /** Selecting by every key in turn loses and repeats no run. */
  lemma {:induction false} CollectPermutes(keys: seq<int>, labels: seq<int>, runs: seq<Run>)
    requires |labels| == |runs| && forall i, j :: 0 <= i < j < |keys| ==> keys[i] != keys[j]
    requires forall i :: 0 <= i < |labels| ==> labels[i] in keys
    ensures multiset(Collect(keys, labels, runs)) == multiset(runs)
    decreases |keys|
  {
    if keys == [] {
      NoLabels(labels, keys);
    } else {
      var n := |keys| - 1;
      PickAndDrop(labels, runs, keys[n]);
      CollectAfterDrop(keys[..n], labels, runs, keys[n]);
      DropKeepsOthers(labels, keys[n]);
      LastKeyDropped(keys, keys[..n], labels);
      CollectPermutes(keys[..n], Drop(labels, labels, keys[n]), Drop(labels, runs, keys[n]));
    }
  }

  lemma NoLabels<T>(labels: seq<T>, keys: seq<T>)
    requires forall i :: 0 <= i < |labels| ==> labels[i] in keys
    ensures keys == [] ==> labels == []
  {
    if |labels| > 0 {
      assert labels[0] in keys;
    }
  }

  lemma LastKeyDropped<T>(keys: seq<T>, front: seq<T>, labels: seq<T>)
    requires keys != [] && front == keys[..|keys|-1] && forall i :: 0 <= i < |labels| ==> labels[i] in keys
    ensures var rest := Drop(labels, labels, keys[|keys|-1]);
      forall i :: 0 <= i < |rest| ==> rest[i] in front
  {
    var rest := Drop(labels, labels, keys[|keys|-1]);
    DropKeepsOthers(labels, keys[|keys|-1]);
    hide Drop;
    forall i | 0 <= i < |rest| ensures rest[i] in front {
      assert rest[i] in rest;
      var j :| 0 <= j < |labels| && labels[j] == rest[i];
      assert labels[j] in keys;
      SplitLast(keys);
    }
  }

  // ----- required cells -----

  /** One entry of the design's requirements; a candidate that is not an integer is skipped. */
  datatype Requirement = NotARequirement | Requirement(candidate: Option<int>, seed: Seed, required: bool)

  ghost predicate Asks(r: Requirement, cell: (int, Seed)) {
    r.Requirement? && r.required && r.candidate == Some(cell.0) && r.seed == cell.1
  }

  ghost predicate Asked(requirements: seq<Requirement>, cell: (int, Seed)) {
    exists r :: r in requirements && Asks(r, cell)
  }

  lemma AskedNext(requirements: seq<Requirement>, i: nat)
    requires i < |requirements|
    ensures forall cell :: Asked(requirements[..i+1], cell) <==>
        Asked(requirements[..i], cell) || Asks(requirements[i], cell)
  {
    assert requirements[..i+1] == requirements[..i] + [requirements[i]];
    assert requirements[i] in requirements[..i+1];
  }

  lemma CellsNext(required: map<int, set<Seed>>, t: int, s: Seed)
    ensures Cells(required[t := (if t in required then required[t] else {}) + {s}]) == Cells(required) + {(t, s)}
  {}

  /** The (candidate, seed) cells a table of required seeds holds. */
  ghost function Cells(required: map<int, set<Seed>>): set<(int, Seed)> {
    set t, s | t in required && s in required[t] :: (t, s)
  }

  /** The dictionary of required seeds holds exactly the cells asked for, no list empty. */
  method RequiredByCandidate(requirements: seq<Requirement>) returns (required: map<int, set<Seed>>)
    ensures forall t, s :: (t, s) in Cells(required) <==> Asked(requirements, (t, s))
    ensures forall t :: t in required ==> required[t] != {}
  {
    required := map[];
    for i := 0 to |requirements|
      invariant forall t, s :: (t, s) in Cells(required) <==> Asked(requirements[..i], (t, s))
      invariant forall t :: t in required ==> required[t] != {}
    {
      var value := requirements[i];
      AskedNext(requirements, i);
      if value.NotARequirement? || !value.required || value.candidate.None? {
        assert forall cell :: !Asks(value, cell);
        continue;
      }
      var t := value.candidate.value;
      CellsNext(required, t, value.seed);
      required := required[t := (if t in required then required[t] else {}) + {value.seed}];
    }
    assert requirements[..|requirements|] == requirements;
  }

  function CompletedSeeds(c: Candidate): set<Seed> { set run | run in c.runs && run.completed :: run.seed }

  function AttemptedSeeds(c: Candidate): set<Seed> {
    set run | run in c.runs && (run.completed || run.censored) :: run.seed
  }

  function Needed(required: map<int, set<Seed>>, trial: int): set<Seed> {
    if trial in required then required[trial] else {}
  }

  /** The sum over the candidates of their required seeds that were reached. */
  function Tally(candidates: seq<Candidate>, required: map<int, set<Seed>>, reached: Candidate -> set<Seed>): nat {
    if candidates == [] then 0
    else
      var last := candidates[|candidates|-1];
      Tally(candidates[..|candidates|-1], required, reached) + |Needed(required, last.trial) * reached(last)|
  }

  ghost predicate Hit(candidates: seq<Candidate>, reached: Candidate -> set<Seed>, cell: (int, Seed)) {
    exists c :: c in candidates && c.trial == cell.0 && cell.1 in reached(c)
  }

  /** The required cells some candidate reached. */
  ghost function HitCells(candidates: seq<Candidate>, required: map<int, set<Seed>>,
      reached: Candidate -> set<Seed>): set<(int, Seed)> {
    set cell | cell in Cells(required) && Hit(candidates, reached, cell)
  }

  ghost function Column(t: int, seeds: set<Seed>): set<(int, Seed)> { set s | s in seeds :: (t, s) }

  lemma {:induction false} ColumnSize(t: int, seeds: set<Seed>)
    ensures |Column(t, seeds)| == |seeds|
  {
    if seeds == {} {
      assert Column(t, seeds) == {};
    } else {
      var s :| s in seeds;
      ColumnSize(t, seeds - {s});
      assert Column(t, seeds) == Column(t, seeds - {s}) + {(t, s)};
    }
  }

  /** No required cell is reached by two listed candidates. */
  ghost predicate NoCellTwice(candidates: seq<Candidate>, required: map<int, set<Seed>>,
      reached: Candidate -> set<Seed>) {
    forall i, j :: 0 <= i < j < |candidates| && candidates[i].trial == candidates[j].trial ==>
      Needed(required, candidates[i].trial) * reached(candidates[i]) * reached(candidates[j]) == {}
  }

  ghost function LastColumn(candidates: seq<Candidate>, required: map<int, set<Seed>>,
      reached: Candidate -> set<Seed>): set<(int, Seed)>
    requires candidates != []
  {
    var last := candidates[|candidates|-1];
    Column(last.trial, Needed(required, last.trial) * reached(last))
  }

  lemma LastHits(candidates: seq<Candidate>, required: map<int, set<Seed>>, reached: Candidate -> set<Seed>)
    requires candidates != []
    ensures HitCells(candidates, required, reached)
         == HitCells(candidates[..|candidates|-1], required, reached) + LastColumn(candidates, required, reached)
  {
    var last, front := candidates[|candidates|-1], candidates[..|candidates|-1];
    SplitLast(candidates);
    forall cell | cell in Cells(required)
      ensures Hit(candidates, reached, cell) <==>
          Hit(front, reached, cell) || (cell.0 == last.trial && cell.1 in reached(last))
    {
      assert last in candidates;
    }
  }

  lemma LastTwice(candidates: seq<Candidate>, required: map<int, set<Seed>>, reached: Candidate -> set<Seed>)
    requires candidates != []
    ensures var front := candidates[..|candidates|-1];
      NoCellTwice(candidates, required, reached) <==>
        && NoCellTwice(front, required, reached)
        && HitCells(front, required, reached) !! LastColumn(candidates, required, reached)
  {
    var n := |candidates| - 1;
    var last, front := candidates[n], candidates[..n];
    var column := LastColumn(candidates, required, reached);
    if NoCellTwice(candidates, required, reached) {
      forall cell | cell in column ensures !Hit(front, reached, cell) {
        forall i | 0 <= i < n && candidates[i].trial == last.trial ensures cell.1 !in reached(front[i]) {
          assert cell.1 !in Needed(required, candidates[i].trial) * reached(candidates[i]) * reached(candidates[n]);
        }
      }
    }
    if HitCells(front, required, reached) !! column {
      forall i | 0 <= i < n && candidates[i].trial == last.trial
        ensures Needed(required, candidates[i].trial) * reached(candidates[i]) * reached(last) == {}
      {
        forall seed | seed in Needed(required, last.trial) * reached(candidates[i]) ensures seed !in reached(last) {
          assert front[i] in front && (last.trial, seed) in Cells(required);
          assert Hit(front, reached, (last.trial, seed));
          assert (last.trial, seed) !in column;
        }
      }
    }
  }

  /** The tally is at least the number of required cells reached, and is that number exactly
      when no required cell is reached twice. */
  lemma {:induction false} TallyCountsCells(candidates: seq<Candidate>, required: map<int, set<Seed>>,
      reached: Candidate -> set<Seed>)
    ensures Tally(candidates, required, reached) >= |HitCells(candidates, required, reached)|
    ensures Tally(candidates, required, reached) == |HitCells(candidates, required, reached)| <==>
        NoCellTwice(candidates, required, reached)
  {
    if candidates == [] {
      assert HitCells(candidates, required, reached) == {};
    } else {
      var last, front := candidates[|candidates|-1], candidates[..|candidates|-1];
      TallyCountsCells(front, required, reached);
      LastHits(candidates, required, reached);
      LastTwice(candidates, required, reached);
      ColumnSize(last.trial, Needed(required, last.trial) * reached(last));
      hide NoCellTwice, HitCells;
      UnionSize(HitCells(front, required, reached), LastColumn(candidates, required, reached));
    }
  }

  lemma UnionSize<T>(xs: set<T>, ys: set<T>)
    ensures |xs + ys| <= |xs| + |ys| && (|xs + ys| == |xs| + |ys| <==> xs !! ys)
  {
    assert xs + ys == xs + (ys - xs) && ys == (ys - xs) + (xs * ys);
    assert |ys| == |ys - xs| + |xs * ys|;
    assert xs * ys != {} ==> |xs * ys| > 0;
  }

  lemma {:induction false} TallyMonotone(candidates: seq<Candidate>, required: map<int, set<Seed>>)
    ensures Tally(candidates, required, CompletedSeeds) <= Tally(candidates, required, AttemptedSeeds)
  {
    if candidates != [] {
      var last := candidates[|candidates|-1];
      TallyMonotone(candidates[..|candidates|-1], required);
      SubsetSize(Needed(required, last.trial) * CompletedSeeds(last),
          Needed(required, last.trial) * AttemptedSeeds(last));
    }
  }

  datatype Summary = Summary(
    required: nat, completed: nat, attempted: nat, censored: nat, missing: nat, fraction: Option<real>,
        status: DesignStatus)

  datatype DesignStatus = Unknown | Incomplete | Complete

  /** The account: sums per candidate, the clamped differences, the completion fraction and
      whether the design is complete. */
  method Account(candidates: seq<Candidate>, required: map<int, set<Seed>>) returns (s: Summary)
    ensures s.required == |Cells(required)|
    ensures s.attempted == Tally(candidates, required, AttemptedSeeds)
    ensures s.completed == Tally(candidates, required, CompletedSeeds) <= s.attempted
    ensures s.completed + s.censored + s.missing == s.required <==> s.attempted <= s.required
    // the cells are conserved exactly when no two candidates attempted the same required cell
    ensures Conserved(candidates, required, s) <==> NoCellTwice(candidates, required, AttemptedSeeds)
    ensures s.fraction == if s.required != 0 then Some(s.completed as real / s.required as real) else None
    ensures s.status == if s.required == 0 then Unknown else if s.attempted == s.required then Complete else Incomplete
  {
    var total: nat := 0;
    var keys := required.Keys;
    ghost var seen: map<int, set<Seed>> := map[];
    while keys != {}
      invariant keys <= required.Keys && seen == required - keys && total == |Cells(seen)|
    {
      ghost var some := AnyMember(keys);
      var t :| t in keys;
      NextColumn(required, keys, t);
      total := total + |required[t]|;
      keys := keys - {t};
      seen := required - keys;
    }
    assert required - {} == required;
    var attempted := Tally(candidates, required, AttemptedSeeds);
    var completed := Tally(candidates, required, CompletedSeeds);
    TallyMonotone(candidates, required);
    s := Summary(total, completed, attempted, Max0(attempted - completed), Max0(total - attempted),
      if total != 0 then Some(completed as real / total as real) else None,
      if total != 0 && attempted == total then Complete else if total != 0 then Incomplete else Unknown);
    AccountAddsUp(candidates, required, s);
  }

  function Max0(x: int): nat { if x < 0 then 0 else x }

  lemma AnyMember<T>(xs: set<T>) returns (x: T)
    requires xs != {}
    ensures x in xs
  {
    x :| x in xs;
  }

  lemma NextColumn(required: map<int, set<Seed>>, keys: set<int>, t: int)
    requires t in keys && keys <= required.Keys
    ensures |Cells(required - (keys - {t}))| == |Cells(required - keys)| + |required[t]|
  {
    var before, after := Cells(required - keys), Cells(required - (keys - {t}));
    assert after == before + Column(t, required[t]);
    assert before !! Column(t, required[t]);
    ColumnSize(t, required[t]);
  }

  /** Every required cell is counted exactly once: completed, censored only, or missing. */
  ghost predicate Conserved(candidates: seq<Candidate>, required: map<int, set<Seed>>, s: Summary) {
    Partitioned(Cells(required), HitCells(candidates, required, CompletedSeeds),
        HitCells(candidates, required, AttemptedSeeds), s)
  }

  ghost predicate Partitioned(cells: set<(int, Seed)>, completed: set<(int, Seed)>, attempted: set<(int, Seed)>,
      s: Summary) {
    && completed <= attempted <= cells
    && s.completed == |completed| && s.censored == |attempted - completed| && s.missing == |cells - attempted|
    && s.completed + s.censored + s.missing == s.required
    && (cells != {} ==> s.fraction.Some? && (s.fraction.value == 1.0 <==> completed == cells))
    && (s.status == Complete <==> cells != {} && attempted == cells) && (s.status == Unknown <==> cells == {})
  }

  lemma AccountAddsUp(candidates: seq<Candidate>, required: map<int, set<Seed>>, s: Summary)
    requires s.required == |Cells(required)|
    requires s.completed == Tally(candidates, required, CompletedSeeds)
    requires s.attempted == Tally(candidates, required, AttemptedSeeds)
    requires s.censored == Max0(s.attempted - s.completed) && s.missing == Max0(s.required - s.attempted)
    requires s.fraction == if s.required != 0 then Some(s.completed as real / s.required as real) else None
    requires s.status ==
      if s.required != 0 && s.attempted == s.required then Complete else if s.required != 0 then Incomplete else Unknown
    ensures Conserved(candidates, required, s) <==> NoCellTwice(candidates, required, AttemptedSeeds)
  {
    CompletedOnce(candidates, required);
    hide Tally, Cells, HitCells, NoCellTwice, Partitioned, CompletedSeeds, AttemptedSeeds;
    TallyMonotone(candidates, required);
    TallyCountsCells(candidates, required, CompletedSeeds);
    TallyCountsCells(candidates, required, AttemptedSeeds);
    AddsUp(Cells(required), HitCells(candidates, required, CompletedSeeds),
        HitCells(candidates, required, AttemptedSeeds), s);
  }

  lemma CompletedOnce(candidates: seq<Candidate>, required: map<int, set<Seed>>)
    ensures HitCells(candidates, required, CompletedSeeds) <= HitCells(candidates, required, AttemptedSeeds)
    ensures HitCells(candidates, required, AttemptedSeeds) <= Cells(required)
    ensures NoCellTwice(candidates, required, AttemptedSeeds) ==> NoCellTwice(candidates, required, CompletedSeeds)
  {
    forall c: Candidate ensures CompletedSeeds(c) <= AttemptedSeeds(c) {}
    hide CompletedSeeds, AttemptedSeeds;
  }

  lemma AddsUp(cells: set<(int, Seed)>, completed: set<(int, Seed)>, attempted: set<(int, Seed)>, s: Summary)
    requires completed <= attempted <= cells
    requires s.required == |cells| && |completed| <= s.completed <= s.attempted && |attempted| <= s.attempted
    requires s.attempted == |attempted| ==> s.completed == |completed|
    requires s.censored == Max0(s.attempted - s.completed) && s.missing == Max0(s.required - s.attempted)
    requires s.fraction == if s.required != 0 then Some(s.completed as real / s.required as real) else None
    requires s.status ==
      if s.required != 0 && s.attempted == s.required then Complete else if s.required != 0 then Incomplete else Unknown
    ensures Partitioned(cells, completed, attempted, s) <==> s.attempted == |attempted|
  {
    CountingCells(cells, completed, attempted);
  }

  lemma CountingCells(cells: set<(int, Seed)>, completed: set<(int, Seed)>, attempted: set<(int, Seed)>)
    requires completed <= attempted <= cells
    ensures |completed| <= |attempted| <= |cells|
    ensures |attempted - completed| == |attempted| - |completed| && |cells - attempted| == |cells| - |attempted|
    ensures |cells| == 0 <==> cells == {}
    ensures |attempted| == |cells| <==> attempted == cells
    ensures cells != {} ==> (|completed| as real / |cells| as real == 1.0 <==> completed == cells)
  {
    SubsetSize(completed, cells);
    SubsetSize(attempted, cells);
    SubsetSize(completed, attempted);
    if cells != {} {
      Quotients(|completed| as real, 0.0, |cells| as real);
    }
  }

  // ----- candidates with complete evidence -----

  predicate EvidenceComplete(c: Candidate, required: map<int, set<Seed>>) {
    Needed(required, c.trial) != {} && Needed(required, c.trial) <= CompletedSeeds(c)
  }

  function CompleteCount(candidates: seq<Candidate>, required: map<int, set<Seed>>): nat {
    if candidates == [] then 0
    else
      var last := candidates[|candidates|-1];
      CompleteCount(candidates[..|candidates|-1], required) + (if EvidenceComplete(last, required) then 1 else 0)
  }

  ghost predicate CompletedBy(candidates: seq<Candidate>, required: map<int, set<Seed>>, t: int) {
    exists c :: c in candidates && c.trial == t && EvidenceComplete(c, required)
  }

  ghost function CompleteTrials(candidates: seq<Candidate>, required: map<int, set<Seed>>): set<int> {
    set t | t in required && CompletedBy(candidates, required, t)
  }

  lemma {:induction false} CountsTrials(candidates: seq<Candidate>, required: map<int, set<Seed>>)
    requires DistinctTrials(candidates)
    ensures CompleteCount(candidates, required) == |CompleteTrials(candidates, required)|
  {
    if candidates == [] {
      assert CompleteTrials(candidates, required) == {};
    } else {
      CountsTrials(candidates[..|candidates|-1], required);
      LastTrial(candidates, required);
    }
  }

  lemma LastTrial(candidates: seq<Candidate>, required: map<int, set<Seed>>)
    requires DistinctTrials(candidates) && candidates != []
    ensures var last, front := candidates[|candidates|-1], candidates[..|candidates|-1];
      && CompleteTrials(candidates, required) ==
          CompleteTrials(front, required) + (if EvidenceComplete(last, required) then {last.trial} else {})
      && last.trial !in CompleteTrials(front, required)
  {
    var last, front := candidates[|candidates|-1], candidates[..|candidates|-1];
    SplitLast(candidates);
    forall c | c in front ensures c.trial != last.trial {}
    forall t ensures CompletedBy(candidates, required, t) <==>
        CompletedBy(front, required, t) || (t == last.trial && EvidenceComplete(last, required)) {
      assert last in candidates;
      hide EvidenceComplete;
    }
  }

  /** With distinct trials, every required cell is completed exactly when the candidates with
      complete evidence are as many as the required candidates. */
  lemma AllCompleteIff(candidates: seq<Candidate>, required: map<int, set<Seed>>)
    requires DistinctTrials(candidates) && forall t :: t in required ==> required[t] != {}
    ensures CompleteCount(candidates, required) <= |required.Keys|
    ensures CompleteCount(candidates, required) == |required.Keys| <==>
        HitCells(candidates, required, CompletedSeeds) == Cells(required)
  {
    CountsTrials(candidates, required);
    var trials := CompleteTrials(candidates, required);
    SubsetSize(trials, required.Keys);
    hide CompleteCount, DistinctTrials;
    if trials == required.Keys {
      forall cell | cell in Cells(required) ensures Hit(candidates, CompletedSeeds, cell) {
        assert cell.0 in trials;
      }
    }
    if HitCells(candidates, required, CompletedSeeds) == Cells(required) {
      forall t | t in required ensures t in trials {
        AllSeedsHit(candidates, required, t);
      }
    }
  }

  lemma AllSeedsHit(candidates: seq<Candidate>, required: map<int, set<Seed>>, t: int)
    requires DistinctTrials(candidates) && t in required && required[t] != {}
    requires HitCells(candidates, required, CompletedSeeds) == Cells(required)
    ensures CompletedBy(candidates, required, t)
  {
    var s :| s in required[t];
    assert (t, s) in Cells(required);
    var c :| c in candidates && c.trial == t && s in CompletedSeeds(c);
    forall r | r in required[t] ensures r in CompletedSeeds(c) {
      assert (t, r) in Cells(required);
      var d :| d in candidates && d.trial == t && r in CompletedSeeds(d);
    }
    hide CompletedSeeds, HitCells;
    assert EvidenceComplete(c, required);
  }

  /** Runs grouped by trial lose and repeat nothing, and their account always adds up. */
  method AccountOfRuns(source: seq<Raw>, required: map<int, set<Seed>>) returns (candidates: seq<Candidate>, s: Summary)
    ensures multiset(AllRuns(candidates)) == multiset(WellFormed(source))
    ensures DistinctTrials(candidates) && Conserved(candidates, required, s)
  {
    hide AllRuns, Pick, WellFormed, Conserved;
    candidates := GroupRuns(source);
    s := Account(candidates, required);
    DistinctTrialsReachOnce(candidates, required, AttemptedSeeds);
  }

  /** With distinct trials no cell is reached twice. */
  lemma DistinctTrialsReachOnce(candidates: seq<Candidate>, required: map<int, set<Seed>>,
      reached: Candidate -> set<Seed>)
    requires DistinctTrials(candidates)
    ensures NoCellTwice(candidates, required, reached)
  {}

  /** Candidates read directly may repeat a trial: one completed cell then counts twice, the
      completion fraction is 2 and the design still incomplete. */
  method RepeatedTrialsMiscount() returns (candidates: seq<Candidate>, required: map<int, set<Seed>>, s: Summary)
    ensures s.required == 1 && s.completed == s.attempted == 2
    ensures s.fraction == Some(2.0) && s.status == Incomplete && !Conserved(candidates, required, s)
  {
    var run := Run(0, Seed(1), true, false);
    var c := Candidate(0, [run]);
    candidates := [c, c];
    required := map[0 := {Seed(1)}];
    s := Account(candidates, required);
    assert Cells(required) == {(0, Seed(1))};
    assert run in c.runs;
    assert AttemptedSeeds(c) == CompletedSeeds(c) == {Seed(1)};
    assert candidates[..1] == [c] && [c][..0] == [];
    assert Tally([c], required, AttemptedSeeds) == Tally([c], required, CompletedSeeds) == 1;
    assert Needed(required, candidates[0].trial) * AttemptedSeeds(candidates[0]) * AttemptedSeeds(candidates[1]) ==
        {Seed(1)};
  }
}
