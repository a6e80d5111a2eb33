/** The two read-model projections of live study telemetry: the compact interactive index and
    the trial table.  Documents are JSON values; the order of object keys is not modelled. */
module StudyProjection {

  /** The field names the projections mention; any other name is OtherKey. */
  datatype Key =
    | KAdmission | KAttemptedCompletionFraction | KBestObjective | KBestObservedObjective
    | KBestSeed | KBestStep | KCandidates | KConfirmationStatus | KController
    | KControllerTelemetryVersion | KCost | KCounts | KCoverageState | KCreatedAtUtc | KCurrent
    | KCurrentObjective | KCurrentObservedObjective | KDesign | KDesignStatus | KDetailLevel
    | KDiagnosticMetrics | KDurationSeconds | KEvidenceCompletionFraction | KEvidenceRequirement
    | KExecutionId | KFeasibility | KFidelity | KFinalObjective | KFinishReason | KFinished
    | KGpuIndex | KGpuIndices | KGpuToken | KHistoryCount | KHpoAnalysis | KInitialDesign
    | KInitialization | KInteractiveProjectionVersion | KKey | KLast | KLatestStep
    | KLeaderParameters | KLifecycle | KLogPath | KMetricsPath | KMode | KName | KObjective
    | KObjectiveCensoring | KObjectiveStatus | KParameters | KParetoOptimal | KPartiallyCensored
    | KPhase | KPlannedCandidates | KPlannedRuns | KPruneReason | KPurpose | KRecent
    | KRequiredCompleted | KRequiredFailed | KRequiredMissing | KRequiredPruned | KRequiredRuns
    | KRunDir | KRunStates | KRuns | KScheduler | KScientificConfigurationRequired
    | KScientificContinuation | KScientificStatus | KSeed | KSeedCount | KSelectionObjective
    | KSelectionSeedCount | KSelectionStandardError | KState | KStatus | KStrategy
    | KStudyTelemetryVersion | KSurrogateBelief | KTargetQuestions | KTerminationType
    | KTrainingMetricsPath | KTrial | KUpdatedAtUtc
    | OtherKey(name: string)

  datatype Json =
    | Null
    | Bool(b: bool)
    | Int(n: int)
    | Float(x: real)
    | Str(s: string)
    | Arr(items: seq<Json>)
    | Obj(fields: map<Key, Json>)

  type Fields = map<Key, Json>

  /** Either a value or the exception the original raises on such a document. */
  datatype Result<+T> = Ok(value: T) | Raised {
    predicate IsFailure() { Raised? }
    function PropagateFailure<U>(): Result<U> requires Raised? { Raised }
    function Extract(): T requires Ok? { value }
  }

  /** The language's own conversions to text and to integer, which may raise. */
  datatype Builtins = Builtins(text: Json -> string, integer: Json -> Result<int>)

  ghost predicate Sound(py: Builtins) {
    forall n :: py.integer(Int(n)) == Ok(n)
  }

  // ----- field lists -----

  function RowFields(): set<Key> {
    {KTrial, KState, KSelectionObjective, KSelectionSeedCount, KSelectionStandardError,
     KCurrentObjective, KBestObjective, KBestSeed, KBestStep, KSeedCount,
     KPartiallyCensored, KParetoOptimal, KLatestStep, KGpuIndices}
  }

  function CandidateFields(): set<Key> {
    {KTrial, KParameters, KState, KSelectionObjective, KSelectionSeedCount,
     KSelectionStandardError, KCurrentObjective, KBestObjective, KPartiallyCensored,
     KParetoOptimal, KCost, KFeasibility, KConfirmationStatus, KDiagnosticMetrics}
  }

  function RunFields(): set<Key> {
    {KKey, KSeed, KPhase, KPurpose, KTargetQuestions, KFidelity, KState,
     KCurrentObservedObjective, KBestObservedObjective, KFinalObjective,
     KObjectiveStatus, KObjectiveCensoring, KLatestStep, KBestStep, KBestObjective,
     KDurationSeconds, KGpuIndex, KGpuToken, KTerminationType, KPruneReason,
     KScientificContinuation, KEvidenceRequirement, KRunDir, KLogPath, KMetricsPath,
     KTrainingMetricsPath}
  }

  function TableFields(): set<Key> {
    {KStudyTelemetryVersion, KName, KExecutionId, KStrategy, KObjective, KPlannedRuns,
     KPlannedCandidates, KStatus, KDesignStatus, KLifecycle, KScientificStatus,
     KFinishReason, KRequiredRuns, KRequiredCompleted, KRequiredPruned,
     KRequiredFailed, KRequiredMissing, KEvidenceCompletionFraction,
     KAttemptedCompletionFraction, KCounts, KCost, KRunStates, KLeaderParameters,
     KFinished, KUpdatedAtUtc}
  }

  function IndexFields(): set<Key> {
    {KStudyTelemetryVersion, KName, KExecutionId, KStrategy, KDesign, KObjective,
     KPlannedRuns, KPlannedCandidates, KStatus, KDesignStatus, KScientificStatus,
     KFinishReason, KRequiredRuns, KRequiredCompleted, KRequiredPruned,
     KRequiredFailed, KRequiredMissing, KEvidenceCompletionFraction,
     KAttemptedCompletionFraction, KCounts, KCost, KInitialDesign, KCoverageState,
     KHpoAnalysis, KSurrogateBelief, KFinished, KCreatedAtUtc, KUpdatedAtUtc}
  }

  function ControllerFields(): set<Key> {
    {KLast, KRecent, KHistoryCount, KSurrogateBelief, KScheduler, KInitialization,
     KControllerTelemetryVersion, KScientificConfigurationRequired}
  }

  // ----- reading documents -----

  /** The entry of a key, Null for a missing one. */
  function Get(f: Fields, key: Key): Json { if key in f then f[key] else Null }

  function Restrict(f: Fields, keys: set<Key>): Fields { map k | k in keys && k in f :: f[k] }

  /** The value unless it is falsy, in which case the default. */
  function Or(j: Json, default: Json): Json {
    match j
    case Null => default
    case Bool(b) => if b then j else default
    case Int(n) => if n != 0 then j else default
    case Float(x) => if x != 0.0 then j else default
    case Str(s) => if s != "" then j else default
    case Arr(items) => if items != [] then j else default
    case Obj(fields) => if |fields| != 0 then j else default
  }

  /** The objects among the elements of an array, in order. */
  function Objects(items: seq<Json>): seq<Fields> {
    if items == [] then []
    else
      var n := |items| - 1;
      if items[n].Obj? then Objects(items[..n]) + [items[n].fields] else Objects(items[..n])
  }

  /** The mappings met when iterating over an entry with default (): objects and texts iterate
      over text, scalars do not iterate. */
  function Mappings(f: Fields, key: Key): Result<seq<Fields>> {
    if key !in f then Ok([])
    else match f[key]
      case Arr(items) => Ok(Objects(items))
      case Obj(_) => Ok([])
      case Str(_) => Ok([])
      case _ => Raised
  }

  // ----- the trial table -----

  function StepOf(py: Builtins, run: Fields): Result<int> { py.integer(Or(Get(run, KLatestStep), Int(0))) }

  function LatestStep(py: Builtins, runs: seq<Fields>): Result<int>
    requires runs != []
  {
    var n := |runs| - 1;
    var step :- StepOf(py, runs[n]);
    if n == 0 then Ok(step)
    else
      var before :- LatestStep(py, runs[..n]);
      Ok(if before < step then step else before)
  }

  predicate Increasing(xs: seq<int>) { forall i, j :: 0 <= i < j < |xs| ==> xs[i] < xs[j] }

  /** Insertion into an increasing list, dropping duplicates. */
  function Insert(x: int, xs: seq<int>): seq<int> {
    if xs == [] then [x]
    else if x < xs[0] then [x] + xs
    else if x == xs[0] then xs
    else [xs[0]] + Insert(x, xs[1..])
  }

  /** The sorted distinct devices of the running runs. */
  function GpuIndices(py: Builtins, runs: seq<Fields>): Result<seq<int>> {
    if runs == [] then Ok([])
    else
      var n := |runs| - 1;
      var before :- GpuIndices(py, runs[..n]);
      if Get(runs[n], KState) == Str("running") && Get(runs[n], KGpuIndex) != Null then
        var gpu :- py.integer(Get(runs[n], KGpuIndex));
        Ok(Insert(gpu, before))
      else Ok(before)
  }

  lemma {:induction false} InsertMembers(x: int, xs: seq<int>)
    ensures forall y :: y in Insert(x, xs) <==> y == x || y in xs
  {
    if xs != [] {
      InsertMembers(x, xs[1..]);
      assert xs == [xs[0]] + xs[1..];
    }
  }

  lemma {:induction false} InsertIncreasing(x: int, xs: seq<int>)
    requires Increasing(xs)
    ensures Increasing(Insert(x, xs))
  {
    if xs != [] && x > xs[0] {
      InsertIncreasing(x, xs[1..]);
      InsertMembers(x, xs[1..]);
      var rest := Insert(x, xs[1..]);
      forall j | 0 <= j < |rest| ensures xs[0] < rest[j] {
        assert rest[j] in rest;
      }
    }
  }

  predicate RunsOn(py: Builtins, run: Fields, gpu: int) {
    Get(run, KState) == Str("running") && Get(run, KGpuIndex) != Null && py.integer(Get(run, KGpuIndex)) == Ok(gpu)
  }

  ghost predicate SomeRunOn(py: Builtins, runs: seq<Fields>, gpu: int) {
    exists i :: 0 <= i < |runs| && RunsOn(py, runs[i], gpu)
  }

  /** The device list is sorted, without duplicates, and exactly the devices of running runs. */
  lemma {:induction false} GpuIndicesExact(py: Builtins, runs: seq<Fields>)
    requires GpuIndices(py, runs).Ok?
    ensures Increasing(GpuIndices(py, runs).value)
    ensures forall g :: g in GpuIndices(py, runs).value <==> SomeRunOn(py, runs, g)
  {
    hide Increasing, SomeRunOn, Insert;
    if runs == [] {
      NoRuns(py);
    } else {
      var n := |runs| - 1;
      GpuIndicesExact(py, runs[..n]);
      var before := GpuIndices(py, runs[..n]).value;
      if Get(runs[n], KState) == Str("running") && Get(runs[n], KGpuIndex) != Null {
        InsertMembers(py.integer(Get(runs[n], KGpuIndex)).value, before);
        InsertIncreasing(py.integer(Get(runs[n], KGpuIndex)).value, before);
      }
      forall g ensures g in GpuIndices(py, runs).value <==> SomeRunOn(py, runs, g) {
        OneMoreRun(py, runs, g);
      }
    }
  }

  lemma NoRuns(py: Builtins)
    ensures Increasing([]) && forall g :: !SomeRunOn(py, [], g)
  {}

  lemma OneMoreRun(py: Builtins, runs: seq<Fields>, g: int)
    requires runs != []
    ensures SomeRunOn(py, runs, g) <==> RunsOn(py, runs[|runs|-1], g) || SomeRunOn(py, runs[..|runs|-1], g)
  {
    hide RunsOn;
    var prefix := runs[..|runs|-1];
    if SomeRunOn(py, runs, g) {
      var i :| 0 <= i < |runs| && RunsOn(py, runs[i], g);
      if i < |runs| - 1 {
        assert RunsOn(py, prefix[i], g);
      }
    }
    if SomeRunOn(py, prefix, g) {
      var i :| 0 <= i < |prefix| && RunsOn(py, prefix[i], g);
      assert RunsOn(py, runs[i], g);
    }
  }

  function Ints(xs: seq<int>): seq<Json> { seq(|xs|, i requires 0 <= i < |xs| => Int(xs[i])) }

  function Row(py: Builtins, candidate: Fields): Result<Fields> {
    var row := Restrict(candidate, RowFields());
    var runs :- Mappings(candidate, KRuns);
    if runs == [] then Ok(row)
    else
      var step :- LatestStep(py, runs);
      var gpus :- GpuIndices(py, runs);
      Ok(row + Live(|runs|, step, gpus))
  }

  function Live(count: nat, step: int, gpus: seq<int>): Fields {
    map[KSeedCount := Int(count), KLatestStep := Int(step), KGpuIndices := Arr(Ints(gpus))]
  }

  function Rows(py: Builtins, candidates: seq<Fields>): Result<seq<Fields>> {
    if candidates == [] then Ok([])
    else
      var n := |candidates| - 1;
      var before :- Rows(py, candidates[..n]);
      var row :- Row(py, candidates[n]);
      Ok(before + [row])
  }

  function RunsOf(candidate: Fields): seq<Fields> {
    match Mappings(candidate, KRuns) case Ok(runs) => runs case Raised => []
  }

  function Count(counts: map<string, nat>, name: string): map<string, nat> {
    counts[name := (if name in counts then counts[name] else 0) + 1]
  }

  function StateLabel(py: Builtins, run: Fields): string {
    py.text(if KState in run then run[KState] else Str("unknown"))
  }

  function CountRuns(py: Builtins, runs: seq<Fields>, counts: map<string, nat>): map<string, nat> {
    if runs == [] then counts
    else Count(CountRuns(py, runs[..|runs|-1], counts), StateLabel(py, runs[|runs|-1]))
  }

  function States(py: Builtins, candidates: seq<Fields>): map<string, nat> {
    if candidates == [] then map[]
    else CountRuns(py, RunsOf(candidates[|candidates|-1]), States(py, candidates[..|candidates|-1]))
  }

  predicate Scored(candidate: Fields) {
    Get(candidate, KSelectionObjective).Int? || Get(candidate, KSelectionObjective).Float?
  }

  function Score(candidate: Fields): real
    requires Scored(candidate)
  {
    match Get(candidate, KSelectionObjective)
    case Int(n) => n as real
    case Float(x) => x
  }

  predicate Better(minimise: bool, x: real, y: real) { if minimise then x < y else x > y }

  function Leader(minimise: bool, candidates: seq<Fields>): (leader: int)
    ensures -1 <= leader < |candidates|
    ensures leader >= 0 ==> Scored(candidates[leader])
  {
    if candidates == [] then -1
    else
      var n := |candidates| - 1;
      var before := Leader(minimise, candidates[..n]);
      if Scored(candidates[n]) && (before < 0 || Better(minimise, Score(candidates[n]), Score(candidates[before])))
      then n else before
  }

  /** The leader is the first of the best scored candidates, and exists when any is scored. */
  lemma {:induction false} LeaderIsFirstBest(minimise: bool, candidates: seq<Fields>)
    ensures var l := Leader(minimise, candidates);
      && (l < 0 ==> forall i :: 0 <= i < |candidates| ==> !Scored(candidates[i]))
      && (l >= 0 ==> forall i :: 0 <= i < |candidates| && Scored(candidates[i]) ==>
            if i < l then Better(minimise, Score(candidates[l]), Score(candidates[i]))
            else !Better(minimise, Score(candidates[i]), Score(candidates[l])))
  {
    if candidates != [] {
      LeaderIsFirstBest(minimise, candidates[..|candidates|-1]);
    }
  }

  /** Whether the objective is minimised: its mode, read as text, is "min"; an absent or empty
      objective and an absent mode mean maximisation, and an objective that is no object raises. */
  function Minimise(py: Builtins, value: Fields): Result<bool> {
    match Or(Get(value, KObjective), Obj(map[]))
    case Obj(objective) => Ok(py.text(if KMode in objective then objective[KMode] else Str("max")) == "min")
    case _ => Raised
  }

  function Table(value: Fields, rows: seq<Fields>, states: map<string, nat>, parameters: Json): Fields {
    map[KInteractiveProjectionVersion := Int(3), KDetailLevel := Str("interactive")]
    + Restrict(value, TableFields())
    + map[KCandidates := Arr(Wrapped(rows))]
    + RunStates(states)
    + LeaderEntry(parameters)
  }

  function RunStates(states: map<string, nat>): Fields {
    if states == map[] then map[]
    else map[KRunStates := Obj(map k | k in states :: OtherKey(k) := Int(states[k]))]
  }

  function LeaderEntry(parameters: Json): Fields {
    if parameters.Obj? then map[KLeaderParameters := parameters] else map[]
  }

  function Wrapped(rows: seq<Fields>): seq<Json> { seq(|rows|, i requires 0 <= i < |rows| => Obj(rows[i])) }

  function LeaderParameters(minimise: bool, candidates: seq<Fields>): Json {
    var leader := Leader(minimise, candidates);
    if leader < 0 then Null else Get(candidates[leader], KParameters)
  }

  /** The trial table of a document. */
  function TableOf(py: Builtins, value: Fields): Result<Fields> {
    var minimise :- Minimise(py, value);
    var candidates :- Mappings(value, KCandidates);
    var rows :- Rows(py, candidates);
    Ok(Table(value, rows, States(py, candidates), LeaderParameters(minimise, candidates)))
  }

  lemma {:induction false} RowsPrefixRaises(py: Builtins, candidates: seq<Fields>, k: nat)
    requires k <= |candidates| && Rows(py, candidates[..k]).Raised?
    ensures Rows(py, candidates).Raised?
    decreases |candidates|
  {
    if k == |candidates| {
      assert candidates[..k] == candidates;
    } else {
      assert candidates[..|candidates|-1][..k] == candidates[..k];
      RowsPrefixRaises(py, candidates[..|candidates|-1], k);
    }
  }

  lemma PrefixOf<T>(xs: seq<T>, i: nat)
    requires i <= |xs|
    ensures i < |xs| ==> xs[..i+1][..i] == xs[..i]
    ensures i == |xs| ==> xs[..i] == xs
  {}

  /** One pass over the candidates with a row list, a counter of run states and a leader. */
  method StudyTable(py: Builtins, value: Fields) returns (r: Result<Fields>)
    ensures r == TableOf(py, value)
    ensures r.Ok? ==> Tabulates(py, value, r.value)
  {
    TableTells(py, value);
    hide Tabulates, Row, Table, CountRuns, Minimise, Mappings, RunsOf, Better, Restrict;
    var mode := Minimise(py, value);
    var listed := Mappings(value, KCandidates);
    if mode.Raised? || listed.Raised? { return Raised; }
    var minimise, candidates := mode.value, listed.value;
    var rows: seq<Fields> := [];
    var states: map<string, nat> := map[];
    var leader := -1;
    for i := 0 to |candidates|
      invariant Rows(py, candidates[..i]) == Ok(rows)
      invariant states == States(py, candidates[..i])
      invariant leader == Leader(minimise, candidates[..i])
    {
      PrefixOf(candidates, i);
      var candidate := candidates[i];
      var row := Row(py, candidate);
      if row.Raised? {
        RowsPrefixRaises(py, candidates, i + 1);
        return Raised;
      }
      states := CountRuns(py, RunsOf(candidate), states);
      rows := rows + [row.value];
      if Scored(candidate) && (leader < 0 || Better(minimise, Score(candidate), Score(candidates[leader]))) {
        leader := i;
      }
    }
    PrefixOf(candidates, |candidates|);
    var parameters := if leader < 0 then Null else Get(candidates[leader], KParameters);
    r := Ok(Table(value, rows, states, parameters));
  }

  // ----- what the table says -----

  /** Neither absent, false, zero nor empty. */
  ghost predicate Truthy(j: Json) {
    j != Null && j != Bool(false) && j != Int(0) && j != Float(0.0) && j != Str("") && j != Arr([]) && j != Obj(map[])
  }

  lemma OrIsTruthy(j: Json, default: Json)
    ensures Or(j, default) == if Truthy(j) then j else default
  {
    if j.Obj? && |j.fields| == 0 {
      assert j.fields == map[];
    }
  }

  /** The step a run has reached, 0 when nothing is recorded. */
  ghost function StepRead(py: Builtins, run: Fields): Result<int> {
    var latest := Get(run, KLatestStep);
    py.integer(if Truthy(latest) then latest else Int(0))
  }

  lemma StepIsRead(py: Builtins, run: Fields)
    ensures StepOf(py, run) == StepRead(py, run)
  {
    OrIsTruthy(Get(run, KLatestStep), Int(0));
  }

  /** The greatest step any run has reached. */
  ghost predicate GreatestStep(py: Builtins, runs: seq<Fields>, step: int) {
    && (forall i :: 0 <= i < |runs| ==> StepRead(py, runs[i]).Ok? && StepRead(py, runs[i]).value <= step)
    && exists i :: 0 <= i < |runs| && StepRead(py, runs[i]) == Ok(step)
  }

  lemma {:induction false} LatestIsGreatest(py: Builtins, runs: seq<Fields>)
    requires runs != []
    ensures LatestStep(py, runs).Ok? ==> GreatestStep(py, runs, LatestStep(py, runs).value)
    ensures LatestStep(py, runs).Raised? <==> exists i :: 0 <= i < |runs| && StepRead(py, runs[i]).Raised?
  {
    hide StepOf, StepRead;
    var n := |runs| - 1;
    StepIsRead(py, runs[n]);
    if n > 0 {
      LatestIsGreatest(py, runs[..n]);
      assert forall i :: 0 <= i < n ==> runs[..n][i] == runs[i];
    }
  }

  /** The running device entry of a run cannot be read as an integer. */
  predicate BadDevice(py: Builtins, run: Fields) {
    Get(run, KState) == Str("running") && Get(run, KGpuIndex) != Null && py.integer(Get(run, KGpuIndex)).Raised?
  }

  lemma {:induction false} DevicesRaise(py: Builtins, runs: seq<Fields>)
    ensures GpuIndices(py, runs).Raised? <==> exists i :: 0 <= i < |runs| && BadDevice(py, runs[i])
  {
    if runs != [] {
      var n := |runs| - 1;
      DevicesRaise(py, runs[..n]);
      assert forall i :: 0 <= i < n ==> runs[..n][i] == runs[i];
      hide Insert;
    }
  }

  const LIVE: set<Key> := {KSeedCount, KLatestStep, KGpuIndices}

  /** A row copies the row fields of its candidate; runs determine the three live ones. */
  ghost predicate RowTells(py: Builtins, candidate: Fields, row: Fields) {
    var runs := RunsOf(candidate);
    && (forall k :: k in row <==> k in RowFields() && (k in candidate || (runs != [] && k in LIVE)))
    && (forall k :: k in row && (runs == [] || k !in LIVE) ==> row[k] == candidate[k])
    && (runs != [] ==> LiveTell(py, runs, row))
  }

  ghost predicate LiveTell(py: Builtins, runs: seq<Fields>, row: Fields) {
    && Get(row, KSeedCount) == Int(|runs|)
    && (exists step :: Get(row, KLatestStep) == Int(step) && GreatestStep(py, runs, step))
    && exists gpus :: Get(row, KGpuIndices) == Arr(Ints(gpus)) && Increasing(gpus)
                      && forall g :: g in gpus <==> SomeRunOn(py, runs, g)
  }

  lemma LiveRow(py: Builtins, runs: seq<Fields>, row: Fields, step: int, gpus: seq<int>)
    requires runs != [] && LatestStep(py, runs) == Ok(step) && GpuIndices(py, runs) == Ok(gpus)
    requires Get(row, KSeedCount) == Int(|runs|) && Get(row, KLatestStep) == Int(step)
    requires Get(row, KGpuIndices) == Arr(Ints(gpus))
    ensures LiveTell(py, runs, row)
  {
    LatestIsGreatest(py, runs);
    GpuIndicesExact(py, runs);
    hide LatestStep, GpuIndices, GreatestStep, Increasing, SomeRunOn, Ints;
  }

  lemma RowIsTold(py: Builtins, candidate: Fields)
    ensures Row(py, candidate).Ok? ==> RowTells(py, candidate, Row(py, candidate).value)
  {
    RowFieldFacts();
    var runs := RunsOf(candidate);
    hide RowFields, LatestStep, GpuIndices, LiveTell, Ints, Mappings;
    if Row(py, candidate).Ok? && runs != [] {
      var step, gpus := LatestStep(py, runs).value, GpuIndices(py, runs).value;
      LiveRow(py, runs, Row(py, candidate).value, step, gpus);
    }
  }

  lemma {:induction false} RowsAreTold(py: Builtins, candidates: seq<Fields>)
    ensures var rows := Rows(py, candidates);
      rows.Ok? ==>
        && |rows.value| == |candidates|
        && forall i :: 0 <= i < |candidates| ==> RowTells(py, candidates[i], rows.value[i])
  {
    hide Row, RowTells;
    if candidates != [] {
      var n := |candidates| - 1;
      RowsAreTold(py, candidates[..n]);
      RowIsTold(py, candidates[n]);
    }
  }

  /** The labels of all runs, in order. */
  ghost function Labels(py: Builtins, runs: seq<Fields>): seq<string> {
    if runs == [] then [] else Labels(py, runs[..|runs|-1]) + [StateLabel(py, runs[|runs|-1])]
  }

  ghost function AllLabels(py: Builtins, candidates: seq<Fields>): seq<string> {
    if candidates == [] then []
    else AllLabels(py, candidates[..|candidates|-1]) + Labels(py, RunsOf(candidates[|candidates|-1]))
  }

  /** The counter of a list of labels. */
  ghost predicate Tallies(counts: map<string, nat>, labels: seq<string>) {
    forall l :: (l in counts <==> l in labels) && (l in counts ==> counts[l] == multiset(labels)[l])
  }

  lemma CountTallies(counts: map<string, nat>, labels: seq<string>, name: string)
    requires Tallies(counts, labels)
    ensures Tallies(Count(counts, name), labels + [name])
  {
    assert multiset(labels + [name]) == multiset(labels) + multiset{name};
    assert name !in counts ==> name !in multiset(labels);
  }

  lemma {:induction false} RunsTally(py: Builtins, runs: seq<Fields>, counts: map<string, nat>, before: seq<string>)
    requires Tallies(counts, before)
    ensures Tallies(CountRuns(py, runs, counts), before + Labels(py, runs))
  {
    if runs == [] {
      assert before + Labels(py, runs) == before;
    } else {
      var n := |runs| - 1;
      RunsTally(py, runs[..n], counts, before);
      CountTallies(CountRuns(py, runs[..n], counts), before + Labels(py, runs[..n]), StateLabel(py, runs[n]));
      assert before + Labels(py, runs) == before + Labels(py, runs[..n]) + [StateLabel(py, runs[n])];
      hide Tallies, StateLabel, Count;
    }
  }

  lemma {:induction false} StatesTally(py: Builtins, candidates: seq<Fields>)
    ensures Tallies(States(py, candidates), AllLabels(py, candidates))
  {
    if candidates != [] {
      var n := |candidates| - 1;
      StatesTally(py, candidates[..n]);
      RunsTally(py, RunsOf(candidates[n]), States(py, candidates[..n]), AllLabels(py, candidates[..n]));
      hide Tallies, CountRuns, Labels;
    }
  }

  /** An entry is the recorded one, or absent like it. */
  predicate SameEntry(f: Fields, g: Fields, key: Key) { (key in f <==> key in g) && Get(f, key) == Get(g, key) }

  /** The counts of all runs of all candidates per state; without any run, what was recorded. */
  ghost predicate StatesTell(value: Fields, table: Fields, labels: seq<string>) {
    if labels == [] then SameEntry(table, value, KRunStates)
    else
      && Get(table, KRunStates).Obj?
      && var counts := Get(table, KRunStates).fields;
      && (forall k :: k in counts ==> k.OtherKey? && k.name in labels)
      && forall l :: l in labels ==> OtherKey(l) in counts && counts[OtherKey(l)] == Int(multiset(labels)[l])
  }

  /** The recorded objective is a number; a truth value is none. */
  ghost predicate HasScore(candidate: Fields) {
    var j := Get(candidate, KSelectionObjective);
    j.Int? || j.Float?
  }

  ghost function NumberOf(candidate: Fields): real {
    var j := Get(candidate, KSelectionObjective);
    if j.Int? then j.n as real else if j.Float? then j.x else 0.0
  }

  /** Candidate l has the best score, and is the first with it. */
  ghost predicate FirstBest(minimise: bool, candidates: seq<Fields>, l: nat) {
    && l < |candidates| && HasScore(candidates[l])
    && forall i :: 0 <= i < |candidates| && HasScore(candidates[i]) ==>
        var mine, other := NumberOf(candidates[l]), NumberOf(candidates[i]);
        if minimise then mine <= other && (i < l ==> mine < other)
        else mine >= other && (i < l ==> mine > other)
  }

  /** The parameters of the first candidate with the least score when the mode reads "min", with
      the greatest otherwise; without a score, or without parameters, what was recorded. */
  ghost predicate LeaderTells(minimise: bool, value: Fields, table: Fields, candidates: seq<Fields>) {
    && ((forall i :: 0 <= i < |candidates| ==> !HasScore(candidates[i])) ==> SameEntry(table, value, KLeaderParameters))
    && ((exists i :: 0 <= i < |candidates| && HasScore(candidates[i])) ==>
        exists l: nat :: FirstBest(minimise, candidates, l))
    && forall l: nat :: FirstBest(minimise, candidates, l) ==>
        if Get(candidates[l], KParameters).Obj?
        then KLeaderParameters in table && table[KLeaderParameters] == candidates[l][KParameters]
        else SameEntry(table, value, KLeaderParameters)
  }

  lemma LeaderIsFirst(minimise: bool, candidates: seq<Fields>)
    ensures var l := Leader(minimise, candidates);
      if l >= 0 then FirstBest(minimise, candidates, l)
      else forall i :: 0 <= i < |candidates| ==> !HasScore(candidates[i])
    ensures forall l: nat :: FirstBest(minimise, candidates, l) ==> l == Leader(minimise, candidates)
  {
    LeaderIsFirstBest(minimise, candidates);
    forall i | 0 <= i < |candidates|
      ensures Scored(candidates[i]) <==> HasScore(candidates[i])
      ensures Scored(candidates[i]) ==> Score(candidates[i]) == NumberOf(candidates[i])
    {}
    hide Score, Scored, HasScore, NumberOf;
  }

  /** Whether the mode of the objective, "max" without one, reads "min". */
  ghost predicate ReadsMin(py: Builtins, value: Fields) {
    var objective := Get(value, KObjective);
    py.text(if objective.Obj? && KMode in objective.fields then objective.fields[KMode] else Str("max")) == "min"
  }

  /** A trial table, read against its document. */
  ghost predicate Tabulates(py: Builtins, value: Fields, table: Fields) {
    && Mappings(value, KCandidates).Ok?
    && var candidates := Mappings(value, KCandidates).value;
    && Get(table, KInteractiveProjectionVersion) == Int(3) && Get(table, KDetailLevel) == Str("interactive")
    && Get(table, KCandidates).Arr?
    && RowsTell(py, candidates, Get(table, KCandidates).items)
    && StatesTell(value, table, AllLabels(py, candidates))
    && LeaderTells(ReadsMin(py, value), value, table, candidates)
    && (forall k :: k in TableFields() - {KRunStates, KLeaderParameters} ==> SameEntry(table, value, k))
    && forall k :: k in table ==>
        k in TableFields() || k in {KInteractiveProjectionVersion, KDetailLevel, KCandidates}
  }

  ghost predicate RowsTell(py: Builtins, candidates: seq<Fields>, rows: seq<Json>) {
    && |rows| == |candidates|
    && forall i :: 0 <= i < |rows| ==> rows[i].Obj? && RowTells(py, candidates[i], rows[i].fields)
  }

  lemma EntriesOfTable(value: Fields, rows: seq<Fields>, states: map<string, nat>, parameters: Json, k: Key)
    requires k in TableFields()
    ensures var t := Table(value, rows, states, parameters);
      if k in RunStates(states) then k in t && (k !in LeaderEntry(parameters) ==> t[k] == RunStates(states)[k])
      else k in LeaderEntry(parameters) || SameEntry(t, value, k)
    ensures var t := Table(value, rows, states, parameters);
      k in LeaderEntry(parameters) ==> k in t && t[k] == LeaderEntry(parameters)[k]
  {
    TableFieldFacts();
    hide TableFields, Wrapped, RunStates, LeaderEntry, Restrict;
    Overlay(map[KInteractiveProjectionVersion := Int(3), KDetailLevel := Str("interactive")],
            Restrict(value, TableFields()), map[KCandidates := Arr(Wrapped(rows))],
            RunStates(states), LeaderEntry(parameters), k);
    Restricted(value, TableFields(), k);
  }

  lemma Restricted(f: Fields, keys: set<Key>, k: Key)
    ensures k in Restrict(f, keys) <==> k in keys && k in f
    ensures k in Restrict(f, keys) ==> Restrict(f, keys)[k] == f[k]
  {}

  /** An entry of maps laid over one another, when only the second and the last two may hold it. */
  lemma Overlay<K, V>(head: map<K, V>, copied: map<K, V>, listed: map<K, V>, counted: map<K, V>, led: map<K, V>, k: K)
    requires k !in head && k !in listed
    ensures var t := head + copied + listed + counted + led;
      && (k in t <==> k in copied || k in counted || k in led)
      && (k in led ==> t[k] == led[k])
      && (k !in led && k in counted ==> t[k] == counted[k])
      && (k !in led && k !in counted && k in copied ==> t[k] == copied[k])
  {}

  lemma CopiesOfTable(value: Fields, rows: seq<Fields>, states: map<string, nat>, parameters: Json)
    ensures var t := Table(value, rows, states, parameters);
      && (forall k :: k in TableFields() - {KRunStates, KLeaderParameters} ==> SameEntry(t, value, k))
      && (if states == map[] then SameEntry(t, value, KRunStates)
          else KRunStates in t && t[KRunStates] == RunStates(states)[KRunStates])
      && (if parameters.Obj? then KLeaderParameters in t && t[KLeaderParameters] == parameters
          else SameEntry(t, value, KLeaderParameters))
  {
    TableFieldFacts();
    hide TableFields, Table, SameEntry;
    EntriesOfTable(value, rows, states, parameters, KRunStates);
    EntriesOfTable(value, rows, states, parameters, KLeaderParameters);
    forall k | k in TableFields() - {KRunStates, KLeaderParameters}
      ensures SameEntry(Table(value, rows, states, parameters), value, k)
    {
      EntriesOfTable(value, rows, states, parameters, k);
    }
  }

  lemma StatesAreTold(value: Fields, table: Fields, states: map<string, nat>, labels: seq<string>)
    requires Tallies(states, labels)
    requires if states == map[] then SameEntry(table, value, KRunStates)
      else KRunStates in table && table[KRunStates] == RunStates(states)[KRunStates]
    ensures StatesTell(value, table, labels)
  {
    assert labels != [] ==> labels[0] in states;
    if states != map[] {
      var l :| l in states;
      assert l in labels;
    }
  }

  /** The trial table of a document says what the document says. */
  lemma TableTells(py: Builtins, value: Fields)
    ensures TableOf(py, value).Ok? ==> Tabulates(py, value, TableOf(py, value).value)
  {
    if TableOf(py, value).Ok? {
      var candidates := Mappings(value, KCandidates).value;
      var minimise, rows := Minimise(py, value).value, Rows(py, candidates).value;
      var states, parameters := States(py, candidates), LeaderParameters(minimise, candidates);
      hide Table, TableFields, RowsTell, StatesTell, LeaderTells, SameEntry, Rows, States, RunStates, Minimise;
      hide LeaderParameters, ReadsMin, Wrapped, Tallies, AllLabels;
      TableEntries(value, rows, states, parameters);
      CopiesOfTable(value, rows, states, parameters);
      TableKeys(value, rows, states, parameters);
      StatesTally(py, candidates);
      StatesAreTold(value, Table(value, rows, states, parameters), states, AllLabels(py, candidates));
      RowsOfTable(py, candidates, rows);
      LeaderIsTold(py, value, Table(value, rows, states, parameters), candidates);
    }
  }

  lemma RowsOfTable(py: Builtins, candidates: seq<Fields>, rows: seq<Fields>)
    requires Rows(py, candidates) == Ok(rows)
    ensures RowsTell(py, candidates, Wrapped(rows))
  {
    RowsAreTold(py, candidates);
    hide Rows, RowTells;
  }

  lemma LeaderIsTold(py: Builtins, value: Fields, table: Fields, candidates: seq<Fields>)
    requires Minimise(py, value).Ok?
    requires var parameters := LeaderParameters(Minimise(py, value).value, candidates);
      if parameters.Obj? then KLeaderParameters in table && table[KLeaderParameters] == parameters
      else SameEntry(table, value, KLeaderParameters)
    ensures LeaderTells(ReadsMin(py, value), value, table, candidates)
  {
    ModeIsRead(py, value);
    LeaderIsFirst(ReadsMin(py, value), candidates);
    var minimise := ReadsMin(py, value);
    var l := Leader(minimise, candidates);
    assert l >= 0 ==> HasScore(candidates[l]);
    hide FirstBest, Leader, SameEntry, Minimise, ReadsMin, HasScore;
    if l >= 0 {
      assert FirstBest(minimise, candidates, l);
    }
  }

  lemma ModeIsRead(py: Builtins, value: Fields)
    ensures Minimise(py, value).Ok? ==> Minimise(py, value).value == ReadsMin(py, value)
  {
    var objective := Get(value, KObjective);
    if objective.Obj? && |objective.fields| == 0 {
      assert objective.fields == map[];
    }
  }

  /** What makes a candidate's row raise: runs that do not iterate, a step that is no integer, or
      the device of a running run that is none. */
  ghost predicate BadCandidate(py: Builtins, candidate: Fields) {
    || Mappings(candidate, KRuns).Raised?
    || exists i :: 0 <= i < |RunsOf(candidate)| &&
        (StepRead(py, RunsOf(candidate)[i]).Raised? || BadDevice(py, RunsOf(candidate)[i]))
  }

  lemma RowRaises(py: Builtins, candidate: Fields)
    ensures Row(py, candidate).Raised? <==> BadCandidate(py, candidate)
  {
    var runs := RunsOf(candidate);
    if runs != [] {
      LatestIsGreatest(py, runs);
    }
    DevicesRaise(py, runs);
    hide LatestStep, GpuIndices, StepRead, BadDevice, Ints, Restrict, Mappings;
  }

  lemma {:induction false} RowsRaise(py: Builtins, candidates: seq<Fields>)
    ensures Rows(py, candidates).Raised? <==> exists i :: 0 <= i < |candidates| && BadCandidate(py, candidates[i])
  {
    hide Row, BadCandidate;
    if candidates != [] {
      var n := |candidates| - 1;
      RowsRaise(py, candidates[..n]);
      RowRaises(py, candidates[n]);
      assert forall i :: 0 <= i < n ==> candidates[..n][i] == candidates[i];
    }
  }

  /** The table raises exactly for an objective that is neither falsy nor an object, for candidates
      that do not iterate, and for a candidate whose row raises. */
  lemma TableRaises(py: Builtins, value: Fields)
    ensures TableOf(py, value).Raised? <==>
      || (Truthy(Get(value, KObjective)) && !Get(value, KObjective).Obj?)
      || Mappings(value, KCandidates).Raised?
      || exists i :: 0 <= i < |Mappings(value, KCandidates).value| &&
          BadCandidate(py, Mappings(value, KCandidates).value[i])
  {
    OrIsTruthy(Get(value, KObjective), Obj(map[]));
    assert Minimise(py, value).Raised? <==> Truthy(Get(value, KObjective)) && !Get(value, KObjective).Obj?;
    hide Row, BadCandidate, Minimise, Mappings, Table, Truthy;
    if Mappings(value, KCandidates).Ok? {
      RowsRaise(py, Mappings(value, KCandidates).value);
    }
  }

  // ----- the interactive index -----

  function Projected(candidate: Fields): Fields {
    Restrict(candidate, CandidateFields()) + map[KRuns := Arr(ProjectedRuns(candidate))]
  }

  function ProjectedRuns(candidate: Fields): seq<Json> {
    match Get(candidate, KRuns)
    case Arr(items) => Wrapped(Kept(Objects(items), RunFields()))
    case _ => []
  }

  function Kept(items: seq<Fields>, keys: set<Key>): seq<Fields> {
    seq(|items|, i requires 0 <= i < |items| => Restrict(items[i], keys))
  }

  function ProjectedAll(candidates: seq<Fields>): seq<Fields> {
    seq(|candidates|, i requires 0 <= i < |candidates| => Projected(candidates[i]))
  }

  function AsObject(j: Json): Fields { if j.Obj? then j.fields else map[] }

  function Index(value: Fields, candidates: seq<Fields>): Fields {
    Restrict(value, IndexFields()) +
    map[KDetailLevel := Str("interactive"),
        KInteractiveProjectionVersion := Int(2),
        KCandidates := Arr(Wrapped(candidates)),
        KController := Obj(Restrict(AsObject(Get(value, KController)), ControllerFields())),
        KAdmission := Obj(map[KCurrent := Get(AsObject(Get(value, KAdmission)), KCurrent),
                               KUpdatedAtUtc := Get(AsObject(Get(value, KAdmission)), KUpdatedAtUtc)])]
  }

  /** Already projected: an interactive document of version 2 or later. */
  function AlreadyInteractive(py: Builtins, value: Fields): Result<bool> {
    if Get(value, KDetailLevel) == Str("interactive") then
      var written := if KInteractiveProjectionVersion in value then value[KInteractiveProjectionVersion] else Int(0);
      var version :- py.integer(Or(written, Int(0)));
      Ok(version >= 2)
    else Ok(false)
  }

  function InteractiveStudy(py: Builtins, value: Fields): Result<Fields> {
    var done :- AlreadyInteractive(py, value);
    if done then Ok(value)
    else
      Ok(Index(value, match Get(value, KCandidates) case Arr(items) => ProjectedAll(Objects(items)) case _ => []))
  }

  // ----- stability of the projections -----

  lemma TableFieldFacts()
    ensures KDetailLevel !in TableFields() && KInteractiveProjectionVersion !in TableFields() &&
        KCandidates !in TableFields()
    ensures KRunStates in TableFields() && KLeaderParameters in TableFields() && KObjective in TableFields()
  {}

  /** The entries of a trial table. */
  lemma TableEntries(value: Fields, rows: seq<Fields>, states: map<string, nat>, parameters: Json)
    ensures var t := Table(value, rows, states, parameters);
      && KInteractiveProjectionVersion in t && t[KInteractiveProjectionVersion] == Int(3)
      && KDetailLevel in t && t[KDetailLevel] == Str("interactive")
      && KCandidates in t && t[KCandidates] == Arr(Wrapped(rows))
  {
    TableFieldFacts();
    hide TableFields, Wrapped;
  }

  lemma TableIsInteractive(py: Builtins, value: Fields, rows: seq<Fields>, states: map<string, nat>, parameters: Json)
    requires Sound(py)
    ensures AlreadyInteractive(py, Table(value, rows, states, parameters)) == Ok(true)
  {
    TableEntries(value, rows, states, parameters);
    hide Table;
  }

  lemma IndexIsStable(py: Builtins, value: Fields)
    requires Sound(py)
    ensures var r := InteractiveStudy(py, value); r.Ok? ==> InteractiveStudy(py, r.value) == r
  {
    hide IndexFields, ControllerFields, ProjectedAll, Objects;
  }

  /** The interactive projection is idempotent, and it leaves a trial table as it is. */
  lemma InteractiveIsStable(py: Builtins, value: Fields)
    requires Sound(py)
    ensures var r := InteractiveStudy(py, value); r.Ok? ==> InteractiveStudy(py, r.value) == r
    ensures var t := TableOf(py, value); t.Ok? ==> InteractiveStudy(py, t.value) == t
  {
    IndexIsStable(py, value);
    var t := TableOf(py, value);
    if t.Ok? {
      hide Table, Mappings, Rows, Index;
      var candidates := Mappings(value, KCandidates).value;
      TableIsInteractive(py, value, Rows(py, candidates).value, States(py, candidates),
                         LeaderParameters(Minimise(py, value).value, candidates));
    }
  }

  lemma {:induction false} ObjectsOfWrapped(rows: seq<Fields>)
    ensures Objects(Wrapped(rows)) == rows
  {
    if rows != [] {
      var n := |rows| - 1;
      assert Wrapped(rows)[..n] == Wrapped(rows[..n]);
      ObjectsOfWrapped(rows[..n]);
      assert rows == rows[..n] + [rows[n]];
    }
  }

  /** Rows carry row fields only; in particular no runs and no parameters. */
  ghost predicate RowShaped(row: Fields) { row.Keys <= RowFields() }

  lemma RowFieldFacts()
    ensures KRuns !in RowFields() && KParameters !in RowFields()
    ensures KSeedCount in RowFields() && KLatestStep in RowFields() && KGpuIndices in RowFields()
  {}

  lemma RowIsShaped(py: Builtins, candidate: Fields)
    ensures Row(py, candidate).Ok? ==> RowShaped(Row(py, candidate).value)
  {
    RowFieldFacts();
    hide RowFields, LatestStep, GpuIndices, Ints;
  }

  lemma RowOfRow(py: Builtins, row: Fields)
    requires RowShaped(row)
    ensures Row(py, row) == Ok(row) && RunsOf(row) == [] && Get(row, KParameters) == Null
  {
    RowFieldFacts();
    hide RowFields;
    assert Restrict(row, RowFields()) == row;
  }

  lemma {:induction false} RowsAreShaped(py: Builtins, candidates: seq<Fields>)
    ensures Rows(py, candidates).Ok? ==>
      forall i :: 0 <= i < |Rows(py, candidates).value| ==> RowShaped(Rows(py, candidates).value[i])
  {
    hide Row, RowShaped;
    if candidates != [] {
      RowsAreShaped(py, candidates[..|candidates|-1]);
      RowIsShaped(py, candidates[|candidates|-1]);
    }
  }

  lemma {:induction false} RowsOfRows(py: Builtins, rows: seq<Fields>)
    requires forall i :: 0 <= i < |rows| ==> RowShaped(rows[i])
    ensures Rows(py, rows) == Ok(rows) && States(py, rows) == map[]
  {
    hide Row, RowShaped, RunsOf;
    if rows != [] {
      var n := |rows| - 1;
      RowsOfRows(py, rows[..n]);
      RowOfRow(py, rows[n]);
      assert rows == rows[..n] + [rows[n]];
    }
  }

  lemma TableKeys(value: Fields, rows: seq<Fields>, states: map<string, nat>, parameters: Json)
    ensures Table(value, rows, states, parameters).Keys
         <= {KInteractiveProjectionVersion, KDetailLevel, KCandidates} + TableFields()
  {
    TableFieldFacts();
    hide TableFields, Wrapped;
    assert Restrict(value, TableFields()).Keys <= TableFields();
    assert RunStates(states).Keys <= {KRunStates} && LeaderEntry(parameters).Keys <= {KLeaderParameters};
  }

  lemma Rebuild(t: Fields, rows: seq<Fields>)
    requires t.Keys <= {KInteractiveProjectionVersion, KDetailLevel, KCandidates} + TableFields()
    requires KInteractiveProjectionVersion in t && t[KInteractiveProjectionVersion] == Int(3)
    requires KDetailLevel in t && t[KDetailLevel] == Str("interactive")
    requires KCandidates in t && t[KCandidates] == Arr(Wrapped(rows))
    ensures Table(t, rows, map[], Null) == t
  {
    TableFieldFacts();
    hide TableFields, Wrapped;
  }

  lemma TableObjective(value: Fields, rows: seq<Fields>, states: map<string, nat>, parameters: Json)
    ensures Get(Table(value, rows, states, parameters), KObjective) == Get(value, KObjective)
  {
    TableFieldFacts();
    hide TableFields, Wrapped;
  }

  lemma TableOfTable(value: Fields, rows: seq<Fields>, states: map<string, nat>, parameters: Json)
    ensures var t := Table(value, rows, states, parameters); Table(t, rows, map[], Null) == t
    ensures var t := Table(value, rows, states, parameters); Get(t, KObjective) == Get(value, KObjective)
  {
    TableKeys(value, rows, states, parameters);
    TableEntries(value, rows, states, parameters);
    TableObjective(value, rows, states, parameters);
    hide Table, TableFields;
    Rebuild(Table(value, rows, states, parameters), rows);
  }

  /** The trial table of a trial table is that table. */
  lemma TableIsStable(py: Builtins, value: Fields)
    ensures var t := TableOf(py, value); t.Ok? ==> TableOf(py, t.value) == t
  {
    if TableOf(py, value).Ok? {
      var minimise := Minimise(py, value).value;
      var candidates := Mappings(value, KCandidates).value;
      var rows := Rows(py, candidates).value;
      RowsAreShaped(py, candidates);
      RowsOfRows(py, rows);
      TableStableWith(py, value, minimise, rows, States(py, candidates), LeaderParameters(minimise, candidates));
    }
  }

  lemma TableStableWith(py: Builtins, value: Fields, minimise: bool, rows: seq<Fields>, states: map<string, nat>,
      parameters: Json)
    requires Minimise(py, value) == Ok(minimise)
    requires Rows(py, rows) == Ok(rows) && States(py, rows) == map[]
    requires forall i :: 0 <= i < |rows| ==> RowShaped(rows[i])
    ensures var t := Table(value, rows, states, parameters); TableOf(py, t) == Ok(t)
  {
    var t := Table(value, rows, states, parameters);
    TableOfTable(value, rows, states, parameters);
    TableEntries(value, rows, states, parameters);
    ObjectsOfWrapped(rows);
    NoParameters(py, minimise, rows);
    hide Table, Rows, States, RowShaped, Objects, Wrapped, LeaderParameters;
    assert Mappings(t, KCandidates) == Ok(rows);
    assert Minimise(py, t) == Ok(minimise);
    LeaderNull(t, rows, LeaderParameters(minimise, rows));
  }

  lemma LeaderNull(t: Fields, rows: seq<Fields>, parameters: Json)
    requires !parameters.Obj?
    ensures Table(t, rows, map[], parameters) == Table(t, rows, map[], Null)
  {}

  lemma NoParameters(py: Builtins, minimise: bool, rows: seq<Fields>)
    requires forall i :: 0 <= i < |rows| ==> RowShaped(rows[i])
    ensures LeaderParameters(minimise, rows) == Null
  {
    var leader := Leader(minimise, rows);
    if leader >= 0 {
      RowOfRow(py, rows[leader]);
    }
  }

  // ----- the table of the index -----

  /** Raw telemetry: not projected yet, with a candidate list whose entries carry runs. */
  predicate Raw(py: Builtins, value: Fields) {
    && AlreadyInteractive(py, value) == Ok(false)
    && Get(value, KCandidates).Arr?
    && forall c :: c in Objects(Get(value, KCandidates).items) ==> CarriesRuns(c)
  }

  predicate CarriesRuns(candidate: Fields) {
    Get(candidate, KRuns).Arr? && Objects(Get(candidate, KRuns).items) != []
  }

  function Stripped(row: Fields): Fields { row - {KBestSeed, KBestStep} }

  lemma KeptPrefix(runs: seq<Fields>, keys: set<Key>)
    requires runs != []
    ensures var n := |runs| - 1;
      && Kept(runs, keys)[..n] == Kept(runs[..n], keys)
      && Kept(runs, keys)[n] == Restrict(runs[n], keys)
  {}

  lemma RunFieldFacts()
    ensures KState in RunFields() && KLatestStep in RunFields() && KGpuIndex in RunFields()
  {}

  lemma CandidateFieldFacts()
    ensures RowFields() - CandidateFields() == {KBestSeed, KBestStep, KSeedCount, KLatestStep, KGpuIndices}
    ensures KRuns !in RowFields() && KRuns !in CandidateFields()
    ensures KSelectionObjective in CandidateFields() && KParameters in CandidateFields()
  {}

  lemma RunEntries(run: Fields)
    ensures var kept := Restrict(run, RunFields());
      && Get(kept, KState) == Get(run, KState) && (KState in kept <==> KState in run)
      && Get(kept, KLatestStep) == Get(run, KLatestStep) && Get(kept, KGpuIndex) == Get(run, KGpuIndex)
  {
    RunFieldFacts();
    hide RunFields;
  }

  lemma {:induction false} KeptRuns(py: Builtins, runs: seq<Fields>, counts: map<string, nat>)
    ensures runs != [] ==> LatestStep(py, Kept(runs, RunFields())) == LatestStep(py, runs)
    ensures GpuIndices(py, Kept(runs, RunFields())) == GpuIndices(py, runs)
    ensures CountRuns(py, Kept(runs, RunFields()), counts) == CountRuns(py, runs, counts)
  {
    hide RunFields, Restrict, Insert, Count;
    if runs != [] {
      var n := |runs| - 1;
      KeptPrefix(runs, RunFields());
      KeptRuns(py, runs[..n], counts);
      RunEntries(runs[n]);
    }
  }

  lemma ProjectedEntries(candidate: Fields)
    requires CarriesRuns(candidate)
    ensures var p := Projected(candidate); var runs := Objects(candidate[KRuns].items);
      && Mappings(candidate, KRuns) == Ok(runs)
      && Mappings(p, KRuns) == Ok(Kept(runs, RunFields()))
      && Get(p, KSelectionObjective) == Get(candidate, KSelectionObjective)
      && Get(p, KParameters) == Get(candidate, KParameters)
  {
    CandidateFieldFacts();
    var runs := Objects(candidate[KRuns].items);
    ObjectsOfWrapped(Kept(runs, RunFields()));
    hide CandidateFields, RunFields, Objects, Wrapped, RowFields;
  }

  lemma ProjectedRow(py: Builtins, candidate: Fields)
    requires CarriesRuns(candidate)
    ensures Row(py, candidate).Raised? ==> Row(py, Projected(candidate)).Raised?
    ensures Row(py, candidate).Ok? ==> Row(py, Projected(candidate)) == Ok(Stripped(Row(py, candidate).value))
  {
    var runs := Objects(candidate[KRuns].items);
    ProjectedEntries(candidate);
    KeptRuns(py, runs, map[]);
    hide CandidateFields, RunFields, Objects, RowFields, LatestStep, GpuIndices, CountRuns, Mappings, Projected;
    if Row(py, candidate).Ok? {
      ProjectedBase(candidate, Live(|runs|, LatestStep(py, runs).value, GpuIndices(py, runs).value));
    }
  }

  lemma ProjectedBase(candidate: Fields, live: Fields)
    requires live.Keys == {KSeedCount, KLatestStep, KGpuIndices}
    ensures Restrict(Projected(candidate), RowFields()) + live == Stripped(Restrict(candidate, RowFields()) + live)
  {
    CandidateFieldFacts();
    hide CandidateFields, RowFields, ProjectedRuns;
    var left, right := Restrict(Projected(candidate), RowFields()) + live,
        Stripped(Restrict(candidate, RowFields()) + live);
    forall k | k in RowFields() && k !in CandidateFields()
      ensures k in {KBestSeed, KBestStep, KSeedCount, KLatestStep, KGpuIndices}
    {
      assert k in RowFields() - CandidateFields();
    }
    assert KBestSeed !in CandidateFields() && KBestStep !in CandidateFields() by {
      assert KBestSeed in RowFields() - CandidateFields() && KBestStep in RowFields() - CandidateFields();
    }
    assert left.Keys == right.Keys;
  }

  lemma ProjectedPrefix(candidates: seq<Fields>)
    requires candidates != []
    ensures var n := |candidates| - 1;
      ProjectedAll(candidates)[..n] == ProjectedAll(candidates[..n]) && candidates[n] in candidates
    ensures forall c :: c in candidates[..|candidates|-1] ==> c in candidates
  {}

  lemma {:induction false} ProjectedRows(py: Builtins, candidates: seq<Fields>)
    requires forall c :: c in candidates ==> CarriesRuns(c)
    ensures var rows, projected := Rows(py, candidates), Rows(py, ProjectedAll(candidates));
      if rows.Raised? then projected.Raised?
      else projected.Ok? && |projected.value| == |rows.value| &&
           forall i :: 0 <= i < |rows.value| ==> projected.value[i] == Stripped(rows.value[i])
  {
    hide Row, Projected, Stripped, CarriesRuns;
    if candidates != [] {
      ProjectedPrefix(candidates);
      ProjectedRows(py, candidates[..|candidates|-1]);
      ProjectedRow(py, candidates[|candidates|-1]);
    }
  }

  lemma {:induction false} ProjectedStates(py: Builtins, candidates: seq<Fields>)
    requires forall c :: c in candidates ==> CarriesRuns(c)
    ensures States(py, ProjectedAll(candidates)) == States(py, candidates)
  {
    if candidates != [] {
      var n := |candidates| - 1;
      ProjectedPrefix(candidates);
      ProjectedStates(py, candidates[..n]);
      ProjectedEntries(candidates[n]);
      KeptRuns(py, Objects(candidates[n][KRuns].items), States(py, candidates[..n]));
      hide Projected, Mappings, CountRuns, RunFields, Kept, Objects;
    }
  }

  lemma {:induction false} ProjectedLeader(minimise: bool, candidates: seq<Fields>)
    requires forall c :: c in candidates ==> CarriesRuns(c)
    ensures Leader(minimise, ProjectedAll(candidates)) == Leader(minimise, candidates)
    ensures LeaderParameters(minimise, ProjectedAll(candidates)) == LeaderParameters(minimise, candidates)
  {
    hide Projected, Mappings, RunFields, Kept, Objects, CarriesRuns;
    if candidates != [] {
      var n := |candidates| - 1;
      ProjectedPrefix(candidates);
      ProjectedLeader(minimise, candidates[..n]);
      ProjectedEntries(candidates[n]);
      if Leader(minimise, candidates[..n]) >= 0 {
        assert candidates[..n][Leader(minimise, candidates[..n])] in candidates[..n];
        ProjectedEntries(candidates[Leader(minimise, candidates[..n])]);
      }
    }
  }

  lemma IndexFieldFacts()
    ensures forall k :: k in TableFields() && k !in IndexFields() ==> k in {KLifecycle, KRunStates, KLeaderParameters}
    ensures KObjective in IndexFields()
  {}

  lemma IndexKeyFacts(k: Key)
    requires k in {KDetailLevel, KInteractiveProjectionVersion, KCandidates, KController, KAdmission}
    ensures k !in TableFields() && k !in IndexFields()
  {}

  lemma IndexEntries(value: Fields, candidates: seq<Fields>)
    ensures var index := Index(value, candidates);
      && Get(index, KObjective) == Get(value, KObjective)
      && Mappings(index, KCandidates) == Ok(candidates)
      && forall k :: k in TableFields() - {KLifecycle, KRunStates, KLeaderParameters} ==> Get(index, k) == Get(value, k)
  {
    IndexFieldFacts();
    ObjectsOfWrapped(candidates);
    hide TableFields, IndexFields, ControllerFields, Wrapped, Objects;
    forall k | k in TableFields() - {KLifecycle, KRunStates, KLeaderParameters}
      ensures Get(Index(value, candidates), k) == Get(value, k)
    {
      if k in {KDetailLevel, KInteractiveProjectionVersion, KCandidates, KController, KAdmission} {
        IndexKeyFacts(k);
      }
    }
  }

  lemma TableCopies(value: Fields, rows: seq<Fields>, states: map<string, nat>, parameters: Json)
    ensures var t := Table(value, rows, states, parameters);
      && (forall k :: k in TableFields() - {KRunStates, KLeaderParameters} ==> Get(t, k) == Get(value, k))
      && (states != map[] ==> Get(t, KRunStates) == RunStates(states)[KRunStates])
      && (parameters.Obj? ==> Get(t, KLeaderParameters) == parameters)
  {
    TableFieldFacts();
    CopiesOfTable(value, rows, states, parameters);
    hide TableFields, Table, RunStates;
  }

  /** The table of the index of raw telemetry is the table of the telemetry itself: it raises
      when that raises, its rows differ only in best_seed and best_step, and every other field
      agrees, except that a lifecycle, and recorded run states or leader parameters that no
      candidate determines, are not in the index. */
  ghost predicate SameTable(whole: Fields, indexed: Fields, counted: bool, led: bool) {
    && Get(whole, KCandidates).Arr? && Get(indexed, KCandidates).Arr?
    && var rows, projected := Objects(whole[KCandidates].items), Objects(indexed[KCandidates].items);
    && |rows| == |projected|
    && (forall i :: 0 <= i < |rows| ==> projected[i] == Stripped(rows[i]))
    && (forall k :: k in TableFields() - {KLifecycle, KRunStates, KLeaderParameters} ==>
        Get(indexed, k) == Get(whole, k))
    && (counted ==> Get(indexed, KRunStates) == Get(whole, KRunStates))
    && (led ==> Get(indexed, KLeaderParameters) == Get(whole, KLeaderParameters))
  }

  lemma TableOfIndex(py: Builtins, value: Fields)
    requires Raw(py, value)
    ensures var index, whole := InteractiveStudy(py, value), TableOf(py, value);
      && index.Ok?
      && var candidates := Objects(value[KCandidates].items);
      && if whole.Raised? then TableOf(py, index.value).Raised?
         else TableOf(py, index.value).Ok? &&
              SameTable(whole.value, TableOf(py, index.value).value,
                        States(py, candidates) != map[],
                        LeaderParameters(Minimise(py, value).value, candidates).Obj?)
  {
    var candidates := Objects(value[KCandidates].items);
    var projected := ProjectedAll(candidates);
    IndexEntries(value, projected);
    ProjectedRows(py, candidates);
    if TableOf(py, value).Ok? {
      var minimise := Minimise(py, value).value;
      ProjectedStates(py, candidates);
      ProjectedLeader(minimise, candidates);
      SameParts(value, Index(value, projected), Rows(py, candidates).value, Rows(py, projected).value,
                States(py, candidates), LeaderParameters(minimise, candidates));
    }
    hide Index, Table, Rows, States, Objects, ProjectedAll, SameTable, TableFields, CarriesRuns, LeaderParameters;
  }

  lemma SameParts(value: Fields, index: Fields, rows: seq<Fields>, projected: seq<Fields>, states: map<string, nat>,
      parameters: Json)
    requires |rows| == |projected| && forall i :: 0 <= i < |rows| ==> projected[i] == Stripped(rows[i])
    requires forall k :: k in TableFields() - {KLifecycle, KRunStates, KLeaderParameters} ==>
        Get(index, k) == Get(value, k)
    ensures SameTable(Table(value, rows, states, parameters), Table(index, projected, states, parameters),
                      states != map[], parameters.Obj?)
  {
    TableEntries(value, rows, states, parameters);
    TableEntries(index, projected, states, parameters);
    TableCopies(value, rows, states, parameters);
    TableCopies(index, projected, states, parameters);
    ObjectsOfWrapped(rows);
    ObjectsOfWrapped(projected);
    hide Table, TableFields, Wrapped, Objects, Stripped, RunStates;
  }
}
