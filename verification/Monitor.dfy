/** Control state of the live job monitor: ten modes, pending confirmations, selections and
    the background workers it owns.  One input per turn of the event loop. */
module Monitor {
  import opened Options

  datatype Mode = Overview | Cluster | Work | Study | StudyCandidate | StudyHpo | StudyHpoParameter | StudyRun
      | StudyEpoch | Logs

  datatype Focus = Jobs | Clusters

  datatype Key = NoKey | Q | B | Esc | Left | J | K | Enter | Right | X | Y | N | LowerD | UpperD | A | I | E | R | Tab
      | Other

  predicate Back(k: Key) { k.Q? || k.B? || k.Esc? || k.Left? }

  predicate Open(k: Key) { k.Enter? || k.Right? }

  /** Identifiers; 0 stands for the empty text. */
  type Id = nat

  /** One row of the overview: a Work, or a raw Job when no Work is known. */
  datatype Row = Row(workId: Id, jobId: Id, opensStudy: bool, attempts: seq<Id>, candidates: seq<seq<Id>>,
      parameters: nat)

  datatype Payload = Payload(jobs: seq<Row>, works: seq<Row>, clusters: seq<seq<Id>>)

  function Last(n: nat): nat { if n == 0 then 0 else n - 1 }

  function Min(x: nat, y: nat): nat { if x < y then x else y }

  function Items(p: Payload): seq<Row> { if p.works != [] then p.works else p.jobs }

  function Attempts(p: Payload, selected: nat): seq<Id> {
    if p.works == [] then [] else p.works[Min(selected, |p.works| - 1)].attempts
  }

  function Candidates(p: Payload, selected: nat): seq<seq<Id>> {
    if p.works == [] then [] else p.works[Min(selected, |p.works| - 1)].candidates
  }

  function Runs(p: Payload, selected: nat, candidate: nat): seq<Id> {
    var cs := Candidates(p, selected);
    if cs == [] then [] else cs[Min(candidate, |cs| - 1)]
  }

  function Parameters(p: Payload, selected: nat): nat {
    if p.works == [] then 0 else p.works[Min(selected, |p.works| - 1)].parameters
  }

  function ClusterJobs(p: Payload, cluster: nat): seq<Id> {
    if p.clusters == [] then [] else p.clusters[Min(cluster, |p.clusters| - 1)]
  }

  // ----- selections -----

  datatype Selection = Selection(focus: Focus, row: nat, cluster: nat, detail: nat, candidate: nat, run: nat,
      parameter: nat)

  /** Every selection is brought inside the list it indexes in the current snapshot. */
  function Clamp(v: Selection, p: Payload, mode: Mode): Selection {
    var focus :=
      if v.focus.Jobs? && Items(p) == [] && p.clusters != [] then Clusters
      else if v.focus.Clusters? && p.clusters == [] && Items(p) != [] then Jobs
      else v.focus;
    var row := Min(v.row, Last(|Items(p)|));
    var cluster := Min(v.cluster, Last(|p.clusters|));
    var detail := Min(v.detail, Last(|ClusterJobs(p, cluster)|));
    var candidate := Min(v.candidate, Last(|Candidates(p, row)|));
    Selection(focus, row, cluster,
      if mode.Work? then Min(detail, Last(|Attempts(p, row)|)) else detail,
      candidate,
      Min(v.run, Last(|Runs(p, row, candidate)|)),
      Min(v.parameter, Last(Parameters(p, row))))
  }

  predicate Clamped(v: Selection, p: Payload, mode: Mode) {
    && v.row <= Last(|Items(p)|) && v.cluster <= Last(|p.clusters|)
    && (mode.Work? ==> v.detail <= Last(|Attempts(p, v.row)|))
    && (mode.Cluster? ==> v.detail <= Last(|ClusterJobs(p, v.cluster)|))
    && v.candidate <= Last(|Candidates(p, v.row)|) && v.run <= Last(|Runs(p, v.row, v.candidate)|)
    && v.parameter <= Last(Parameters(p, v.row))
    && (v.focus.Jobs? && Items(p) == [] ==> p.clusters == [])
    && (v.focus.Clusters? && p.clusters == [] ==> Items(p) == [])
  }

  lemma ClampIsClamped(v: Selection, p: Payload, mode: Mode)
    ensures Clamped(Clamp(v, p, mode), p, mode)
  {}

  /** Moving through the clusters followed by the jobs. */
  function Move(v: Selection, down: bool, jobs: nat, clusters: nat): Selection {
    if v.focus.Jobs? then
      if !down && v.row == 0 && clusters > 0 then v.(focus := Clusters, cluster := clusters - 1)
      else if down then v.(row := Min(Last(jobs), v.row + 1))
      else v.(row := Min(Last(jobs), Last(v.row)))
    else if down && v.cluster >= Last(clusters) && jobs > 0 then v.(focus := Jobs, row := 0)
    else if down then v.(cluster := Min(Last(clusters), v.cluster + 1))
    else v.(cluster := Min(Last(clusters), Last(v.cluster)))
  }

  /** The selected line when clusters and jobs are read as one list. */
  function Line(v: Selection, clusters: nat): nat { if v.focus.Clusters? then v.cluster else clusters + v.row }

  /** From an in-range selection, a move is one step on the joined list, stopping at its ends. */
  lemma MoveIsOneStep(v: Selection, down: bool, jobs: nat, clusters: nat)
    requires v.row <= Last(jobs) && v.cluster <= Last(clusters)
    requires (v.focus.Jobs? && jobs == 0 ==> clusters == 0) && (v.focus.Clusters? && clusters == 0 ==> jobs == 0)
    ensures var w := Move(v, down, jobs, clusters);
      && Line(w, clusters) == (if down then Min(Line(v, clusters) + 1, Last(clusters + jobs))
          else Last(Line(v, clusters)))
      && w.row <= Last(jobs) && w.cluster <= Last(clusters)
      && (w.focus.Jobs? && jobs == 0 ==> clusters == 0) && (w.focus.Clusters? && clusters == 0 ==> jobs == 0)
  {}

  // ----- background workers -----

  /** The process held by each worker variable, and every process not yet released. */
  datatype Workers = Workers(snapshot: Option<nat>, logs: Option<nat>, study: Option<nat>, action: Option<nat>,
      next: nat, live: set<nat>)

  function Held(o: Option<nat>): set<nat> { if o.Some? then {o.value} else {} }

  function Release(w: Workers, o: Option<nat>): Workers { w.(live := w.live - Held(o)) }

  function StartSnapshot(w: Workers, running: bool): Workers {
    if w.snapshot.Some? && running then w
    else
      var closed := Release(w, w.snapshot);
      closed.(snapshot := Some(w.next), next := w.next + 1, live := closed.live + {w.next})
  }

  function StartLogs(w: Workers): Workers { w.(logs := Some(w.next), next := w.next + 1, live := w.live + {w.next}) }

  function StartStudy(w: Workers): Workers { w.(study := Some(w.next), next := w.next + 1, live := w.live + {w.next}) }

  function StartAction(w: Workers): Workers {
    w.(action := Some(w.next), next := w.next + 1, live := w.live + {w.next})
  }

  function StopSnapshot(w: Workers): Workers { Release(w, w.snapshot).(snapshot := None) }

  function StopLogs(w: Workers): Workers { Release(w, w.logs).(logs := None) }

  function StopStudy(w: Workers): Workers { Release(w, w.study).(study := None) }

  function StopAction(w: Workers): Workers { Release(w, w.action).(action := None) }

  /** Every live process is held by exactly one worker variable. */
  ghost predicate Owned(w: Workers) {
    && w.live == Held(w.snapshot) + Held(w.logs) + Held(w.study) + Held(w.action)
    && Held(w.snapshot) !! Held(w.logs) !! Held(w.study) !! Held(w.action)
    && forall h :: h in w.live ==> h < w.next
  }

  lemma StopsOwn(w: Workers)
    requires Owned(w)
    ensures Owned(StopSnapshot(w)) && Owned(StopLogs(w)) && Owned(StopStudy(w)) && Owned(StopAction(w))
  {}

  lemma StartsOwn(w: Workers, running: bool)
    requires Owned(w)
    ensures Owned(StartSnapshot(w, running))
    ensures w.logs.None? ==> Owned(StartLogs(w))
    ensures w.study.None? ==> Owned(StartStudy(w))
    ensures w.action.None? ==> Owned(StartAction(w))
  {}

  // ----- destructive requests -----

  datatype Target = CancelWork(id: Id) | CancelJob(id: Id) | DeleteWork(id: Id) | DeleteJob(id: Id) | ClearHistory

  /** A request, its abort or its execution, with the turn and the key that caused it. */
  datatype Act = Requested(target: Target, turn: nat, key: Key) | Aborted(target: Target, turn: nat, key: Key)
    | Executed(target: Target, turn: nat, key: Key)

  datatype Requests = Requests(cancel: Option<Target>, history: Option<Target>, acts: seq<Act>, turn: nat)

  predicate Cancels(t: Target) { t.CancelWork? || t.CancelJob? }

  predicate Confirms(t: Target, k: Key) {
    || k.Y? || k.Enter?
    || (if Cancels(t) then k.X? else if t.ClearHistory? then k.UpperD? else k.LowerD?)
  }

  predicate Aborts(k: Key) { k.N? || k.Esc? }

  function RequestCancel(r: Requests, t: Target, k: Key): Requests {
    r.(cancel := Some(t), acts := r.acts + [Requested(t, r.turn, k)])
  }

  function RequestHistory(r: Requests, t: Target, k: Key): Requests {
    r.(history := Some(t), acts := r.acts + [Requested(t, r.turn, k)])
  }

  function Settle(r: Requests, a: Act): Requests { r.(cancel := None, history := None, acts := r.acts + [a]) }

  /** Act i answers the request before it: same target, an earlier turn, a matching key. */
  ghost predicate Answered(acts: seq<Act>, i: nat)
    requires i < |acts|
  {
    && (!acts[i].Requested? ==> i > 0 && Opens(acts[i-1], acts[i]))
    && (acts[i].Executed? ==> Confirms(acts[i].target, acts[i].key))
    && (acts[i].Aborted? ==> Aborts(acts[i].key))
  }

  predicate Opens(request: Act, answer: Act) {
    request.Requested? && request.target == answer.target && request.turn < answer.turn
  }

  ghost predicate Pending(r: Requests, t: Target) {
    r.acts != [] && r.acts[|r.acts|-1].Requested? && r.acts[|r.acts|-1].target == t && r.acts[|r.acts|-1].turn < r.turn
  }

  /** At most one request is pending, it is the last act, and every act answers its request. */
  ghost predicate Accounted(r: Requests) {
    && (forall i :: 0 <= i < |r.acts| ==> Answered(r.acts, i))
    && !(r.cancel.Some? && r.history.Some?)
    && (r.cancel.Some? ==> Cancels(r.cancel.value) && Pending(r, r.cancel.value))
    && (r.history.Some? ==> !Cancels(r.history.value) && Pending(r, r.history.value))
    && (r.acts != [] && r.acts[|r.acts|-1].Requested? ==> r.cancel.Some? || r.history.Some?)
  }

  lemma RequestAccounted(r: Requests, t: Target, k: Key)
    requires Accounted(r) && r.cancel.None? && r.history.None?
    ensures Cancels(t) ==> Accounted(RequestCancel(r, t, k).(turn := r.turn + 1))
    ensures !Cancels(t) ==> Accounted(RequestHistory(r, t, k).(turn := r.turn + 1))
  {
    AnsweredAppend(r.acts, Requested(t, r.turn, k));
  }

  lemma SettleAccounted(r: Requests, t: Target, k: Key)
    requires Accounted(r) && (r.cancel == Some(t) || r.history == Some(t))
    ensures Confirms(t, k) ==> Accounted(Settle(r, Executed(t, r.turn, k)).(turn := r.turn + 1))
    ensures Aborts(k) ==> Accounted(Settle(r, Aborted(t, r.turn, k)).(turn := r.turn + 1))
  {
    assert Pending(r, t);
    if Confirms(t, k) {
      AnsweredAppend(r.acts, Executed(t, r.turn, k));
    }
    if Aborts(k) {
      AnsweredAppend(r.acts, Aborted(t, r.turn, k));
    }
  }

  lemma AnsweredAppend(acts: seq<Act>, a: Act)
    requires forall i :: 0 <= i < |acts| ==> Answered(acts, i)
    requires Answered(acts + [a], |acts|)
    ensures forall i :: 0 <= i < |acts + [a]| ==> Answered(acts + [a], i)
  {
    forall i | 0 <= i < |acts| ensures Answered(acts + [a], i) {
      assert Answered(acts, i);
    }
  }

  // ----- the loop's variables -----

  datatype State = State(
    mode: Mode, returnMode: Mode, view: Selection, payload: Payload,
    logJob: Id, traceback: bool, studyJob: Id, studyKey: Id,
    workers: Workers, requests: Requests, finished: bool)

  /** What a worker has to say this turn. */
  datatype Report<T> = Nothing | Data(value: T) | Failure

  /** Where in a turn an exception leaves the loop, if it does. */
  datatype Stop = Nowhere | AtTop | AfterSnapshot | AfterLogs | AfterStudy | AfterAction | InActionRefresh
    | AfterResults | InRefresh | AfterRefresh | AfterLogStart | AfterStarts | InKey | InKeyRefresh | AfterKey

  /** Everything the outside decides in one turn. */
  datatype Input = Input(
    snapshot: Report<Payload>, logs: bool, study: bool, action: bool,
    refreshDue: bool, logsDue: bool, studyDue: bool,
    runningAfterAction: bool, runningAtRefresh: bool, runningAtKey: bool,
    epochs: bool, cancelFails: bool, stop: Stop, key: Key)

  function Initial(): State {
    State(Overview, Overview, Selection(Jobs, 0, 0, 0, 0, 0, 0), Payload([], [], []), 0, false, 0, 0,
      StartSnapshot(Workers(None, None, None, None, 0, {}), false), Requests(None, None, [], 0), false)
  }

  /** Leaving the loop, by a key or by an exception, closes every worker. */
  function Finish(s: State): State {
    s.(finished := true, workers := StopAction(StopStudy(StopLogs(StopSnapshot(s.workers)))))
  }

  // ----- the top of a turn: results, due refreshes, clamping -----

  function TakeSnapshot(s: State, input: Input): State {
    if s.workers.snapshot.None? || input.snapshot.Nothing? then s
    else if input.snapshot.Data? then s.(payload := input.snapshot.value, workers := StopSnapshot(s.workers))
    else s.(workers := StopSnapshot(s.workers))
  }

  function TakeLogs(w: Workers, input: Input): Workers { if w.logs.Some? && input.logs then StopLogs(w) else w }

  function TakeStudy(w: Workers, input: Input): Workers { if w.study.Some? && input.study then StopStudy(w) else w }

  function TakeAction(w: Workers, input: Input): Workers {
    if w.action.Some? && input.action then StartSnapshot(StopAction(w), input.runningAfterAction) else w
  }

  function TakeResults(w: Workers, input: Input): Workers { TakeAction(TakeStudy(TakeLogs(w, input), input), input) }

  function DueSnapshot(w: Workers, input: Input): Workers {
    if input.refreshDue then StartSnapshot(w, input.runningAtRefresh) else w
  }

  function DueLogs(s: State, w: Workers, input: Input): Workers {
    if s.mode.Logs? && s.logJob != 0 && w.logs.None? && input.logsDue then StartLogs(w) else w
  }

  function DueStudy(s: State, w: Workers, input: Input): Workers {
    if (s.mode.StudyRun? || s.mode.StudyEpoch?) && s.studyJob != 0 && s.studyKey != 0 && w.study.None? && input.studyDue
    then StartStudy(w) else w
  }

  function StartDue(s: State, input: Input): Workers {
    DueStudy(s, DueLogs(s, DueSnapshot(s.workers, input), input), input)
  }

  function Observe(s: State, input: Input): State {
    var taken := TakeSnapshot(s, input);
    var results := taken.(workers := TakeResults(taken.workers, input));
    var due := results.(workers := StartDue(results, input));
    due.(view := Clamp(due.view, due.payload, due.mode))
  }

  // ----- the bottom of a turn: one key, by mode -----

  function Refresh(s: State, input: Input): State { s.(workers := StartSnapshot(s.workers, input.runningAtKey)) }

  function EnterLogs(s: State, job: Id): State {
    s.(mode := Logs, returnMode := s.mode, logJob := job, traceback := false, workers := StartLogs(s.workers))
  }

  function OnLogs(s: State, input: Input): State {
    if Back(input.key) then s.(mode := s.returnMode, workers := StopLogs(s.workers))
    else if input.key.E? then s.(traceback := !s.traceback, workers := StartLogs(StopLogs(s.workers)))
    else s
  }

  function OnStudyEpoch(s: State, input: Input): State {
    if Back(input.key) then s.(mode := StudyRun)
    else if input.key.R? && s.workers.study.None? then s.(workers := StartStudy(s.workers))
    else s
  }

  function OnStudyRun(s: State, input: Input): State {
    if Back(input.key) then s.(mode := StudyCandidate, workers := StopStudy(s.workers))
    else if Open(input.key) && input.epochs then s.(mode := StudyEpoch)
    else if input.key.R? && s.workers.study.None? then s.(workers := StartStudy(s.workers))
    else s
  }

  function OnPendingCancel(s: State, input: Input): State
    requires s.requests.cancel.Some?
  {
    var t, k := s.requests.cancel.value, input.key;
    if k.X? || k.Y? || k.Enter? then
      var done := s.(requests := Settle(s.requests, Executed(t, s.requests.turn, k)));
      if input.cancelFails then done else Refresh(done, input)
    else if k.N? || k.Esc? then s.(requests := Settle(s.requests, Aborted(t, s.requests.turn, k)))
    else s
  }

  function OnPendingHistory(s: State, input: Input): State
    requires s.requests.history.Some?
  {
    var t, k := s.requests.history.value, input.key;
    if (if t.ClearHistory? then k.UpperD? else k.LowerD?) || k.Y? || k.Enter? then
      s.(requests := Settle(s.requests, Executed(t, s.requests.turn, k)), workers := StartAction(s.workers))
    else if k.N? || k.Esc? then s.(requests := Settle(s.requests, Aborted(t, s.requests.turn, k)))
    else s
  }

  function OnStudyHpo(s: State, input: Input): State {
    var k := input.key;
    if Back(k) then s.(mode := Study)
    else if k.J? then
      s.(view := s.view.(parameter := Min(Last(Parameters(s.payload, s.view.row)), s.view.parameter + 1)))
    else if k.K? then s.(view := s.view.(parameter := Last(s.view.parameter)))
    else if Open(k) && Parameters(s.payload, s.view.row) > 0 then s.(mode := StudyHpoParameter)
    else if k.R? then Refresh(s, input)
    else s
  }

  function OnStudyHpoParameter(s: State, input: Input): State {
    if Back(input.key) then s.(mode := StudyHpo) else if input.key.R? then Refresh(s, input) else s
  }

  function WorkSelector(row: Row): Id { if row.workId != 0 then row.workId else row.jobId }

  function CancelRow(s: State, input: Input): State
    requires s.view.row < |Items(s.payload)|
  {
    s.(requests := RequestCancel(s.requests, CancelWork(WorkSelector(Items(s.payload)[s.view.row])), input.key))
  }

  function OnStudy(s: State, input: Input): State
    requires Clamped(s.view, s.payload, s.mode)
  {
    var k, candidates := input.key, Candidates(s.payload, s.view.row);
    if Back(k) then s.(mode := Overview)
    else if k.J? then s.(view := s.view.(candidate := Min(Last(|candidates|), s.view.candidate + 1), run := 0))
    else if k.K? then s.(view := s.view.(candidate := Last(s.view.candidate), run := 0))
    else if Open(k) && candidates != [] then s.(mode := StudyCandidate, view := s.view.(run := 0))
    else if k.A? then s.(mode := Work, view := s.view.(detail := 0))
    else if k.I? then s.(mode := StudyHpo, view := s.view.(parameter := 0))
    else if k.R? then Refresh(s, input)
    else if k.X? && Items(s.payload) != [] then CancelRow(s, input)
    else s
  }

  function OnStudyCandidate(s: State, input: Input): State
    requires Clamped(s.view, s.payload, s.mode)
  {
    var k, runs := input.key, Runs(s.payload, s.view.row, s.view.candidate);
    if Back(k) then s.(mode := Study)
    else if k.J? then s.(view := s.view.(run := Min(Last(|runs|), s.view.run + 1)))
    else if k.K? then s.(view := s.view.(run := Last(s.view.run)))
    else if Open(k) && runs != [] then
      s.(mode := StudyRun, studyJob := Items(s.payload)[s.view.row].jobId, studyKey := runs[s.view.run],
          workers := StartStudy(s.workers))
    else if k.I? then s.(mode := StudyHpo, view := s.view.(parameter := 0))
    else if k.X? && Items(s.payload) != [] then CancelRow(s, input)
    else s
  }

  /** The keys work and cluster modes share, over the list of jobs they show. */
  function OnJobList(s: State, input: Input, jobs: seq<Id>): State
    requires jobs != [] ==> s.view.detail < |jobs|
  {
    var k := input.key;
    if Back(k) then s.(mode := Overview)
    else if k.J? then s.(view := s.view.(detail := Min(Last(|jobs|), s.view.detail + 1)))
    else if k.K? then s.(view := s.view.(detail := Last(s.view.detail)))
    else if k.R? then Refresh(s, input)
    else if Open(k) && jobs != [] then EnterLogs(s, jobs[s.view.detail])
    else if k.X? && jobs != [] then s.(requests := RequestCancel(s.requests, CancelJob(jobs[s.view.detail]), k))
    else if k.LowerD? && jobs != [] && s.workers.action.None? then
      s.(requests := RequestHistory(s.requests, DeleteJob(jobs[s.view.detail]), k))
    else if k.UpperD? && s.workers.action.None? then s.(requests := RequestHistory(s.requests, ClearHistory, k))
    else s
  }

  function OpenRow(s: State, input: Input): State
    requires Clamped(s.view, s.payload, s.mode)
  {
    var items := Items(s.payload);
    if s.view.focus.Clusters? && s.payload.clusters != [] then s.(mode := Cluster, view := s.view.(detail := 0))
    else if items != [] && s.payload.works != [] then
      s.(mode := if items[s.view.row].opensStudy then Study else Work,
         view := s.view.(detail := 0, candidate := 0, run := 0))
    else if items != [] then EnterLogs(s, items[s.view.row].jobId)
    else s
  }

  function OnOverview(s: State, input: Input): State
    requires Clamped(s.view, s.payload, s.mode)
  {
    var k, items := input.key, Items(s.payload);
    if k.Q? then Finish(s)
    else if k.Tab? then
      if s.view.focus.Jobs? && s.payload.clusters != [] then s.(view := s.view.(focus := Clusters))
      else if s.view.focus.Clusters? && items != [] then s.(view := s.view.(focus := Jobs))
      else s
    else if Open(k) then OpenRow(s, input)
    else if k.J? || k.K? then s.(view := Move(s.view, k.J?, |items|, |s.payload.clusters|))
    else if k.R? then Refresh(s, input)
    else if k.X? && items != [] then
      if s.payload.works != [] then CancelRow(s, input)
      else s.(requests := RequestCancel(s.requests, CancelJob(items[s.view.row].jobId), k))
    else if k.LowerD? && s.view.focus.Jobs? && items != [] && s.workers.action.None? then
      var target := if s.payload.works != [] then DeleteWork(items[s.view.row].workId)
          else DeleteJob(items[s.view.row].jobId);
      s.(requests := RequestHistory(s.requests, target, k))
    else if k.UpperD? && s.workers.action.None? then s.(requests := RequestHistory(s.requests, ClearHistory, k))
    else s
  }

  /** Modes whose keys are read only while nothing is pending and no history action runs. */
  function OnMode(s: State, input: Input): State
    requires Clamped(s.view, s.payload, s.mode)
  {
    match s.mode
    case StudyHpo => OnStudyHpo(s, input)
    case StudyHpoParameter => OnStudyHpoParameter(s, input)
    case Study => OnStudy(s, input)
    case StudyCandidate => OnStudyCandidate(s, input)
    case Work => OnJobList(s, input, Attempts(s.payload, s.view.row))
    case Cluster => OnJobList(s, input, ClusterJobs(s.payload, s.view.cluster))
    case Overview => OnOverview(s, input)
    case Logs => s
    case StudyRun => s
    case StudyEpoch => s
  }

  function OnKey(s: State, input: Input): State
    requires Clamped(s.view, s.payload, s.mode)
  {
    if s.mode.Logs? then OnLogs(s, input)
    else if s.mode.StudyEpoch? then OnStudyEpoch(s, input)
    else if s.mode.StudyRun? then OnStudyRun(s, input)
    else if s.requests.cancel.Some? then OnPendingCancel(s, input)
    else if s.requests.history.Some? then OnPendingHistory(s, input)
    else if s.workers.action.Some? then s
    else OnMode(s, input)
  }

  /** Modes that read their keys before any pending request. */
  predicate Isolated(m: Mode) { m.Logs? || m.StudyRun? || m.StudyEpoch? }

  /** Half of what a key does: a worker closed and not yet replaced or forgotten, a view entered
      without its worker, a confirmed action carried out with its request not yet cleared. */
  function HalfKey(s: State, input: Input): State
    requires Clamped(s.view, s.payload, s.mode)
  {
    if s.mode.Logs? && (Back(input.key) || input.key.E?) then s.(workers := StopLogs(s.workers))
    else if s.mode.StudyRun? && Back(input.key) then s.(workers := StopStudy(s.workers))
    else if Isolated(s.mode) then s
    else if s.requests.cancel.Some? && Confirms(s.requests.cancel.value, input.key) then
      s.(requests := Carried(s.requests, s.requests.cancel.value, input.key))
    else if s.requests.history.Some? && Confirms(s.requests.history.value, input.key) then
      s.(requests := Carried(s.requests, s.requests.history.value, input.key), workers := StartAction(s.workers))
    else s.(mode := OnKey(s, input).mode)
  }

  function Carried(r: Requests, t: Target, k: Key): Requests { r.(acts := r.acts + [Executed(t, r.turn, k)]) }

  /** The workers of a turn cut short between taking the snapshot and starting what is due. */
  function CutShort(s: State, input: Input): Workers {
    var read := TakeStudy(TakeLogs(s.workers, input), input);
    var ended := if read.action.Some? && input.action then StopAction(read) else read;
    var results := TakeResults(s.workers, input);
    match input.stop
    case AfterLogs => TakeLogs(s.workers, input)
    case AfterStudy => read
    case AfterAction => ended
    case InActionRefresh => StopSnapshot(ended)
    case AfterResults => results
    case InRefresh => StopSnapshot(results)
    case AfterRefresh => DueSnapshot(results, input)
    case AfterLogStart => DueLogs(s, DueSnapshot(results, input), input)
    case _ => s.workers
  }

  /** The loop's variables where the exception leaves it. */
  function Interrupted(s: State, input: Input): State {
    var taken := TakeSnapshot(s, input);
    var seen := Observe(s, input);
    ClampIsClamped(s.view, seen.payload, seen.mode);
    match input.stop
    case Nowhere => s
    case AtTop => s
    case AfterStarts => seen
    case InKey => HalfKey(seen, input)
    case InKeyRefresh =>
      var after := OnKey(seen, input);
      after.(workers := StopSnapshot(after.workers))
    case AfterKey => OnKey(seen, input)
    case _ => taken.(workers := CutShort(taken, input))
  }

  /** One turn of the loop. */
  function Turn(s: State, input: Input): State {
    if !input.stop.Nowhere? then Finish(Interrupted(s, input))
    else
      var seen := Observe(s, input);
      ClampIsClamped(s.view, seen.payload, seen.mode);
      var after := OnKey(seen, input);
      after.(requests := after.requests.(turn := after.requests.turn + 1))
  }

  // ----- invariants of every turn -----

  /** Which workers and requests each mode allows. */
  ghost predicate Placed(s: State) {
    && (s.requests.cancel.Some? || s.requests.history.Some? ==> !Isolated(s.mode) && s.workers.action.None?)
    && (s.workers.action.Some? ==> !Isolated(s.mode))
    && (s.workers.logs.Some? ==> s.mode.Logs?)
    && (s.workers.study.Some? ==> s.mode.StudyRun? || s.mode.StudyEpoch?)
    && (s.returnMode.Overview? || s.returnMode.Work? || s.returnMode.Cluster?)
  }

  ghost predicate AllAnswered(acts: seq<Act>) { forall i :: 0 <= i < |acts| ==> Answered(acts, i) }

  /** Inside the loop; once it is left, no process is live and every act is answered. */
  ghost predicate Inv(s: State) {
    && Owned(s.workers)
    && (if s.finished then s.workers.live == {} && AllAnswered(s.requests.acts)
        else Accounted(s.requests) && Placed(s))
  }

  /** The invariant after the turn counter has moved on. */
  ghost predicate NextInv(s: State) { Inv(s.(requests := s.requests.(turn := s.requests.turn + 1))) }

  lemma AccountedLater(r: Requests)
    requires Accounted(r)
    ensures Accounted(r.(turn := r.turn + 1))
  {}

  lemma InitialInv()
    ensures Inv(Initial())
  {}

  lemma FinishInv(s: State)
    requires Owned(s.workers) && AllAnswered(s.requests.acts)
    ensures Inv(Finish(s))
  {
    StopsOwn(s.workers);
    StopsOwn(StopSnapshot(s.workers));
    StopsOwn(StopLogs(StopSnapshot(s.workers)));
    StopsOwn(StopStudy(StopLogs(StopSnapshot(s.workers))));
  }

  /** What the top of a turn may do to the workers: end any, start a snapshot, or start the
      log or run worker of the current mode. */
  ghost predicate Observed(mode: Mode, before: Workers, after: Workers) {
    && (after.logs.Some? ==> before.logs.Some? || mode.Logs?)
    && (after.study.Some? ==> before.study.Some? || mode.StudyRun? || mode.StudyEpoch?)
  }

  lemma TakeSnapshotOwned(s: State, input: Input)
    requires Owned(s.workers)
    ensures var t := TakeSnapshot(s, input);
      && Owned(t.workers) && Observed(s.mode, s.workers, t.workers) && t.workers.action == s.workers.action
      && t.mode == s.mode && t.returnMode == s.returnMode && t.requests == s.requests && t.finished == s.finished
  {
    StopsOwn(s.workers);
    hide Owned;
  }

  lemma TakeLogsOwned(mode: Mode, w: Workers, input: Input)
    requires Owned(w)
    ensures var t := TakeLogs(w, input);
      Owned(t) && Observed(mode, w, t) && t.action == w.action
  {
    StopsOwn(w);
    hide Owned;
  }

  lemma TakeStudyOwned(mode: Mode, w: Workers, input: Input)
    requires Owned(w)
    ensures var t := TakeStudy(w, input);
      Owned(t) && Observed(mode, w, t) && t.action == w.action
  {
    StopsOwn(w);
    hide Owned;
  }

  lemma TakeActionOwned(mode: Mode, w: Workers, input: Input)
    requires Owned(w)
    ensures var t := TakeAction(w, input);
      Owned(t) && Observed(mode, w, t) && (t.action.Some? <==> w.action.Some? && !input.action)
  {
    StopsOwn(w);
    StartsOwn(StopAction(w), input.runningAfterAction);
    hide Owned, StartSnapshot;
  }

  lemma TakeResultsOwned(mode: Mode, w: Workers, input: Input)
    requires Owned(w)
    ensures var t := TakeResults(w, input);
      Owned(t) && Observed(mode, w, t) && (t.action.Some? <==> w.action.Some? && !input.action)
  {
    hide Owned, TakeLogs, TakeStudy, TakeAction;
    TakeLogsOwned(mode, w, input);
    TakeStudyOwned(mode, TakeLogs(w, input), input);
    TakeActionOwned(mode, TakeStudy(TakeLogs(w, input), input), input);
  }

  lemma DueOwned(s: State, w: Workers, input: Input)
    requires Owned(w)
    ensures var t := DueSnapshot(w, input);
      Owned(t) && Observed(s.mode, w, t) && t.action == w.action
    ensures var t := DueLogs(s, w, input);
      Owned(t) && Observed(s.mode, w, t) && t.action == w.action
    ensures var t := DueStudy(s, w, input);
      Owned(t) && Observed(s.mode, w, t) && t.action == w.action
  {
    StartsOwn(w, input.runningAtRefresh);
    hide Owned;
  }

  lemma StartDueOwned(s: State, input: Input)
    requires Owned(s.workers)
    ensures var t := StartDue(s, input);
      Owned(t) && Observed(s.mode, s.workers, t) && t.action == s.workers.action
  {
    hide Owned, DueSnapshot, DueLogs, DueStudy;
    DueOwned(s, s.workers, input);
    var w := DueSnapshot(s.workers, input);
    DueOwned(s, w, input);
    DueOwned(s, DueLogs(s, w, input), input);
  }

  lemma CutShortOwned(s: State, input: Input)
    requires Owned(s.workers)
    ensures Owned(CutShort(s, input))
  {
    hide Owned, TakeLogs, TakeStudy, TakeResults, DueSnapshot, DueLogs, StopSnapshot, StopAction;
    var logs := TakeLogs(s.workers, input);
    var read := TakeStudy(logs, input);
    var results := TakeResults(s.workers, input);
    TakeLogsOwned(s.mode, s.workers, input);
    TakeStudyOwned(s.mode, logs, input);
    TakeResultsOwned(s.mode, s.workers, input);
    StopsOwn(read);
    StopsOwn(StopAction(read));
    StopsOwn(results);
    DueOwned(s, results, input);
    DueOwned(s, DueSnapshot(results, input), input);
  }

  lemma ObserveWorkers(s: State, input: Input)
    requires Owned(s.workers)
    ensures var o := Observe(s, input);
      && Owned(o.workers) && Observed(s.mode, s.workers, o.workers)
      && (o.workers.action.Some? <==> s.workers.action.Some? && !input.action)
      && o.mode == s.mode && o.returnMode == s.returnMode && o.requests == s.requests && o.finished == s.finished
  {
    var taken := TakeSnapshot(s, input);
    TakeSnapshotOwned(s, input);
    TakeResultsOwned(s.mode, taken.workers, input);
    StartDueOwned(taken.(workers := TakeResults(taken.workers, input)), input);
    hide Owned, Clamp, TakeResults, StartDue, TakeSnapshot;
  }

  /** Results, refreshes and clamping keep the invariant, the mode and the requests. */
  lemma ObserveKeeps(s: State, input: Input)
    requires Inv(s) && !s.finished
    ensures var o := Observe(s, input);
      && Inv(o) && o.mode == s.mode && o.requests == s.requests && !o.finished
      && (o.workers.action.Some? <==> s.workers.action.Some? && !input.action)
  {
    ObserveWorkers(s, input);
    hide Owned, Accounted, Observe;
  }

  /** A worker variable after a turn's results and starts: the same process until it answers, then a
      fresh one if one is due, and otherwise none. */
  ghost predicate Renewed(before: Option<nat>, answered: bool, due: bool, next: nat, after: Option<nat>) {
    if before.Some? && !answered then after == before
    else if due then after.Some? && after.value >= next
    else after.None?
  }

  /** Snapshots: the payload is replaced only when one carries data; a finished history action or a due
      refresh brings a new worker unless a live one is there. */
  ghost predicate SnapshotTaken(s: State, input: Input, seen: State) {
    var w, u := s.workers, seen.workers;
    var waits := w.snapshot.Some? && input.snapshot.Nothing?;
    var acted := w.action.Some? && input.action;
    && seen.payload == (if w.snapshot.Some? && input.snapshot.Data? then input.snapshot.value else s.payload)
    && (u.snapshot.Some? <==> waits || acted || input.refreshDue)
    && (waits && (acted ==> input.runningAfterAction) && (input.refreshDue ==> input.runningAtRefresh) ==>
          u.snapshot == w.snapshot)
    && (!waits || (acted && !input.runningAfterAction) || (input.refreshDue && !input.runningAtRefresh) ==>
          u.snapshot.None? || u.snapshot.value >= w.next)
  }

  /** The top of a turn, worker by worker: every answer ends its worker, and logs and runs are loaded
      again only in their views when due. */
  lemma ObservationIsExact(s: State, input: Input)
    ensures var w, seen := s.workers, Observe(s, input); var u := seen.workers;
      && SnapshotTaken(s, input, seen)
      && Renewed(w.logs, input.logs, s.mode.Logs? && s.logJob != 0 && input.logsDue, w.next, u.logs)
      && Renewed(w.study, input.study,
                 (s.mode.StudyRun? || s.mode.StudyEpoch?) && s.studyJob != 0 && s.studyKey != 0 && input.studyDue,
                 w.next, u.study)
      && Renewed(w.action, input.action, false, w.next, u.action)
  {
    var taken := TakeSnapshot(s, input);
    var results := taken.(workers := TakeResults(taken.workers, input));
    ResultsTaken(taken.workers, input);
    DueStarted(results, input);
    hide Clamp, TakeResults, StartDue, Held;
  }

  lemma ResultsTaken(w: Workers, input: Input)
    ensures var u := TakeResults(w, input);
      && u.logs == (if input.logs then None else w.logs) && u.study == (if input.study then None else w.study)
      && u.action == (if input.action then None else w.action) && u.next >= w.next
      && (if w.action.Some? && input.action && !(w.snapshot.Some? && input.runningAfterAction)
          then u.snapshot == Some(w.next) else u.snapshot == w.snapshot)
  {
    hide Held;
  }

  lemma DueStarted(s: State, input: Input)
    ensures var w, u := s.workers, StartDue(s, input);
      && u.action == w.action
      && (if input.refreshDue && !(w.snapshot.Some? && input.runningAtRefresh)
          then u.snapshot == Some(w.next) else u.snapshot == w.snapshot)
      && (if s.mode.Logs? && s.logJob != 0 && w.logs.None? && input.logsDue
          then u.logs.Some? && u.logs.value >= w.next else u.logs == w.logs)
      && (if (s.mode.StudyRun? || s.mode.StudyEpoch?) && s.studyJob != 0 && s.studyKey != 0 && w.study.None?
             && input.studyDue
          then u.study.Some? && u.study.value >= w.next else u.study == w.study)
  {
    hide Held;
  }

  lemma IsolatedKeys(s: State, input: Input)
    requires Inv(s) && !s.finished && Isolated(s.mode)
    ensures s.mode.Logs? ==> NextInv(OnLogs(s, input))
    ensures s.mode.StudyEpoch? ==> NextInv(OnStudyEpoch(s, input))
    ensures s.mode.StudyRun? ==> NextInv(OnStudyRun(s, input))
  {
    AccountedLater(s.requests);
    StopsOwn(s.workers);
    StartsOwn(s.workers, false);
    StartsOwn(StopLogs(s.workers), false);
    hide Owned, Accounted;
  }

  lemma CancelKeys(s: State, input: Input)
    requires Inv(s) && !s.finished && s.requests.cancel.Some?
    ensures NextInv(OnPendingCancel(s, input))
  {
    AccountedLater(s.requests);
    StartsOwn(s.workers, input.runningAtKey);
    SettleAccounted(s.requests, s.requests.cancel.value, input.key);
    assert Cancels(s.requests.cancel.value);
    hide Owned, Accounted;
  }

  lemma HistoryKeys(s: State, input: Input)
    requires Inv(s) && !s.finished && s.requests.history.Some?
    ensures NextInv(OnPendingHistory(s, input))
  {
    AccountedLater(s.requests);
    StartsOwn(s.workers, false);
    SettleAccounted(s.requests, s.requests.history.value, input.key);
    assert !Cancels(s.requests.history.value);
    hide Owned, Accounted;
  }

  ghost predicate Quiet(s: State) {
    Inv(s) && !s.finished && !Isolated(s.mode) && s.requests.cancel.None? && s.requests.history.None? &&
        s.workers.action.None?
  }

  /** What a key may do in a quiet state: select, refresh, change between quiet modes, open
      the log or the run view with its worker, or request. */
  ghost predicate Allowed(s: State, input: Input, a: State) {
    && !a.finished
    && (|| (a.requests == s.requests && a.returnMode == s.returnMode && !Isolated(a.mode)
            && (a.workers == s.workers || a.workers == StartSnapshot(s.workers, input.runningAtKey)))
        || (a.requests == s.requests && a.mode.Logs? && a.workers == StartLogs(s.workers)
            && a.returnMode == s.mode && (s.mode.Overview? || s.mode.Work? || s.mode.Cluster?))
        || (a.requests == s.requests && a.mode.StudyRun? && a.workers == StartStudy(s.workers) &&
            a.returnMode == s.returnMode)
        || (a.mode == s.mode && a.workers == s.workers && a.returnMode == s.returnMode &&
            Requesting(s.requests, input.key, a.requests)))
  }

  ghost predicate Requesting(r: Requests, k: Key, a: Requests) {
    || (a.cancel.Some? && Cancels(a.cancel.value) && a == RequestCancel(r, a.cancel.value, k))
    || (a.history.Some? && !Cancels(a.history.value) && a == RequestHistory(r, a.history.value, k))
  }

  lemma RequestingAccounted(r: Requests, k: Key, a: Requests)
    requires Accounted(r) && r.cancel.None? && r.history.None? && Requesting(r, k, a)
    ensures Accounted(a.(turn := a.turn + 1)) && (a.cancel.Some? || a.history.Some?)
  {
    if a.cancel.Some? && Cancels(a.cancel.value) && a == RequestCancel(r, a.cancel.value, k) {
      RequestAccounted(r, a.cancel.value, k);
    } else {
      RequestAccounted(r, a.history.value, k);
    }
  }

  lemma AllowedKeeps(s: State, input: Input, a: State)
    requires Quiet(s) && Allowed(s, input, a)
    ensures NextInv(a)
  {
    AccountedLater(s.requests);
    StartsOwn(s.workers, input.runningAtKey);
    if Requesting(s.requests, input.key, a.requests) {
      RequestingAccounted(s.requests, input.key, a.requests);
    }
    hide Owned, Accounted, Requesting, StartSnapshot;
  }

  lemma HpoKeys(s: State, input: Input)
    requires !s.finished
    ensures s.mode.StudyHpo? ==> Allowed(s, input, OnStudyHpo(s, input))
    ensures s.mode.StudyHpoParameter? ==> Allowed(s, input, OnStudyHpoParameter(s, input))
  {
    hide StartSnapshot, StartLogs, StartStudy, Parameters;
  }

  lemma StudyKeys(s: State, input: Input)
    requires !s.finished && s.mode.Study? && Clamped(s.view, s.payload, s.mode)
    ensures Allowed(s, input, OnStudy(s, input))
  {
    assert Items(s.payload) != [] ==> s.view.row < |Items(s.payload)|;
    hide StartSnapshot, StartLogs, StartStudy, Candidates, Items, Clamped, Requesting, CancelRow;
  }

  lemma CandidateKeys(s: State, input: Input)
    requires !s.finished && s.mode.StudyCandidate? && Clamped(s.view, s.payload, s.mode)
    ensures Allowed(s, input, OnStudyCandidate(s, input))
  {
    assert Items(s.payload) != [] ==> s.view.row < |Items(s.payload)|;
    hide StartSnapshot, StartLogs, StartStudy, Runs, Candidates, Items, Clamped, Requesting, CancelRow;
  }

  lemma JobListKeys(s: State, input: Input, jobs: seq<Id>)
    requires !s.finished && (s.mode.Work? || s.mode.Cluster?) && (jobs != [] ==> s.view.detail < |jobs|)
    ensures Allowed(s, input, OnJobList(s, input, jobs))
  {
    hide StartSnapshot, StartLogs, StartStudy;
  }

  lemma OpenKeys(s: State, input: Input)
    requires !s.finished && s.mode.Overview? && Clamped(s.view, s.payload, s.mode)
    ensures Allowed(s, input, OpenRow(s, input))
  {
    hide StartSnapshot, StartLogs, StartStudy, Items, Requesting;
  }

  lemma OverviewKeys(s: State, input: Input)
    requires !s.finished && s.mode.Overview? && Clamped(s.view, s.payload, s.mode)
    ensures input.key.Q? || Allowed(s, input, OnOverview(s, input))
  {
    OpenKeys(s, input);
    hide StartSnapshot, StartLogs, StartStudy, Items, Move, OpenRow, CancelRow, Finish;
  }

  lemma QuitKeeps(s: State)
    requires Inv(s)
    ensures NextInv(Finish(s))
  {
    FinishInv(s);
    FinishKeepsRequests(s);
    hide Owned, Finish, Answered;
  }

  /** Every key in a quiet state does one of the allowed things, or leaves. */
  lemma QuietKeys(s: State, input: Input)
    requires Quiet(s) && Clamped(s.view, s.payload, s.mode)
    ensures NextInv(OnMode(s, input))
  {
    hide Allowed, Inv, OnJobList, OnOverview, OnStudy, OnStudyCandidate, OnStudyHpo, OnStudyHpoParameter;
    match s.mode
    case Work =>
      JobListKeys(s, input, Attempts(s.payload, s.view.row));
      AllowedKeeps(s, input, OnMode(s, input));
    case Cluster =>
      JobListKeys(s, input, ClusterJobs(s.payload, s.view.cluster));
      AllowedKeeps(s, input, OnMode(s, input));
    case Overview =>
      OverviewKeys(s, input);
      QuitKeeps(s);
      if input.key.Q? {
        QuitsOverview(s, input);
      } else {
        AllowedKeeps(s, input, OnMode(s, input));
      }
    case Study =>
      StudyKeys(s, input);
      AllowedKeeps(s, input, OnMode(s, input));
    case StudyCandidate =>
      CandidateKeys(s, input);
      AllowedKeeps(s, input, OnMode(s, input));
    case StudyHpo =>
      HpoKeys(s, input);
      AllowedKeeps(s, input, OnMode(s, input));
    case StudyHpoParameter =>
      HpoKeys(s, input);
      AllowedKeeps(s, input, OnMode(s, input));
    case _ =>
  }

  lemma QuitsOverview(s: State, input: Input)
    requires input.key.Q? && Clamped(s.view, s.payload, s.mode)
    ensures OnOverview(s, input) == Finish(s)
  {}

  lemma FinishKeepsRequests(s: State)
    ensures Finish(s).requests == s.requests
  {}

  lemma KeysKeep(s: State, input: Input)
    requires Inv(s) && !s.finished && Clamped(s.view, s.payload, s.mode)
    ensures NextInv(OnKey(s, input))
  {
    hide Owned, Accounted, OnMode, OnLogs, OnStudyEpoch, OnStudyRun, OnPendingCancel, OnPendingHistory, Clamped;
    if Isolated(s.mode) {
      IsolatedKeys(s, input);
    } else if s.requests.cancel.Some? {
      CancelKeys(s, input);
    } else if s.requests.history.Some? {
      HistoryKeys(s, input);
    } else if s.workers.action.Some? {
      AccountedLater(s.requests);
    } else {
      QuietKeys(s, input);
    }
  }

  lemma ConfirmedAnswers(s: State, input: Input)
    requires Inv(s) && !s.finished && Clamped(s.view, s.payload, s.mode)
    ensures Owned(HalfKey(s, input).workers) && AllAnswered(HalfKey(s, input).requests.acts)
  {
    StopsOwn(s.workers);
    StartsOwn(s.workers, false);
    if s.requests.cancel.Some? {
      SettleAccounted(s.requests, s.requests.cancel.value, input.key);
    }
    if s.requests.history.Some? {
      SettleAccounted(s.requests, s.requests.history.value, input.key);
    }
    hide Owned, Answered, Confirms, OnKey;
  }

  lemma KeyAnswers(s: State)
    requires NextInv(s)
    ensures Owned(s.workers) && AllAnswered(s.requests.acts)
  {}

  /** Wherever in a turn an exception leaves the loop, every live process is still held by one
      variable and every act answers its request. */
  lemma InterruptedKeeps(s: State, input: Input)
    requires Inv(s) && !s.finished
    ensures Owned(Interrupted(s, input).workers) && AllAnswered(Interrupted(s, input).requests.acts)
  {
    var taken := TakeSnapshot(s, input);
    TakeSnapshotOwned(s, input);
    var seen := Observe(s, input);
    ObserveKeeps(s, input);
    SeenIsClamped(s, input);
    hide Owned, Answered, TakeSnapshot, CutShort, Observe, HalfKey, OnKey, Clamped, StopSnapshot, Placed;
    CutShortOwned(taken, input);
    ConfirmedAnswers(seen, input);
    KeysKeep(seen, input);
    KeyAnswers(OnKey(seen, input));
    StopsOwn(OnKey(seen, input).workers);
  }

  /** Every turn keeps: at most one pending request, in a mode that reads its confirmation,
      with no history action beside it; every worker in its own mode; every live process held
      by exactly one variable; every act answering the request before it. */
  lemma TurnKeepsInv(s: State, input: Input)
    requires Inv(s) && !s.finished
    ensures Inv(Turn(s, input))
  {
    hide Inv, Interrupted, Finish, Observe, OnKey, Clamped, Owned, Answered;
    if !input.stop.Nowhere? {
      InterruptedKeeps(s, input);
      FinishInv(Interrupted(s, input));
    } else {
      var seen := Observe(s, input);
      ObserveKeeps(s, input);
      SeenIsClamped(s, input);
      KeysKeep(seen, input);
    }
  }

  /** While a request is pending or a history action still runs, the mode is frozen, and the
      request keeps its target until it is answered. */
  lemma PendingFreezes(s: State, input: Input)
    requires Inv(s) && !s.finished && input.stop.Nowhere?
    requires s.requests.cancel.Some? || s.requests.history.Some? || (s.workers.action.Some? && !input.action)
    ensures var t := Turn(s, input);
      && t.mode == s.mode && !t.finished
      && (t.requests.cancel.None? || t.requests.cancel == s.requests.cancel)
      && (t.requests.history.None? || t.requests.history == s.requests.history)
      && (t.requests.acts == s.requests.acts || |t.requests.acts| == |s.requests.acts| + 1)
  {
    ObserveKeeps(s, input);
    hide Observe, Owned, Accounted, Clamped, Clamp, StartSnapshot, StartAction;
  }

  // ----- whole runs -----

  /** The state after the turns, until the monitor is left. */
  ghost function Play(inputs: seq<Input>): State {
    if inputs == [] then Initial()
    else
      var before := Play(inputs[..|inputs|-1]);
      if before.finished then before else Turn(before, inputs[|inputs|-1])
  }

  lemma {:induction false} PlayInv(inputs: seq<Input>)
    ensures Inv(Play(inputs))
  {
    if inputs == [] {
      InitialInv();
    } else {
      PlayInv(inputs[..|inputs|-1]);
      var before := Play(inputs[..|inputs|-1]);
      hide Inv, Turn;
      if !before.finished {
        TurnKeepsInv(before, inputs[|inputs|-1]);
      }
    }
  }

  /** Every act is the doing of the key read in its turn. */
  ghost predicate Keyed(acts: seq<Act>, inputs: seq<Input>) {
    forall i :: 0 <= i < |acts| ==> acts[i].turn < |inputs| && acts[i].key == inputs[acts[i].turn].key
  }

  /** A turn reads one key and adds at most one act, stamped with that turn and key. */
  ghost predicate OneAct(r: Requests, k: Key, a: Requests) {
    && a.turn == r.turn
    && (a.acts == r.acts || exists act: Act :: act.turn == r.turn && act.key == k && a.acts == r.acts + [act])
  }

  lemma PendingActs(s: State, input: Input)
    ensures s.requests.cancel.Some? ==> OneAct(s.requests, input.key, OnPendingCancel(s, input).requests)
    ensures s.requests.history.Some? ==> OneAct(s.requests, input.key, OnPendingHistory(s, input).requests)
  {
    hide StartSnapshot, StartAction;
  }

  lemma AllowedActs(s: State, input: Input, a: State)
    requires Allowed(s, input, a)
    ensures OneAct(s.requests, input.key, a.requests)
  {
    hide StartSnapshot, StartLogs, StartStudy;
  }

  lemma ModeActs(s: State, input: Input)
    requires !s.finished && Clamped(s.view, s.payload, s.mode)
    ensures OneAct(s.requests, input.key, OnMode(s, input).requests)
  {
    assert OneAct(s.requests, input.key, s.requests);
    hide Allowed, OneAct, OnJobList, OnOverview, OnStudy, OnStudyCandidate, OnStudyHpo, OnStudyHpoParameter;
    match s.mode
    case Work =>
      JobListKeys(s, input, Attempts(s.payload, s.view.row));
      AllowedActs(s, input, OnMode(s, input));
    case Cluster =>
      JobListKeys(s, input, ClusterJobs(s.payload, s.view.cluster));
      AllowedActs(s, input, OnMode(s, input));
    case Overview =>
      OverviewKeys(s, input);
      if input.key.Q? {
        QuitsOverview(s, input);
        FinishKeepsRequests(s);
      } else {
        AllowedActs(s, input, OnMode(s, input));
      }
    case Study =>
      StudyKeys(s, input);
      AllowedActs(s, input, OnMode(s, input));
    case StudyCandidate =>
      CandidateKeys(s, input);
      AllowedActs(s, input, OnMode(s, input));
    case StudyHpo =>
      HpoKeys(s, input);
      AllowedActs(s, input, OnMode(s, input));
    case StudyHpoParameter =>
      HpoKeys(s, input);
      AllowedActs(s, input, OnMode(s, input));
    case _ =>
  }

  lemma KeyActs(s: State, input: Input)
    requires !s.finished && Clamped(s.view, s.payload, s.mode)
    ensures OneAct(s.requests, input.key, OnKey(s, input).requests)
  {
    assert OneAct(s.requests, input.key, s.requests);
    PendingActs(s, input);
    ModeActs(s, input);
    hide OneAct, Clamped, OnMode, OnLogs, OnStudyEpoch, OnStudyRun, OnPendingCancel, OnPendingHistory;
  }

  lemma HalfKeyActs(s: State, input: Input)
    requires Clamped(s.view, s.payload, s.mode)
    ensures OneAct(s.requests, input.key, HalfKey(s, input).requests)
  {
    hide OnKey, Clamped, StopLogs, StopStudy, StartAction;
  }

  lemma InterruptedActs(s: State, input: Input)
    requires Inv(s) && !s.finished
    ensures OneAct(s.requests, input.key, Interrupted(s, input).requests)
  {
    var seen := Observe(s, input);
    ObserveKeeps(s, input);
    SeenIsClamped(s, input);
    ClampIsClamped(s.view, seen.payload, seen.mode);
    assert OneAct(s.requests, input.key, s.requests);
    hide Inv, OneAct, Clamped, Observe, HalfKey, OnKey, CutShort;
    HalfKeyActs(seen, input);
    KeyActs(seen, input);
  }

  lemma KeyedNext(r: Requests, a: Requests, inputs: seq<Input>)
    requires inputs != [] && Keyed(r.acts, inputs[..|inputs|-1]) && r.turn == |inputs| - 1
    requires OneAct(r, inputs[|inputs|-1].key, a)
    ensures Keyed(a.acts, inputs) && a.turn == r.turn
  {}

  /** Over every run, each act is caused by the key of its own turn. */
  lemma {:induction false} ActsAreKeyed(inputs: seq<Input>)
    ensures var s := Play(inputs);
      Keyed(s.requests.acts, inputs) && (!s.finished ==> s.requests.turn == |inputs|)
  {
    if inputs != [] {
      var front, input := inputs[..|inputs|-1], inputs[|inputs|-1];
      ActsAreKeyed(front);
      PlayInv(front);
      var before := Play(front);
      hide Inv, Keyed, Clamped, Observe, OnKey, OneAct;
      if !before.finished {
        var seen := Observe(before, input);
        ObserveKeeps(before, input);
        ClampIsClamped(before.view, seen.payload, seen.mode);
        SeenIsClamped(before, input);
        if !input.stop.Nowhere? {
          InterruptedActs(before, input);
          FinishKeepsRequests(Interrupted(before, input));
          hide Interrupted, Finish;
          KeyedNext(before.requests, Interrupted(before, input).requests, inputs);
        } else {
          KeyActs(seen, input);
          KeyedNext(before.requests, OnKey(seen, input).requests, inputs);
        }
      }
    }
  }

  lemma SeenIsClamped(s: State, input: Input)
    ensures var seen := Observe(s, input);
      Clamped(seen.view, seen.payload, seen.mode)
  {
    var seen := Observe(s, input);
    ClampIsClamped(s.view, seen.payload, seen.mode);
    hide Clamped, Clamp;
  }

  /** The event loop.  However it is left, no process stays open, and every destructive
      action answers an earlier request for the same target. */
  method Run(inputs: seq<Input>) returns (s: State)
    ensures s == Finish(Play(inputs))
    ensures s.workers.live == {}
    ensures forall i :: 0 <= i < |s.requests.acts| ==> Answered(s.requests.acts, i)
    ensures Keyed(s.requests.acts, inputs)
  {
    s := Initial();
    var i := 0;
    assert inputs[..0] == [];
    hide Turn, Initial;
    while i < |inputs| && !s.finished
      invariant i <= |inputs| && s == Play(inputs[..i])
    {
      PlayNext(inputs, i);
      s := Turn(s, inputs[i]);
      i := i + 1;
    }
    PlayRest(inputs, i);
    PlayInv(inputs);
    ActsAreKeyed(inputs);
    FinishKeepsRequests(s);
    FinishInv(s);
    hide Owned, Finish, Accounted, Placed;
    s := Finish(s);
  }

  lemma PlayNext(inputs: seq<Input>, i: nat)
    requires i < |inputs|
    ensures !Play(inputs[..i]).finished ==> Play(inputs[..i+1]) == Turn(Play(inputs[..i]), inputs[i])
  {
    assert inputs[..i+1][..i] == inputs[..i];
    hide Turn;
  }

  lemma {:induction false} PlayRest(inputs: seq<Input>, i: nat)
    requires i <= |inputs| && (i == |inputs| || Play(inputs[..i]).finished)
    ensures Play(inputs) == Play(inputs[..i])
    decreases |inputs| - i
  {
    hide Turn;
    if i == |inputs| {
      assert inputs[..i] == inputs;
    } else {
      assert inputs[..i+1][..i] == inputs[..i];
      PlayRest(inputs, i + 1);
    }
  }

  // ----- pending requests are answered -----

  /** The request is carried out and forgotten. */
  ghost predicate Carries(r: Requests, target: Target, k: Key, a: Requests) {
    a.acts == r.acts + [Executed(target, r.turn, k)] && a.cancel.None? && a.history.None?
  }

  /** The request is given up and forgotten. */
  ghost predicate Drops(r: Requests, target: Target, k: Key, a: Requests) {
    a.acts == r.acts + [Aborted(target, r.turn, k)] && a.cancel.None? && a.history.None?
  }

  /** Nothing happens to the request. */
  ghost predicate Keeps(r: Requests, a: Requests) {
    a.acts == r.acts && a.cancel == r.cancel && a.history == r.history
  }

  /** The key that makes a request also confirms it. */
  ghost function OwnKey(target: Target): Key {
    match target
    case CancelWork(_) => X
    case CancelJob(_) => X
    case DeleteWork(_) => LowerD
    case DeleteJob(_) => LowerD
    case ClearHistory => UpperD
  }

  /** One turn over a pending request: its own key, `y` or Enter carries it out, `n` or Escape drops it,
      any other key leaves it. */
  ghost predicate Answers(r: Requests, target: Target, k: Key, a: Requests) {
    if k == OwnKey(target) || k.Y? || k.Enter? then Carries(r, target, k, a)
    else if k.N? || k.Esc? then Drops(r, target, k, a)
    else Keeps(r, a)
  }

  /** Over every run: each key of a turn that begins with a pending request does to it what it should.
      A carried-out cancel that the service accepted asks for a new snapshot; a carried-out change of
      the history is left to a worker. */
  lemma PendingIsAnswered(inputs: seq<Input>, input: Input)
    ensures var s, t := Play(inputs), Turn(Play(inputs), input); var r, k := s.requests, input.key;
      !s.finished && input.stop.Nowhere? ==>
        && (r.cancel.Some? || r.history.Some? ==> !t.finished)
        && (r.cancel.Some? ==>
              && Answers(r, r.cancel.value, k, t.requests)
              && (t.requests.cancel.None? && !Aborts(k) && !input.cancelFails ==> t.workers.snapshot.Some?))
        && (r.history.Some? ==>
              && Answers(r, r.history.value, k, t.requests)
              && (t.requests.history.None? && !Aborts(k) <==> t.workers.action.Some?))
  {
    var s := Play(inputs);
    PlayInv(inputs);
    hide Play;
    if !s.finished && input.stop.Nowhere? {
      var seen := Observe(s, input);
      ObserveKeeps(s, input);
      SeenIsClamped(s, input);
      AnswersPending(s, seen, input);
    }
  }

  lemma AnswersPending(s: State, seen: State, input: Input)
    requires Inv(s) && !s.finished && input.stop.Nowhere?
    requires seen == Observe(s, input) && Clamped(seen.view, seen.payload, seen.mode)
    requires Inv(seen) && seen.mode == s.mode && seen.requests == s.requests && !seen.finished
    requires seen.workers.action.Some? <==> s.workers.action.Some? && !input.action
    ensures var t := Turn(s, input); var r, k := s.requests, input.key;
      && (r.cancel.Some? || r.history.Some? ==> !t.finished)
      && (r.cancel.Some? ==>
            && Answers(r, r.cancel.value, k, t.requests)
            && (t.requests.cancel.None? && !Aborts(k) && !input.cancelFails ==> t.workers.snapshot.Some?))
      && (r.history.Some? ==>
            && Answers(r, r.history.value, k, t.requests)
            && (t.requests.history.None? && !Aborts(k) <==> t.workers.action.Some?))
  {
    assert s.requests.cancel.Some? || s.requests.history.Some? ==> !Isolated(seen.mode) && seen.workers.action.None?;
    assert s.requests.cancel.Some? ==> Cancels(s.requests.cancel.value);
    assert s.requests.history.Some? ==> !Cancels(s.requests.history.value) && s.requests.cancel.None?;
    hide Owned, Accounted, Clamped, Observe, OnMode, OnLogs, OnStudyRun, OnStudyEpoch;
  }

  /** An exception leaves the monitor, and a request pending then is on record as carried out exactly when
      its key was read and had begun to be acted on, as dropped when that was done. */
  lemma InterruptionIsRecorded(inputs: seq<Input>, input: Input)
    ensures var s, t := Play(inputs), Turn(Play(inputs), input); var r, k := s.requests, input.key;
      var acted := input.stop.InKey? || input.stop.InKeyRefresh? || input.stop.AfterKey?;
      !s.finished && !input.stop.Nowhere? ==>
        && t.finished
        && (r.cancel.Some? ==> t.requests.acts == Kept(r, r.cancel.value, k, acted, !input.stop.InKey?))
        && (r.history.Some? ==> t.requests.acts == Kept(r, r.history.value, k, acted, !input.stop.InKey?))
  {
    var s := Play(inputs);
    PlayInv(inputs);
    hide Play;
    if !s.finished && !input.stop.Nowhere? {
      var seen := Observe(s, input);
      ObserveKeeps(s, input);
      SeenIsClamped(s, input);
      FinishKeepsRequests(Interrupted(s, input));
      RecordedWhenCut(s, seen, input);
      hide Interrupted, Finish;
    }
  }

  ghost function Kept(r: Requests, target: Target, k: Key, acted: bool, done: bool): seq<Act> {
    if acted && (k == OwnKey(target) || k.Y? || k.Enter?) then r.acts + [Executed(target, r.turn, k)]
    else if acted && done && (k.N? || k.Esc?) then r.acts + [Aborted(target, r.turn, k)]
    else r.acts
  }

  lemma RecordedWhenCut(s: State, seen: State, input: Input)
    requires Inv(s) && !s.finished && !input.stop.Nowhere?
    requires seen == Observe(s, input) && Clamped(seen.view, seen.payload, seen.mode)
    requires Inv(seen) && seen.mode == s.mode && seen.requests == s.requests
    requires seen.workers.action.Some? <==> s.workers.action.Some? && !input.action
    ensures var r, k, acts := s.requests, input.key, Interrupted(s, input).requests.acts;
      var acted := input.stop.InKey? || input.stop.InKeyRefresh? || input.stop.AfterKey?;
      && (r.cancel.Some? ==> acts == Kept(r, r.cancel.value, k, acted, !input.stop.InKey?))
      && (r.history.Some? ==> acts == Kept(r, r.history.value, k, acted, !input.stop.InKey?))
  {
    assert s.requests.cancel.Some? || s.requests.history.Some? ==> !Isolated(seen.mode) && seen.workers.action.None?;
    assert s.requests.cancel.Some? ==> Cancels(s.requests.cancel.value) && s.requests.history.None?;
    assert s.requests.history.Some? ==> !Cancels(s.requests.history.value) && s.requests.cancel.None?;
    KeyWhenCut(seen, input);
    hide Owned, Accounted, Clamped, Observe, OnKey, HalfKey, CutShort, Inv, Kept;
  }

  lemma KeyWhenCut(s: State, input: Input)
    requires Clamped(s.view, s.payload, s.mode)
    ensures var r, k := s.requests, input.key;
      var half, whole := HalfKey(s, input).requests.acts, OnKey(s, input).requests.acts;
      !Isolated(s.mode) ==>
        && (r.cancel.Some? && Cancels(r.cancel.value) && r.history.None? ==>
              half == Kept(r, r.cancel.value, k, true, false) && whole == Kept(r, r.cancel.value, k, true, true))
        && (r.history.Some? && !Cancels(r.history.value) && r.cancel.None? ==>
              half == Kept(r, r.history.value, k, true, false) && whole == Kept(r, r.history.value, k, true, true))
  {
    hide Clamped, OnMode, OnLogs, OnStudyRun, OnStudyEpoch, StartAction, StartSnapshot;
  }

  // ----- the way back -----

  /** How many views lie between a mode and the overview. */
  function Depth(s: State): nat {
    match s.mode
    case Overview => 0
    case Cluster => 1
    case Work => 1
    case Study => 1
    case StudyHpo => 2
    case StudyCandidate => 2
    case StudyHpoParameter => 3
    case StudyRun => 3
    case StudyEpoch => 4
    case Logs => if s.returnMode.Overview? then 1 else 2
  }

  /** A pending request is one more step from home. */
  function Height(s: State): nat {
    Depth(s) + (if s.requests.cancel.Some? || s.requests.history.Some? then 1 else 0)
  }

  /** Escape is read, and no history action is in its way. */
  predicate Escapes(input: Input) { input.key.Esc? && input.stop.Nowhere? && input.action }

  lemma EscapeKey(s: State, input: Input)
    requires Placed(s) && !s.finished && Escapes(input) && s.workers.action.None? && Clamped(s.view, s.payload, s.mode)
    requires s.requests.cancel.None? || s.requests.history.None?
    ensures var a := OnKey(s, input);
      Height(a) == Last(Height(s)) && !a.finished && (Height(s) == 0 ==> a == s)
  {
    hide StartSnapshot, StartAction, Clamped;
  }

  /** Escape goes one step towards the overview and never leaves the monitor. */
  lemma EscapeDescends(s: State, input: Input)
    requires Inv(s) && !s.finished && Escapes(input)
    ensures Height(Turn(s, input)) == Last(Height(s)) && !Turn(s, input).finished
  {
    var seen := Observe(s, input);
    ObserveKeeps(s, input);
    SeenHeight(s, input);
    SeenIsClamped(s, input);
    assert Placed(seen);
    hide Observe, OnKey, Clamped, Owned, Accounted;
    EscapeKey(seen, input);
  }

  lemma SeenHeight(s: State, input: Input)
    requires Inv(s) && !s.finished
    ensures Height(Observe(s, input)) == Height(s)
    ensures var o := Observe(s, input); o.requests.cancel.None? || o.requests.history.None?
  {
    ObserveWorkers(s, input);
    assert Accounted(s.requests);
    hide Observe, Owned, Clamped;
  }

  lemma {:induction false} EscapesDescend(before: seq<Input>, escapes: seq<Input>)
    requires forall i :: 0 <= i < |escapes| ==> Escapes(escapes[i])
    ensures !Play(before).finished ==>
      !Play(before + escapes).finished && Height(Play(before + escapes)) == Less(Height(Play(before)), |escapes|)
  {
    if escapes == [] {
      assert before + escapes == before;
    } else {
      var n := |escapes| - 1;
      hide Inv, Turn, Play, Height, Escapes;
      EscapesDescend(before, escapes[..n]);
      OneMoreEscape(before + escapes[..n], escapes[n]);
      LastInput(before, escapes);
    }
  }

  lemma OneMoreEscape(inputs: seq<Input>, input: Input)
    requires Escapes(input)
    ensures !Play(inputs).finished ==>
      !Play(inputs + [input]).finished && Height(Play(inputs + [input])) == Last(Height(Play(inputs)))
  {
    hide Inv, Turn, Play, Height, Escapes;
    PlayInv(inputs);
    if !Play(inputs).finished {
      PlayOnce(inputs, input);
      EscapeDescends(Play(inputs), input);
    }
  }

  lemma LastInput(before: seq<Input>, inputs: seq<Input>)
    requires inputs != []
    ensures before + inputs == (before + inputs[..|inputs|-1]) + [inputs[|inputs|-1]]
  {}

  function Less(x: nat, y: nat): nat { if y < x then x - y else 0 }

  /** From every point of every run, five escapes lead to the overview with nothing pending. */
  lemma EscapesHome(before: seq<Input>, escapes: seq<Input>)
    requires |escapes| >= 5 && forall i :: 0 <= i < |escapes| ==> Escapes(escapes[i])
    ensures var s := Play(before + escapes);
      !Play(before).finished ==> !s.finished && s.mode.Overview? && s.requests.cancel.None? && s.requests.history.None?
  {
    hide Play, Inv;
    EscapesDescend(before, escapes);
    PlayInv(before);
    hide Height, Escapes;
  }

  lemma PlayOnce(inputs: seq<Input>, input: Input)
    ensures !Play(inputs).finished ==> Play(inputs + [input]) == Turn(Play(inputs), input)
  {
    assert (inputs + [input])[..|inputs|] == inputs;
    hide Turn;
  }

  // ----- what the keys of a view mean -----

  /** The turn reads the keys of its own view. */
  ghost predicate Reads(s: State, seen: State, input: Input) {
    && Inv(s) && !s.finished && input.stop.Nowhere?
    && (Isolated(seen.mode) || (seen.requests.cancel.None? && seen.requests.history.None? && seen.workers.action.None?))
  }

  lemma TurnReads(s: State, input: Input)
    requires Inv(s) && !s.finished && input.stop.Nowhere?
    ensures var seen := Observe(s, input);
      && Inv(seen) && Clamped(seen.view, seen.payload, seen.mode) && !seen.finished
      && seen.mode == s.mode && seen.requests == s.requests
      && Turn(s, input) == (var after := OnKey(seen, input);
                            after.(requests := after.requests.(turn := after.requests.turn + 1)))
  {
    ObserveKeeps(s, input);
    SeenIsClamped(s, input);
    hide Inv, Clamped, OnKey, Observe;
  }

  /** The view a view was opened from. */
  function Parent(s: State): Mode {
    match s.mode
    case Overview => Overview
    case Cluster => Overview
    case Work => Overview
    case Study => Overview
    case StudyHpo => Study
    case StudyCandidate => Study
    case StudyHpoParameter => StudyHpo
    case StudyRun => StudyCandidate
    case StudyEpoch => StudyRun
    case Logs => s.returnMode
  }

  predicate Leaves(k: Key) { k == Q || k == B || k == Esc || k == Left }

  predicate Enters(k: Key) { k == Enter || k == Right }

  /** Every back key leaves a view for its parent and changes neither selections nor requests. */
  lemma BackGoesUp(s: State, input: Input)
    ensures var seen, t := Observe(s, input), Turn(s, input);
      Reads(s, seen, input) && Leaves(input.key) && !s.mode.Overview? ==>
        && t.mode == Parent(s) && !t.finished && t.view == seen.view && t.payload == seen.payload
        && t.requests == seen.requests.(turn := seen.requests.turn + 1)
        && (s.mode.Logs? ==> t.workers.logs.None?) && (s.mode.StudyRun? ==> t.workers.study.None?)
  {
    var seen := Observe(s, input);
    if Reads(s, seen, input) && Leaves(input.key) && !s.mode.Overview? {
      TurnReads(s, input);
      ObserveWorkers(s, input);
      hide Inv, Clamped, Observe, Owned, Turn;
    }
  }

  /** The view that Enter opens, when a list of the present one has an element at its cursor. */
  ghost function Child(s: State, input: Input): Option<Mode> {
    var p, v := s.payload, s.view;
    match s.mode
    case Overview =>
      if v.focus.Clusters? && p.clusters != [] then Some(Cluster)
      else if p.works != [] then Some(if p.works[Min(v.row, |p.works| - 1)].opensStudy then Study else Work)
      else if p.jobs != [] then Some(Logs) else None
    case Study => if Candidates(p, v.row) != [] then Some(StudyCandidate) else None
    case StudyCandidate => if Runs(p, v.row, v.candidate) != [] then Some(StudyRun) else None
    case StudyHpo => if Parameters(p, v.row) > 0 then Some(StudyHpoParameter) else None
    case StudyRun => if input.epochs then Some(StudyEpoch) else None
    case Work => if Attempts(p, v.row) != [] then Some(Logs) else None
    case Cluster => if ClusterJobs(p, v.cluster) != [] then Some(Logs) else None
    case _ => None
  }

  /** The log or the run that was opened is the selected one, with a worker to load it. */
  ghost predicate Loads(seen: State, t: State) {
    && (t.mode.Logs? ==>
          t.workers.logs.Some? && t.returnMode == seen.mode && JobOnScreen(seen, t.logJob) && !t.traceback)
    && (t.mode.StudyRun? ==>
          && t.workers.study.Some? && seen.view.row < |Items(seen.payload)|
          && t.studyJob == Items(seen.payload)[seen.view.row].jobId
          && seen.view.run < |Runs(seen.payload, seen.view.row, seen.view.candidate)|
          && t.studyKey == Runs(seen.payload, seen.view.row, seen.view.candidate)[seen.view.run])
  }

  /** Enter opens exactly what the view can open; otherwise the view stays. */
  lemma EnterGoesDown(s: State, input: Input)
    ensures var seen, t := Observe(s, input), Turn(s, input);
      Reads(s, seen, input) && Enters(input.key) ==>
        Entered(seen, input, t.(requests := t.requests.(turn := seen.requests.turn)))
        && t.requests.turn == seen.requests.turn + 1
  {
    var seen := Observe(s, input);
    if Reads(s, seen, input) && Enters(input.key) {
      TurnReads(s, input);
      EnterKey(seen, input);
      hide Inv, Clamped, Observe, Child, Turn, OnKey, Loads, JobOnScreen, Items, Runs;
    }
  }

  /** What Enter does to a state. */
  ghost predicate Entered(s: State, input: Input, t: State) {
    && t.mode == (if Child(s, input).Some? then Child(s, input).value else s.mode)
    && (t.mode != s.mode ==> Parent(t) == s.mode && Loads(s, t) && Cursor(t).0 == 0)
    && (t.mode != s.mode && (t.mode.Study? || t.mode.StudyCandidate?) ==> t.view.run == 0)
    && t.view.row == s.view.row && t.view.cluster == s.view.cluster && t.payload == s.payload
    && t.requests == s.requests
  }

  lemma EnterKey(s: State, input: Input)
    requires Clamped(s.view, s.payload, s.mode) && Enters(input.key)
    requires Isolated(s.mode) || (s.requests.cancel.None? && s.requests.history.None? && s.workers.action.None?)
    ensures Entered(s, input, OnKey(s, input))
  {
    EnterRow(s, input);
    EnterStudies(s, input);
    hide Entered, OpenRow, OnStudyCandidate, OnJobList, EnterLogs;
    match s.mode
    case Work =>
      AttemptFits(s);
      EnterJob(s, input, Attempts(s.payload, s.view.row));
    case Cluster => EnterJob(s, input, ClusterJobs(s.payload, s.view.cluster));
    case Overview =>
    case StudyCandidate =>
    case _ => EnterOther(s, input);
  }

  lemma EnterOther(s: State, input: Input)
    requires Clamped(s.view, s.payload, s.mode) && Enters(input.key)
    requires Isolated(s.mode) || (s.requests.cancel.None? && s.requests.history.None? && s.workers.action.None?)
    ensures !s.mode.Work? && !s.mode.Cluster? && !s.mode.Overview? && !s.mode.StudyCandidate? ==>
      Entered(s, input, OnKey(s, input))
  {
    hide Candidates, Runs, Parameters, Attempts, ClusterJobs, OpenRow, Clamped, StartLogs, StartStudy;
  }

  lemma EnterRow(s: State, input: Input)
    requires Clamped(s.view, s.payload, s.mode)
    ensures s.mode.Overview? ==> Entered(s, input, OpenRow(s, input))
  {
    hide Candidates, Runs, Parameters, Attempts, ClusterJobs;
  }

  lemma EnterStudies(s: State, input: Input)
    requires Clamped(s.view, s.payload, s.mode) && Enters(input.key)
    ensures s.mode.StudyCandidate? ==> Entered(s, input, OnStudyCandidate(s, input))
  {
    var t := OnStudyCandidate(s, input);
    assert Runs(s.payload, s.view.row, s.view.candidate) != [] ==> Items(s.payload) == s.payload.works != [];
    hide Candidates, Runs, Parameters, Attempts, ClusterJobs;
  }

  lemma EnterJob(s: State, input: Input, jobs: seq<Id>)
    requires Enters(input.key) && (jobs != [] ==> s.view.detail < |jobs|)
    ensures (s.mode.Work? && jobs == Attempts(s.payload, s.view.row))
        || (s.mode.Cluster? && jobs == ClusterJobs(s.payload, s.view.cluster))
      ==> Entered(s, input, OnJobList(s, input, jobs))
  {
    hide Candidates, Runs, Parameters, Attempts, ClusterJobs, Items;
  }

  // ----- what the selection can reach -----

  /** The target is what is selected on the screen. */
  ghost predicate OnScreen(s: State, t: Target) {
    var items, works := Items(s.payload), s.payload.works;
    match t
    case CancelWork(id) => s.view.row < |items| && id == WorkSelector(items[s.view.row])
      && (s.mode.Study? || s.mode.StudyCandidate? || (s.mode.Overview? && works != []))
    case CancelJob(id) => JobOnScreen(s, id)
    case DeleteJob(id) => JobOnScreen(s, id)
    case DeleteWork(id) => s.mode.Overview? && s.view.row < |works| && id == works[s.view.row].workId
    case ClearHistory => s.mode.Overview? || s.mode.Work? || s.mode.Cluster?
  }

  ghost predicate JobOnScreen(s: State, id: Id) {
    match s.mode
    case Work => s.view.detail < |Attempts(s.payload, s.view.row)| &&
        id == Attempts(s.payload, s.view.row)[s.view.detail]
    case Cluster => s.view.detail < |ClusterJobs(s.payload, s.view.cluster)| &&
        id == ClusterJobs(s.payload, s.view.cluster)[s.view.detail]
    case Overview => s.payload.works == [] && s.view.row < |s.payload.jobs| && id == s.payload.jobs[s.view.row].jobId
    case _ => false
  }

  lemma RowNamesSelection(s: State, input: Input)
    requires Quiet(s) && Clamped(s.view, s.payload, s.mode) && Items(s.payload) != []
    requires s.mode.Study? || s.mode.StudyCandidate? || (s.mode.Overview? && s.payload.works != [])
    ensures s.view.row < |Items(s.payload)|
    ensures var r := CancelRow(s, input).requests;
      r.cancel.Some? && OnScreen(s, r.cancel.value) && r.history.None?
  {
    hide Inv, Items;
  }

  lemma JobListNamesSelection(s: State, input: Input, jobs: seq<Id>)
    requires Quiet(s) && (jobs != [] ==> s.view.detail < |jobs|)
    requires (s.mode.Work? && jobs == Attempts(s.payload, s.view.row)) ||
        (s.mode.Cluster? && jobs == ClusterJobs(s.payload, s.view.cluster))
    ensures Naming(s, OnJobList(s, input, jobs).requests)
  {
    hide Inv, StartSnapshot, StartLogs, Attempts, ClusterJobs, Items;
  }

  ghost predicate Naming(s: State, r: Requests) {
    (r.cancel.Some? ==> OnScreen(s, r.cancel.value)) && (r.history.Some? ==> OnScreen(s, r.history.value))
  }

  lemma OverviewNamesSelection(s: State, input: Input)
    requires Quiet(s) && Clamped(s.view, s.payload, s.mode) && s.mode.Overview?
    ensures Naming(s, OnOverview(s, input).requests)
  {
    FinishKeepsRequests(s);
    if Items(s.payload) != [] && s.payload.works != [] {
      RowNamesSelection(s, input);
    }
    hide Inv, StartSnapshot, StartLogs, Move, Finish, OpenRow, CancelRow;
  }

  /** A new request always names what is selected on the screen at its turn. */
  lemma RequestNamesSelection(s: State, input: Input)
    requires Quiet(s) && Clamped(s.view, s.payload, s.mode)
    ensures Naming(s, OnMode(s, input).requests)
  {
    match s.mode
    case Work => JobListNamesSelection(s, input, Attempts(s.payload, s.view.row));
    case Cluster => JobListNamesSelection(s, input, ClusterJobs(s.payload, s.view.cluster));
    case Overview => OverviewNamesSelection(s, input);
    case _ =>
      if Items(s.payload) != [] && (s.mode.Study? || s.mode.StudyCandidate?) {
        RowNamesSelection(s, input);
      }
      hide Inv, StartSnapshot, StartStudy, CancelRow, Clamped;
  }

  // ----- every key of a view -----

  /** Enter and then any back key lead back to the view they started from, in every run. */
  lemma EnterThenBack(inputs: seq<Input>, enter: Input, back: Input)
    ensures var s := Play(inputs);
      Reads(s, Observe(s, enter), enter) && Enters(enter.key) && Child(Observe(s, enter), enter).Some?
      && Leaves(back.key) && back.stop.Nowhere? ==>
        Play(inputs + [enter] + [back]).mode == s.mode && !Play(inputs + [enter] + [back]).finished
  {
    var s := Play(inputs);
    PlayInv(inputs);
    PlayInv(inputs + [enter]);
    PlayOnce(inputs, enter);
    PlayOnce(inputs + [enter], back);
    hide Play, Inv, Turn, Observe, Child, Loads;
    if Reads(s, Observe(s, enter), enter) && Enters(enter.key) && Child(Observe(s, enter), enter).Some? {
      EnterGoesDown(s, enter);
      TurnReads(s, enter);
      ChildIsOther(Observe(s, enter), enter);
      EnterKeepsReading(s, enter);
      var t := Turn(s, enter);
      if Leaves(back.key) && back.stop.Nowhere? {
        TurnReads(t, back);
        SeenIsClamp(t, back);
        BackGoesUp(t, back);
      }
    }
    hide Child, Loads, Entered;
  }

  lemma ChildIsOther(s: State, input: Input)
    ensures Child(s, input).Some? ==> Child(s, input).value != s.mode && !Child(s, input).value.Overview?
  {}

  /** After Enter nothing is pending, the monitor is not left and no history action runs. */
  lemma EnterKeepsReading(s: State, enter: Input)
    requires Reads(s, Observe(s, enter), enter) && Enters(enter.key)
    ensures var t := Turn(s, enter);
      Inv(t) && !t.finished && t.requests.cancel.None? && t.requests.history.None? && t.workers.action.None?
  {
    var seen := Observe(s, enter);
    TurnReads(s, enter);
    TurnKeepsInv(s, enter);
    EnterAlone(seen, enter);
    hide Inv, Clamped, Observe, Turn, OnKey;
  }

  lemma EnterAlone(s: State, input: Input)
    requires Inv(s) && !s.finished && Enters(input.key) && Clamped(s.view, s.payload, s.mode)
    requires Isolated(s.mode) || (s.requests.cancel.None? && s.requests.history.None? && s.workers.action.None?)
    ensures var t := OnKey(s, input);
      !t.finished && t.requests.cancel.None? && t.requests.history.None? && t.workers.action.None?
  {
    assert s.requests.cancel.None? && s.requests.history.None? && s.workers.action.None?;
    EnterKey(s, input);
    EnterAct(s, input);
    hide Inv, Clamped, OnKey;
  }

  lemma EnterAct(s: State, input: Input)
    requires !s.finished && Enters(input.key) && Clamped(s.view, s.payload, s.mode)
    requires s.requests.cancel.None? && s.requests.history.None? && s.workers.action.None?
    ensures !OnKey(s, input).finished && OnKey(s, input).workers.action.None?
  {
    hide Clamped, Candidates, Runs, Parameters, Attempts, ClusterJobs, Items, Finish;
  }

  /** The cursor of a view and the length of the list it moves in; clusters and jobs are one list. */
  ghost function Cursor(s: State): (nat, nat) {
    var p, v := s.payload, s.view;
    match s.mode
    case Overview => (Line(v, |p.clusters|), |p.clusters| + |Items(p)|)
    case Cluster => (v.detail, |ClusterJobs(p, v.cluster)|)
    case Work => (v.detail, |Attempts(p, v.row)|)
    case Study => (v.candidate, |Candidates(p, v.row)|)
    case StudyCandidate => (v.run, |Runs(p, v.row, v.candidate)|)
    case StudyHpo => (v.parameter, Parameters(p, v.row))
    case _ => (0, 0)
  }

  /** In every list `j` moves the cursor one on and `k` one back, stopping at the ends. */
  lemma CursorMoves(s: State, input: Input)
    ensures var seen, t := Observe(s, input), Turn(s, input);
      Reads(s, seen, input) && (input.key.J? || input.key.K?) ==>
        Stepped(seen, input, t.(requests := t.requests.(turn := seen.requests.turn)))
  {
    var seen := Observe(s, input);
    if Reads(s, seen, input) && (input.key.J? || input.key.K?) {
      TurnReads(s, input);
      CursorKeys(seen, input);
      hide Inv, Clamped, Observe, Stepped, Turn, OnKey;
    }
  }

  /** One step of the cursor and nothing else. */
  ghost predicate Stepped(s: State, input: Input, t: State) {
    && t.mode == s.mode && t.payload == s.payload && Cursor(t).1 == Cursor(s).1
    && Cursor(t).0 == (if input.key.J? then Min(Cursor(s).0 + 1, Last(Cursor(s).1)) else Last(Cursor(s).0))
    && t.requests == s.requests && t.workers == s.workers && (s.mode.Study? ==> t.view.run == 0)
  }

  lemma CursorKeys(s: State, input: Input)
    requires Clamped(s.view, s.payload, s.mode) && (input.key.J? || input.key.K?)
    requires Isolated(s.mode) || (s.requests.cancel.None? && s.requests.history.None? && s.workers.action.None?)
    ensures Stepped(s, input, OnKey(s, input))
  {
    hide Stepped, OnJobList, OnOverview, OnStudy, OnStudyCandidate, OnStudyHpo;
    match s.mode
    case Overview => CursorOverview(s, input);
    case Work =>
      AttemptFits(s);
      CursorJobs(s, input, Attempts(s.payload, s.view.row));
    case Cluster => CursorJobs(s, input, ClusterJobs(s.payload, s.view.cluster));
    case Logs => CursorNowhere(s, input);
    case StudyRun => CursorNowhere(s, input);
    case StudyEpoch => CursorNowhere(s, input);
    case StudyHpoParameter => CursorNowhere(s, input);
    case _ => CursorStudies(s, input);
  }

  lemma CursorOverview(s: State, input: Input)
    requires Clamped(s.view, s.payload, s.mode) && (input.key.J? || input.key.K?) && s.mode.Overview?
    ensures Stepped(s, input, OnOverview(s, input))
  {
    MoveIsOneStep(s.view, input.key.J?, |Items(s.payload)|, |s.payload.clusters|);
    hide Line, Move, Items, Candidates, Runs, Parameters, Attempts, ClusterJobs, OpenRow;
  }

  lemma CursorJobs(s: State, input: Input, jobs: seq<Id>)
    requires (input.key.J? || input.key.K?) && (jobs != [] ==> s.view.detail < |jobs|)
    ensures (s.mode.Work? && jobs == Attempts(s.payload, s.view.row))
        || (s.mode.Cluster? && jobs == ClusterJobs(s.payload, s.view.cluster))
      ==> Stepped(s, input, OnJobList(s, input, jobs))
  {
    hide Attempts, ClusterJobs;
  }

  lemma CursorNowhere(s: State, input: Input)
    requires Clamped(s.view, s.payload, s.mode) && (input.key.J? || input.key.K?)
    requires Isolated(s.mode) || (s.requests.cancel.None? && s.requests.history.None? && s.workers.action.None?)
    ensures Isolated(s.mode) || s.mode.StudyHpoParameter? ==> Stepped(s, input, OnKey(s, input))
  {
    hide Clamped, OnJobList, OnOverview, OnStudy, OnStudyCandidate, OnStudyHpo;
  }

  lemma CursorStudies(s: State, input: Input)
    requires Clamped(s.view, s.payload, s.mode) && (input.key.J? || input.key.K?)
    ensures s.mode.Study? ==> Stepped(s, input, OnStudy(s, input))
    ensures s.mode.StudyCandidate? ==> Stepped(s, input, OnStudyCandidate(s, input))
    ensures s.mode.StudyHpo? ==> Stepped(s, input, OnStudyHpo(s, input))
  {
    hide Clamped, Candidates, Runs, Parameters, Items;
  }

  /** Something on the screen can be cancelled, deleted, or cleared. */
  ghost predicate Cancellable(s: State) {
    match s.mode
    case Work => Attempts(s.payload, s.view.row) != []
    case Cluster => ClusterJobs(s.payload, s.view.cluster) != []
    case _ => (s.mode.Overview? || s.mode.Study? || s.mode.StudyCandidate?) && Items(s.payload) != []
  }

  ghost predicate Deletable(s: State) {
    if s.mode.Overview? then s.view.focus.Jobs? && Items(s.payload) != []
    else (s.mode.Work? || s.mode.Cluster?) && Cancellable(s)
  }

  ghost predicate Clearable(s: State) { s.mode.Overview? || s.mode.Work? || s.mode.Cluster? }

  /** The key makes exactly the request it stands for, for what is on the screen, or none. */
  ghost predicate Makes(seen: State, k: Key, a: Requests) {
    var r := seen.requests;
    if k.X? && Cancellable(seen) then
      && a.cancel.Some? && Cancels(a.cancel.value)
      && OnScreen(seen, a.cancel.value) && a == RequestCancel(r, a.cancel.value, k)
    else if k.LowerD? && Deletable(seen) then
      && a.history.Some? && !Cancels(a.history.value) && !a.history.value.ClearHistory?
      && OnScreen(seen, a.history.value) && a == RequestHistory(r, a.history.value, k)
    else if k.UpperD? && Clearable(seen) then a == RequestHistory(r, ClearHistory, k)
    else a == r
  }

  /** `x`, `d` and `D` request exactly what the view allows; no other key requests anything. */
  lemma RequestsAreMade(s: State, input: Input)
    ensures var seen, t := Observe(s, input), Turn(s, input);
      Reads(s, seen, input) ==> Makes(seen, input.key, t.requests.(turn := seen.requests.turn))
  {
    var seen := Observe(s, input);
    if Reads(s, seen, input) {
      TurnReads(s, input);
      MakesRequest(seen, input);
      hide Inv, Clamped, Observe, Makes, Turn, OnKey;
    }
  }

  lemma MakesRequest(s: State, input: Input)
    requires Clamped(s.view, s.payload, s.mode)
    requires Isolated(s.mode) || (s.requests.cancel.None? && s.requests.history.None? && s.workers.action.None?)
    ensures Makes(s, input.key, OnKey(s, input).requests)
  {
    hide Makes, OnJobList, OnOverview, OnStudy, OnStudyCandidate;
    match s.mode
    case Overview => MakesOverview(s, input);
    case Work =>
      AttemptFits(s);
      MakesJobs(s, input, Attempts(s.payload, s.view.row));
    case Cluster => MakesJobs(s, input, ClusterJobs(s.payload, s.view.cluster));
    case Study => MakesStudies(s, input);
    case StudyCandidate => MakesStudies(s, input);
    case _ => MakesNothing(s, input);
  }

  lemma MakesOverview(s: State, input: Input)
    requires Clamped(s.view, s.payload, s.mode) && s.mode.Overview?
    requires s.requests.cancel.None? && s.requests.history.None? && s.workers.action.None?
    ensures Makes(s, input.key, OnOverview(s, input).requests)
  {
    FinishKeepsRequests(s);
    OpenKeepsRequests(s, input);
    hide Finish, OpenRow, Move, WorkSelector;
  }

  lemma OpenKeepsRequests(s: State, input: Input)
    requires Clamped(s.view, s.payload, s.mode)
    ensures OpenRow(s, input).requests == s.requests
  {
    hide Candidates, Runs, Parameters, Attempts, ClusterJobs;
  }

  lemma MakesJobs(s: State, input: Input, jobs: seq<Id>)
    requires (jobs != [] ==> s.view.detail < |jobs|) && s.workers.action.None?
    ensures (s.mode.Work? && jobs == Attempts(s.payload, s.view.row))
        || (s.mode.Cluster? && jobs == ClusterJobs(s.payload, s.view.cluster))
      ==> Makes(s, input.key, OnJobList(s, input, jobs).requests)
  {
    hide Attempts, ClusterJobs, Items;
  }

  lemma MakesStudies(s: State, input: Input)
    requires Clamped(s.view, s.payload, s.mode)
    ensures s.mode.Study? ==> Makes(s, input.key, OnStudy(s, input).requests)
    ensures s.mode.StudyCandidate? ==> Makes(s, input.key, OnStudyCandidate(s, input).requests)
  {
    hide Candidates, Runs, WorkSelector;
  }

  lemma MakesNothing(s: State, input: Input)
    requires Clamped(s.view, s.payload, s.mode)
    requires Isolated(s.mode) || (s.requests.cancel.None? && s.requests.history.None? && s.workers.action.None?)
    ensures Isolated(s.mode) || s.mode.StudyHpo? || s.mode.StudyHpoParameter? ==>
      Makes(s, input.key, OnKey(s, input).requests)
  {
    hide Clamped, OnJobList, OnOverview, OnStudy, OnStudyCandidate, Parameters, Items, Attempts, ClusterJobs;
  }

  /** The remaining keys: `q` in the overview is the only way out; `r` has a snapshot, or the run on the
      screen, loaded; `e` loads the log anew with the traceback shown or hidden; `a` and `i` open the
      attempts and the parameters of a study; Tab goes to the other list of the overview, if it has a row. */
  ghost predicate Shortcut(s: State, input: Input, t: State) {
    var k, m := input.key, s.mode;
    && (t.finished <==> k.Q? && m.Overview?)
    && (k.R? && !Isolated(m) && !m.StudyCandidate? ==>
          t.workers.snapshot.Some? && t.mode == m && t.view == s.view)
    && (k.R? && (m.StudyRun? || m.StudyEpoch?) ==> t.workers.study.Some? && t.mode == m)
    && (k.E? && m.Logs? ==>
          t.mode == m && t.traceback != s.traceback && t.workers.logs == Some(s.workers.next) && t.logJob == s.logJob)
    && (k.A? && m.Study? ==> t.mode.Work? && t.view == s.view.(detail := 0))
    && (k.I? && (m.Study? || m.StudyCandidate?) ==> t.mode.StudyHpo? && t.view == s.view.(parameter := 0))
    && (k.Tab? && m.Overview? ==>
          var other := if s.view.focus.Jobs? then Clusters else Jobs;
          var rows := if s.view.focus.Jobs? then |s.payload.clusters| else |Items(s.payload)|;
          t.mode == m && t.view == if rows > 0 then s.view.(focus := other) else s.view)
  }

  lemma ShortcutsWork(s: State, input: Input)
    ensures var seen, t := Observe(s, input), Turn(s, input);
      Reads(s, seen, input) ==> Shortcut(seen, input, t)
  {
    var seen := Observe(s, input);
    if Reads(s, seen, input) {
      TurnReads(s, input);
      ShortcutKeys(seen, input);
      hide Inv, Clamped, Observe, Turn, OnKey;
    }
  }

  lemma ShortcutKeys(s: State, input: Input)
    requires Clamped(s.view, s.payload, s.mode) && !s.finished
    requires Isolated(s.mode) || (s.requests.cancel.None? && s.requests.history.None? && s.workers.action.None?)
    ensures Shortcut(s, input, OnKey(s, input))
  {
    hide Shortcut, OnJobList, OnOverview, OnStudy, OnStudyCandidate, OnStudyHpo, OnStudyHpoParameter;
    match s.mode
    case Work =>
      AttemptFits(s);
      ShortcutJobs(s, input, Attempts(s.payload, s.view.row));
    case Cluster => ShortcutJobs(s, input, ClusterJobs(s.payload, s.view.cluster));
    case Overview => ShortcutOverview(s, input);
    case Logs => ShortcutLoads(s, input);
    case StudyRun => ShortcutLoads(s, input);
    case StudyEpoch => ShortcutLoads(s, input);
    case _ => ShortcutStudies(s, input);
  }

  lemma ShortcutOverview(s: State, input: Input)
    requires Clamped(s.view, s.payload, s.mode) && !s.finished && s.mode.Overview?
    ensures Shortcut(s, input, OnOverview(s, input))
  {
    OpenStays(s, input);
    hide Items, Move, OpenRow, CancelRow;
  }

  lemma OpenStays(s: State, input: Input)
    requires Clamped(s.view, s.payload, s.mode)
    ensures OpenRow(s, input).finished == s.finished
  {
    hide Items, StartLogs;
  }

  lemma ShortcutJobs(s: State, input: Input, jobs: seq<Id>)
    requires !s.finished && (s.mode.Work? || s.mode.Cluster?) && (jobs != [] ==> s.view.detail < |jobs|)
    ensures Shortcut(s, input, OnJobList(s, input, jobs))
  {
    hide Items;
  }

  lemma ShortcutLoads(s: State, input: Input)
    requires !s.finished && Clamped(s.view, s.payload, s.mode)
    ensures Isolated(s.mode) ==> Shortcut(s, input, OnKey(s, input))
  {
    hide Items, Clamped;
  }

  lemma ShortcutStudies(s: State, input: Input)
    requires Clamped(s.view, s.payload, s.mode) && !s.finished
    ensures s.mode.Study? ==> Shortcut(s, input, OnStudy(s, input))
    ensures s.mode.StudyCandidate? ==> Shortcut(s, input, OnStudyCandidate(s, input))
    ensures s.mode.StudyHpo? ==> Shortcut(s, input, OnStudyHpo(s, input))
    ensures s.mode.StudyHpoParameter? ==> Shortcut(s, input, OnStudyHpoParameter(s, input))
  {
    hide Candidates, Runs, Parameters, WorkSelector, Release, StartStudy;
  }

  // ----- the attempts a work view can reach -----

  /** The work view reads its own keys: nothing is pending and no history action runs. */
  ghost predicate Browsing(s: State) {
    s.mode.Work? && !s.finished && s.requests.cancel.None? && s.requests.history.None? && s.workers.action.None?
  }

  /** The last position of a work view: its attempts and the selected cluster's jobs bound the same variable. */
  ghost function Reach(p: Payload, v: Selection): nat {
    Min(Last(|Attempts(p, v.row)|), Last(|ClusterJobs(p, v.cluster)|))
  }

  lemma SeenIsClamp(s: State, input: Input)
    requires Inv(s) && !s.finished
    ensures var seen := Observe(s, input);
      && seen.view == Clamp(s.view, seen.payload, s.mode) && seen.mode == s.mode && seen.requests == s.requests
      && (input.snapshot.Data? || seen.payload == s.payload)
      && (seen.workers.action.Some? <==> s.workers.action.Some? && !input.action)
  {
    ObserveKeeps(s, input);
    hide Inv, Clamp, StartDue, TakeResults;
  }

  /** In a work view every request for a job, and every log opened, is for an attempt whose position
      does not pass the last job of the selected cluster. */
  lemma AttemptsStayInReach(inputs: seq<Input>, input: Input)
    ensures var before, seen, after := Play(inputs), Observe(Play(inputs), input), Turn(Play(inputs), input);
      var k, attempts := seen.view.detail, Attempts(seen.payload, seen.view.row);
      Browsing(before) && input.stop.Nowhere? ==>
        && k <= Reach(seen.payload, seen.view)
        && (after.requests.cancel.Some? ==> k < |attempts| && after.requests.cancel.value == CancelJob(attempts[k]))
        && (after.requests.history.Some? && !after.requests.history.value.ClearHistory?
            ==> k < |attempts| && after.requests.history.value == DeleteJob(attempts[k]))
        && (after.mode.Logs? ==> k < |attempts| && after.logJob == attempts[k])
  {
    PlayInv(inputs);
    var before := Play(inputs);
    var seen := Observe(before, input);
    hide Inv, Observe, Play, Attempts, ClusterJobs, Items, StartSnapshot, StartLogs, Clamped;
    if Browsing(before) && input.stop.Nowhere? {
      SeenIsClamp(before, input);
      SeenIsClamped(before, input);
      ClampReaches(before.view, seen.payload);
      AttemptFits(seen);
    }
  }

  lemma AttemptFits(s: State)
    requires s.mode.Work? && Clamped(s.view, s.payload, s.mode)
    ensures Attempts(s.payload, s.view.row) != [] ==> s.view.detail < |Attempts(s.payload, s.view.row)|
  {
    hide Attempts;
  }

  lemma ClampReaches(v: Selection, p: Payload)
    ensures Clamp(v, p, Work).detail == Min(v.detail, Reach(p, Clamp(v, p, Work)))
  {}

  lemma DownKey(s: State, input: Input)
    requires Inv(s) && Browsing(s) && input.key.J? && input.stop.Nowhere? && !input.snapshot.Data?
    ensures var v, t := Clamp(s.view, s.payload, Work), Turn(s, input);
      && Browsing(t) && t.payload == s.payload
      && t.view == v.(detail := Min(Last(|Attempts(s.payload, v.row)|), v.detail + 1))
  {
    SeenIsClamp(s, input);
    SeenIsClamped(s, input);
    AttemptFits(Observe(s, input));
    hide Inv, Observe, Attempts, Clamp, Clamped;
  }

  lemma ClampAgain(v: Selection, p: Payload, detail: nat)
    ensures var w := Clamp(v, p, Work);
      Clamp(w.(detail := detail), p, Work) == w.(detail := Min(detail, Reach(p, w)))
  {
    hide Attempts, ClusterJobs;
  }

  lemma MinStep(d: nat, attempts: nat, jobs: nat)
    requires d <= Min(attempts, jobs)
    ensures Min(Min(attempts, d + 1), Min(attempts, jobs)) == Min(d + 1, Min(attempts, jobs))
  {}

  lemma DownOnce(s: State, input: Input)
    requires Inv(s) && Browsing(s) && input.key.J? && input.stop.Nowhere? && !input.snapshot.Data?
    ensures var v, t := Clamp(s.view, s.payload, Work), Turn(s, input);
      && Browsing(t) && t.payload == s.payload
      && Clamp(t.view, t.payload, Work) == v.(detail := Min(v.detail + 1, Reach(s.payload, v)))
  {
    var v := Clamp(s.view, s.payload, Work);
    DownKey(s, input);
    ClampReaches(s.view, s.payload);
    ClampAgain(s.view, s.payload, Min(Last(|Attempts(s.payload, v.row)|), v.detail + 1));
    hide Inv, Turn, Clamp, Attempts, ClusterJobs;
    MinStep(v.detail, Last(|Attempts(s.payload, v.row)|), Last(|ClusterJobs(s.payload, v.cluster)|));
  }

  /** Down keys that bring no new snapshot select the attempts one after another up to that position:
      all of them are reachable, and none after it. */
  lemma {:induction false} DownReaches(before: seq<Input>, downs: seq<Input>)
    requires forall i :: 0 <= i < |downs| ==>
      downs[i].key.J? && downs[i].stop.Nowhere? && !downs[i].snapshot.Data?
    ensures var s, t := Play(before), Play(before + downs);
      var v := Clamp(s.view, s.payload, Work);
      Browsing(s) ==>
        && Browsing(t) && t.payload == s.payload
        && Clamp(t.view, t.payload, Work) == v.(detail := Min(v.detail + |downs|, Reach(s.payload, v)))
  {
    var s := Play(before);
    hide Inv, Play, Turn, Clamp, Reach;
    if downs == [] {
      assert before + downs == before;
      assert Clamp(s.view, s.payload, Work).detail <= Reach(s.payload, Clamp(s.view, s.payload, Work)) by {
        ClampReaches(s.view, s.payload);
      }
    } else if Browsing(s) {
      var n := |downs| - 1;
      DownReaches(before, downs[..n]);
      LastInput(before, downs);
      PlayInv(before + downs[..n]);
      PlayOnce(before + downs[..n], downs[n]);
      DownOnce(Play(before + downs[..n]), downs[n]);
      SameReach(s.payload, Clamp(s.view, s.payload, Work),
          Min(Clamp(s.view, s.payload, Work).detail + n, Reach(s.payload, Clamp(s.view, s.payload, Work))));
    }
  }

  lemma SameReach(p: Payload, v: Selection, detail: nat)
    ensures Reach(p, v.(detail := detail)) == Reach(p, v)
  {}

  function Pressed(snapshot: Report<Payload>, key: Key): Input {
    Input(snapshot, false, false, false, false, false, false, true, true, true, false, false, Nowhere, key)
  }

  /** The first snapshot, with Enter, opens the first Work. */
  lemma FirstEnter(p: Payload, due: bool)
    requires p.works != []
    ensures var t := Turn(Initial(), Pressed(Data(p), Enter).(refreshDue := due));
      && !t.finished && t.payload == p && t.mode == (if p.works[0].opensStudy then Study else Work)
      && t.view == Selection(Jobs, 0, 0, 0, 0, 0, 0) && t.workers.action.None? && (t.workers.snapshot.Some? <==> due)
      && t.workers.logs.None? && t.workers.study.None?
      && t.requests.cancel.None? && t.requests.history.None?
  {
    hide Attempts, ClusterJobs, Candidates, Runs, Parameters;
  }

  /** So the second attempt of a Work cannot stay selected while the selected cluster lists no second job. */
  lemma AttemptOutOfReach(next: Input) returns (inputs: seq<Input>)
    requires !next.snapshot.Data?
    ensures var s := Play(inputs);
      && Browsing(s) && |Attempts(s.payload, s.view.row)| == 2 && s.view.detail == 1
      && Observe(s, next).view.detail == 0
  {
    var p := Payload([], [Row(1, 0, false, [5, 6], [], 0)], [[]]);
    inputs := [Pressed(Data(p), Enter), Pressed(Nothing, J)];
    FirstEnter(p, false);
    PlayTwo(inputs[0], inputs[1]);
    PlayInv([inputs[0]]);
    PlayInv(inputs);
    PlayOnce([], inputs[0]);
    assert [] + [inputs[0]] == [inputs[0]];
    SeenIsClamp(Play(inputs), next);
    hide Play, Inv, Observe, Turn, Initial;
    DownKey(Play([inputs[0]]), inputs[1]);
  }

  lemma PlayTwo(first: Input, second: Input)
    requires !Turn(Initial(), first).finished
    ensures Play([first, second]) == Turn(Turn(Initial(), first), second)
  {
    assert [] + [first] == [first] && [first] + [second] == [first, second];
    PlayOnce([], first);
    PlayOnce([first], second);
    hide Turn, Initial;
  }

  // ----- the Work a study view was opened on -----

  /** The Work selected at the last turn in the overview, and its position cut down by every list since. */
  datatype Opening = Opening(work: Id, row: nat)

  ghost function Opened(inputs: seq<Input>): Opening {
    if inputs == [] then Opening(0, 0)
    else
      var front, input := inputs[..|inputs|-1], inputs[|inputs|-1];
      var seen := Observe(Play(front), input);
      if Play(front).finished then Opened(front)
      else if seen.mode.Overview? then
        var items, row := Items(seen.payload), seen.view.row;
        Opening(if row < |items| then WorkSelector(items[row]) else 0, row)
      else Opened(front).(row := Min(Opened(front).row, Last(|Items(seen.payload)|)))
  }

  lemma ModeKeepsRow(s: State, input: Input)
    requires Clamped(s.view, s.payload, s.mode)
    ensures !OnMode(s, input).mode.Overview? ==> OnMode(s, input).view.row == s.view.row
    ensures OnMode(s, input).payload == s.payload
  {
    hide OnJobList, OnOverview, OnStudy, OnStudyCandidate, OnStudyHpo, OnStudyHpoParameter;
    match s.mode
    case Work =>
      AttemptFits(s);
      JobsKeepRow(s, input, Attempts(s.payload, s.view.row));
    case Cluster => JobsKeepRow(s, input, ClusterJobs(s.payload, s.view.cluster));
    case Overview => OverviewKeepsRow(s, input);
    case _ => StudiesKeepRow(s, input);
  }

  lemma StudiesKeepRow(s: State, input: Input)
    requires Clamped(s.view, s.payload, s.mode)
    ensures var t := OnStudy(s, input); t.view.row == s.view.row && t.payload == s.payload
    ensures s.mode.StudyCandidate? ==> var t := OnStudyCandidate(s, input);
      t.view.row == s.view.row && t.payload == s.payload
    ensures var t := OnStudyHpo(s, input); t.view.row == s.view.row && t.payload == s.payload
    ensures var t := OnStudyHpoParameter(s, input); t.view.row == s.view.row && t.payload == s.payload
  {
    hide StartSnapshot, StartStudy, Candidates, Runs, Parameters;
  }

  lemma JobsKeepRow(s: State, input: Input, jobs: seq<Id>)
    requires jobs != [] ==> s.view.detail < |jobs|
    ensures OnJobList(s, input, jobs).view.row == s.view.row && OnJobList(s, input, jobs).payload == s.payload
  {
    hide StartSnapshot, StartLogs;
  }

  lemma OverviewKeepsRow(s: State, input: Input)
    requires Clamped(s.view, s.payload, s.mode)
    ensures s.mode.Overview? ==> var t := OnOverview(s, input);
      (!t.mode.Overview? ==> t.view.row == s.view.row) && t.payload == s.payload
  {
    hide StartSnapshot, StartLogs, Move, Candidates, Runs, Parameters, Attempts, ClusterJobs;
  }

  lemma KeyKeepsRow(s: State, input: Input)
    requires Clamped(s.view, s.payload, s.mode)
    ensures !OnKey(s, input).mode.Overview? ==> OnKey(s, input).view.row == s.view.row
    ensures OnKey(s, input).payload == s.payload
  {
    ModeKeepsRow(s, input);
    hide StartSnapshot, StartLogs, StartStudy, StartAction, StopLogs, StopStudy, Clamped, OnMode, Confirms;
  }

  /** Away from the overview the selected row is the opening's. */
  lemma {:induction false} RowIsOpened(inputs: seq<Input>)
    ensures !Play(inputs).finished && !Play(inputs).mode.Overview? ==> Play(inputs).view.row == Opened(inputs).row
  {
    if inputs != [] {
      var front, input := inputs[..|inputs|-1], inputs[|inputs|-1];
      var before := Play(front);
      RowIsOpened(front);
      PlayInv(front);
      hide Inv, OnKey, Observe, Clamped, Items, Clamp;
      if !before.finished {
        var seen := Observe(before, input);
        SeenIsClamp(before, input);
        SeenIsClamped(before, input);
        ClampsRow(before.view, seen.payload, before.mode);
        KeyKeepsRow(seen, input);
      }
    }
  }

  lemma ClampsRow(v: Selection, p: Payload, mode: Mode)
    ensures Clamp(v, p, mode).row == Min(v.row, Last(|Items(p)|))
  {}

  ghost predicate NamesWork(p: Payload, id: Id) { exists i :: 0 <= i < |p.works| && WorkSelector(p.works[i]) == id }

  /** Over every run, `x` in a study view asks to cancel whatever now stands at the opening's position:
      the Work the view was opened on exactly when that Work is still there, and a listed Work
      exactly when any Work is still listed. */
  lemma StudyCancels(inputs: seq<Input>, input: Input)
    ensures var before, seen := Play(inputs), Observe(Play(inputs), input);
      var items := Items(seen.payload);
      var at := Min(Opened(inputs).row, Last(|items|));
      && Asks(before, seen, input) ==>
        var cancel := Turn(before, input).requests.cancel;
        && cancel == Some(CancelWork(WorkSelector(items[at])))
        && (cancel == Some(CancelWork(Opened(inputs).work)) <==> WorkSelector(items[at]) == Opened(inputs).work)
        && (NamesWork(seen.payload, cancel.value.id) <==> seen.payload.works != [])
  {
    var before := Play(inputs);
    var seen := Observe(before, input);
    RowIsOpened(inputs);
    PlayInv(inputs);
    hide Inv, Observe, Play, Opened, Clamped, Clamp, Candidates, Runs, StartSnapshot;
    if Asks(before, seen, input) {
      SeenIsClamp(before, input);
      SeenIsClamped(before, input);
      ClampsRow(before.view, seen.payload, before.mode);
      assert seen.payload.works != [] ==>
          WorkSelector(seen.payload.works[seen.view.row]) == WorkSelector(Items(seen.payload)[seen.view.row]);
    }
  }

  /** The `x` of a study view is read as a new request. */
  ghost predicate Asks(before: State, seen: State, input: Input) {
    && !before.finished && (before.mode.Study? || before.mode.StudyCandidate?)
    && before.requests.cancel.None? && before.requests.history.None? && seen.workers.action.None?
    && input.stop.Nowhere? && input.key.X? && Items(seen.payload) != []
  }

  /** A snapshot that reorders the Works, or loses them, under an open study view makes its `x` cancel
      another Work, or name a raw Job. */
  lemma StudyCancelStrays() returns (opening: Input, reordered: Input, lost: Input)
    ensures Play([opening]).mode.Study? && Opened([opening]).work == 1
    ensures Turn(Play([opening]), reordered).requests.cancel == Some(CancelWork(2))
    ensures NamesWork(Observe(Play([opening]), reordered).payload, 1)
    ensures Turn(Play([opening]), lost).requests.cancel == Some(CancelWork(7))
    ensures Observe(Play([opening]), lost).payload.works == []
  {
    var one, two := Row(1, 0, true, [], [], 0), Row(2, 0, true, [], [], 0);
    opening := Pressed(Data(Payload([], [one, two], [])), Enter).(refreshDue := true);
    reordered := Pressed(Data(Payload([], [two, one], [])), X);
    lost := Pressed(Data(Payload([Row(0, 7, false, [], [], 0)], [], [])), X);
    FirstEnter(Payload([], [one, two], []), true);
    OpenedOnce(opening, one);
    XStudy(Play([opening]), reordered);
    XStudy(Play([opening]), lost);
    var p := reordered.snapshot.value;
    assert WorkSelector(p.works[1]) == 1;
    hide Turn, Observe, Play, Opened;
  }

  lemma OpenedOnce(opening: Input, work: Row)
    requires opening.snapshot.Data? && opening.snapshot.value.works != [] && opening.snapshot.value.works[0] == work
    ensures Opened([opening]).work == WorkSelector(work)
    ensures Turn(Initial(), opening).finished || Play([opening]) == Turn(Initial(), opening)
  {
    assert [] + [opening] == [opening] && [opening][..0] == [];
    PlayOnce([], opening);
    assert Play([]) == Initial();
    SeenIsClamp(Initial(), opening);
    InitialInv();
    assert Observe(Initial(), opening).payload == opening.snapshot.value;
    hide Turn, Play, Observe, Inv;
  }

  lemma XStudy(s: State, input: Input)
    requires s.mode.Study? && !s.finished && s.requests.cancel.None? && s.requests.history.None? &&
        s.workers.action.None?
    requires s.view.row == 0 && s.workers.snapshot.Some? && s.workers.logs.None? && s.workers.study.None?
    requires input.snapshot.Data? && Items(input.snapshot.value) != [] && input == Pressed(input.snapshot, X)
    ensures Observe(s, input).payload == input.snapshot.value
    ensures Turn(s, input).requests.cancel == Some(CancelWork(WorkSelector(Items(input.snapshot.value)[0])))
  {
    hide Attempts, ClusterJobs, Candidates, Runs, Parameters;
  }
}
