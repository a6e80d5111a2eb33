/** The discrete-event GPU packing benchmark: one device, an event loop over pending, active
    and completed runs, three running integrals, and an admission policy.

    The loop is proved for every policy: the fixed one-run-per-device rule and an arbitrary
    planner, which may answer differently at every event. */
module Scheduling {
  import opened Sums

  const GIB := 1024 * 1024 * 1024
  const TOTAL: real := (80 * GIB) as real
  const SLOTS := 4

  datatype Run = Run(key: string, peakBytes: int, duration: real, scientificValue: real)

  datatype Active = Active(run: Run, finish: real)

  /** What a planner sees: the event number, the queue, the resident runs and the clock. */
  type Planner = (nat, seq<Run>, seq<Active>, real) -> set<string>

  datatype Policy = FixedOne | Adaptive(place: Planner)

  /** The loop's own error: nothing is resident and nothing was admitted. */
  datatype Result<T> = Ok(value: T) | NoProgress

  datatype Trace = Trace(
    now: real, activeArea: real, memoryArea: real, blockedArea: real,
    starts: map<string, real>, completed: seq<Run>)

  datatype Benchmark = Benchmark(
    adaptive: bool, makespan: real, activeFraction: real, vramUtilization: real,
    actionsPerHour: real, blockedSeconds: real, heavyStarvation: real)

  // ----- queues -----

  /** The queued runs whose key was selected, in queue order. */
  function Chosen(runs: seq<Run>, keys: set<string>): seq<Run> {
    if runs == [] then []
    else
      var last := runs[|runs|-1];
      if last.key in keys then Chosen(runs[..|runs|-1], keys) + [last] else Chosen(runs[..|runs|-1], keys)
  }

  /** The queued runs whose key was not selected, in queue order. */
  function Waiting(runs: seq<Run>, keys: set<string>): seq<Run> {
    if runs == [] then []
    else
      var last := runs[|runs|-1];
      if last.key in keys then Waiting(runs[..|runs|-1], keys) else Waiting(runs[..|runs|-1], keys) + [last]
  }

  /** Removal of the first equal element, as list.remove does. */
  function RemoveFirst(runs: seq<Run>, run: Run): seq<Run> {
    if runs == [] then []
    else if runs[0] == run then runs[1..]
    else [runs[0]] + RemoveFirst(runs[1..], run)
  }

  lemma {:induction false} RemoveFirstAfter(prefix: seq<Run>, run: Run, rest: seq<Run>)
    requires run !in prefix
    ensures RemoveFirst(prefix + [run] + rest, run) == prefix + rest
  {
    var whole := prefix + [run] + rest;
    if prefix == [] {
      assert whole == [run] + rest;
      assert prefix + rest == rest;
    } else {
      assert whole[0] == prefix[0];
      assert whole[1..] == prefix[1..] + [run] + rest;
      RemoveFirstAfter(prefix[1..], run, rest);
      assert prefix + rest == [prefix[0]] + (prefix[1..] + rest);
    }
  }

  function Started(runs: seq<Run>, now: real): seq<Active> {
    if runs == [] then []
    else
      var last := runs[|runs|-1];
      Started(runs[..|runs|-1], now) + [Active(last, now + last.duration)]
  }

  function Stamped(starts: map<string, real>, runs: seq<Run>, now: real): map<string, real> {
    if runs == [] then starts
    else Stamped(starts, runs[..|runs|-1], now)[runs[|runs|-1].key := now]
  }

  function Residents(active: seq<Active>): seq<Run> {
    if active == [] then [] else Residents(active[..|active|-1]) + [active[|active|-1].run]
  }

  /** Runs of the device whose finish time has been reached. */
  function Finished(active: seq<Active>, now: real): seq<Run> {
    if active == [] then []
    else
      var last := active[|active|-1];
      if last.finish <= now then Finished(active[..|active|-1], now) + [last.run]
          else Finished(active[..|active|-1], now)
  }

  function Unfinished(active: seq<Active>, now: real): seq<Active> {
    if active == [] then []
    else
      var last := active[|active|-1];
      if last.finish <= now then Unfinished(active[..|active|-1], now)
          else Unfinished(active[..|active|-1], now) + [last]
  }

  /** The next completion event. */
  function Earliest(active: seq<Active>): (t: real)
    requires active != []
    ensures exists a :: a in active && a.finish == t
    ensures forall a :: a in active ==> t <= a.finish
  {
    if |active| == 1 then active[0].finish
    else
      var n := |active| - 1;
      var t := Earliest(active[..n]);
      assert active == active[..n] + [active[n]];
      if active[n].finish < t then active[n].finish else t
  }

  lemma {:induction false} WaitingMembers(runs: seq<Run>, keys: set<string>)
    ensures forall r :: r in Waiting(runs, keys) <==> r in runs && r.key !in keys
  {
    if runs != [] {
      var n := |runs| - 1;
      WaitingMembers(runs[..n], keys);
      assert runs == runs[..n] + [runs[n]];
    }
  }

  lemma WaitingAppend(runs: seq<Run>, run: Run, keys: set<string>)
    ensures Waiting(runs + [run], keys) == if run.key in keys then Waiting(runs, keys) else Waiting(runs, keys) + [run]
    ensures Chosen(runs + [run], keys) == if run.key in keys then Chosen(runs, keys) + [run] else Chosen(runs, keys)
  {
    assert (runs + [run])[..|runs|] == runs;
  }

  lemma {:induction false} UnfinishedMembers(active: seq<Active>, now: real)
    ensures |Unfinished(active, now)| <= |active|
    ensures forall a :: a in Unfinished(active, now) <==> a in active && a.finish > now
  {
    if active != [] {
      var n := |active| - 1;
      UnfinishedMembers(active[..n], now);
      assert active == active[..n] + [active[n]];
    }
  }

  // ----- weighted amounts of work -----

  function PeakOf(run: Run): real { run.peakBytes as real }

  function Unit(run: Run): real { 1.0 }

  /** Weight resident on the device. */
  function Load(w: Run -> real, active: seq<Active>): real {
    if active == [] then 0.0 else Load(w, active[..|active|-1]) + w(active[|active|-1].run)
  }

  /** Weighted work of a list of runs: weight times duration. */
  function Work(w: Run -> real, runs: seq<Run>): real {
    if runs == [] then 0.0
    else Work(w, runs[..|runs|-1]) + Times(w(runs[|runs|-1]), runs[|runs|-1].duration)
  }

  /** Weighted work the resident runs still have to do. */
  function Remaining(w: Run -> real, active: seq<Active>, now: real): real {
    if active == [] then 0.0
    else Remaining(w, active[..|active|-1], now) + Times(w(active[|active|-1].run), active[|active|-1].finish - now)
  }

  /** Admission moves work from the queue to the device without changing its amount. */
  lemma {:induction false} AdmissionKeepsWork(w: Run -> real, pending: seq<Run>, keys: set<string>,
      active: seq<Active>, now: real)
    ensures Work(w, pending) + Remaining(w, active, now)
         == Work(w, Waiting(pending, keys)) + Remaining(w, active + Started(Chosen(pending, keys), now), now)
  {
    if pending == [] {
      assert active + Started(Chosen(pending, keys), now) == active;
    } else {
      var n := |pending| - 1;
      var prefix, last := pending[..n], pending[n];
      AdmissionKeepsWork(w, prefix, keys, active, now);
      SplitLast(pending);
      WaitingAppend(prefix, last, keys);
      StartOneMore(w, Chosen(prefix, keys), last, active, now);
    }
  }

  lemma StartOneMore(w: Run -> real, runs: seq<Run>, last: Run, active: seq<Active>, now: real)
    ensures Remaining(w, active + Started(runs + [last], now), now)
         == Remaining(w, active + Started(runs, now), now) + Times(w(last), last.duration)
  {
    assert (runs + [last])[..|runs|] == runs;
    var added := Active(last, now + last.duration);
    assert active + Started(runs + [last], now) == (active + Started(runs, now)) + [added];
    RemainingAppend(w, active + Started(runs, now), added, now);
    assert added.finish - now == last.duration;
  }

  lemma RemainingAppend(w: Run -> real, active: seq<Active>, a: Active, now: real)
    ensures Remaining(w, active + [a], now) == Remaining(w, active, now) + Times(w(a.run), a.finish - now)
  {
    assert (active + [a])[..|active|] == active;
  }

  /** Letting the clock run does work at the rate of the resident weight. */
  lemma {:induction false} ClockSpendsWork(w: Run -> real, active: seq<Active>, now: real, next: real, elapsed: real)
    requires next == now + elapsed
    ensures Remaining(w, active, next) == Remaining(w, active, now) - Times(elapsed, Load(w, active))
  {
    if active != [] {
      var n := |active| - 1;
      ClockSpendsWork(w, active[..n], now, next, elapsed);
    }
  }

  /** Runs retire exactly when they have nothing left to do. */
  lemma {:induction false} RetirementKeepsWork(w: Run -> real, active: seq<Active>, now: real)
    requires forall a :: a in active ==> now <= a.finish
    ensures Remaining(w, Unfinished(active, now), now) == Remaining(w, active, now)
  {
    if active != [] {
      var n := |active| - 1;
      RetirementKeepsWork(w, active[..n], now);
      assert active[n] in active;
      if active[n].finish > now {
        RemainingAppend(w, Unfinished(active[..n], now), active[n], now);
      } else {
        NothingLeft(w(active[n].run), active[n].finish, now);
      }
    }
  }

  lemma NothingLeft(weight: real, finish: real, now: real)
    requires finish == now
    ensures Times(weight, finish - now) == 0.0
  {}

  lemma {:induction false} ResidentsConcat(xs: seq<Active>, ys: seq<Active>)
    ensures Residents(xs + ys) == Residents(xs) + Residents(ys)
  {
    if ys == [] {
      assert xs + ys == xs;
    } else {
      var n := |ys| - 1;
      assert (xs + ys)[..|xs + ys| - 1] == xs + ys[..n];
      ResidentsConcat(xs, ys[..n]);
    }
  }

  lemma {:induction false} StartedResidents(runs: seq<Run>, now: real)
    ensures Residents(Started(runs, now)) == runs
  {
    if runs != [] {
      var n := |runs| - 1;
      StartedResidents(runs[..n], now);
      SplitLast(runs);
    }
  }

  lemma {:induction false} StartedMembers(runs: seq<Run>, now: real)
    ensures |Started(runs, now)| == |runs|
    ensures forall a :: a in Started(runs, now) ==> a.run in runs && a.finish == now + a.run.duration
  {
    if runs != [] {
      StartedMembers(runs[..|runs|-1], now);
      SplitLast(runs);
    }
  }

  lemma {:induction false} ChosenMembers(runs: seq<Run>, keys: set<string>)
    ensures forall r :: r in Chosen(runs, keys) <==> r in runs && r.key in keys
  {
    if runs != [] {
      var n := |runs| - 1;
      ChosenMembers(runs[..n], keys);
      assert runs == runs[..n] + [runs[n]];
    }
  }

  lemma {:induction false} ChosenOrWaiting(runs: seq<Run>, keys: set<string>)
    ensures multiset(Chosen(runs, keys)) + multiset(Waiting(runs, keys)) == multiset(runs)
  {
    if runs != [] {
      var n := |runs| - 1;
      ChosenOrWaiting(runs[..n], keys);
      SplitLast(runs);
      MultisetAppend(runs[..n], runs[n]);
      MultisetAppend(Chosen(runs[..n], keys), runs[n]);
      MultisetAppend(Waiting(runs[..n], keys), runs[n]);
    }
  }

  lemma {:induction false} FinishedOrNot(active: seq<Active>, now: real)
    ensures multiset(Finished(active, now)) + multiset(Residents(Unfinished(active, now))) ==
        multiset(Residents(active))
  {
    if active != [] {
      var n := |active| - 1;
      FinishedOrNot(active[..n], now);
      MultisetAppend(Residents(active[..n]), active[n].run);
      MultisetAppend(Residents(Unfinished(active[..n], now)), active[n].run);
      MultisetAppend(Finished(active[..n], now), active[n].run);
    }
  }

  lemma {:induction false} FinishedMembers(active: seq<Active>, now: real)
    ensures forall r :: r in Finished(active, now) ==> exists a :: a in active && a.run == r && a.finish <= now
  {
    if active != [] {
      var n := |active| - 1;
      FinishedMembers(active[..n], now);
      assert active == active[..n] + [active[n]];
    }
  }

  /** Some resident run leaves at its own finish time. */
  lemma {:induction false} SomeoneLeaves(active: seq<Active>, gone: Active, now: real)
    requires gone in active && gone.finish <= now
    ensures |Unfinished(active, now)| < |active|
  {
    var n := |active| - 1;
    UnfinishedMembers(active[..n], now);
    if active[n].finish > now {
      SomeoneLeaves(active[..n], gone, now);
    }
  }

  // ----- queueing time -----

  /** Time every run of the workload has spent in the queue: until its start, or until now. */
  function Queued(workload: seq<Run>, starts: map<string, real>, now: real): real {
    if workload == [] then 0.0
    else
      var key := workload[|workload|-1].key;
      Queued(workload[..|workload|-1], starts, now) + (if key in starts then starts[key] else now)
  }

  /** What one step of the clock adds to the queueing time. */
  function Backlog(workload: seq<Run>, keys: set<string>, step: real): real {
    if workload == [] then 0.0
    else Backlog(workload[..|workload|-1], keys, step) + (if workload[|workload|-1].key in keys then 0.0 else step)
  }

  lemma {:induction false} ClockQueues(workload: seq<Run>, starts: map<string, real>, now: real, elapsed: real)
    ensures Queued(workload, starts, now + elapsed) ==
        Queued(workload, starts, now) + Backlog(workload, starts.Keys, elapsed)
  {
    if workload != [] {
      ClockQueues(workload[..|workload|-1], starts, now, elapsed);
    }
  }

  function Repeated(step: real, count: nat): real {
    if count == 0 then 0.0 else Repeated(step, count - 1) + step
  }

  lemma {:induction false} RepeatedIsProduct(step: real, count: nat)
    ensures Repeated(step, count) == Times(step, count as real)
  {
    if count > 0 {
      RepeatedIsProduct(step, count - 1);
    }
  }

  lemma {:induction false} BacklogOfQueue(workload: seq<Run>, keys: set<string>, step: real)
    ensures Backlog(workload, keys, step) == Repeated(step, |Waiting(workload, keys)|)
  {
    if workload != [] {
      BacklogOfQueue(workload[..|workload|-1], keys, step);
    }
  }

  lemma {:induction false} StartingQueuesNothing(workload: seq<Run>, starts: map<string, real>,
      later: map<string, real>, now: real)
    requires starts.Keys <= later.Keys
    requires forall k :: k in starts ==> later[k] == starts[k]
    requires forall k :: k in later && k !in starts ==> later[k] == now
    ensures Queued(workload, later, now) == Queued(workload, starts, now)
  {
    if workload != [] {
      StartingQueuesNothing(workload[..|workload|-1], starts, later, now);
    }
  }

  lemma {:induction false} StampedKeys(starts: map<string, real>, runs: seq<Run>, now: real)
    ensures forall k :: k in Stamped(starts, runs, now) <==> k in starts || exists r :: r in runs && r.key == k
    ensures forall r :: r in runs ==> r.key in Stamped(starts, runs, now) && Stamped(starts, runs, now)[r.key] == now
    ensures forall k :: k in starts && (forall r :: r in runs ==> r.key != k) ==>
              k in Stamped(starts, runs, now) && Stamped(starts, runs, now)[k] == starts[k]
  {
    if runs != [] {
      var n := |runs| - 1;
      StampedKeys(starts, runs[..n], now);
      assert runs == runs[..n] + [runs[n]];
    }
  }

  lemma {:induction false} WaitingTwice(workload: seq<Run>, keys: set<string>, more: set<string>, all: set<string>)
    requires forall r :: r in workload ==> (r.key in all <==> r.key in keys || r.key in more)
    ensures Waiting(Waiting(workload, keys), more) == Waiting(workload, all)
  {
    if workload != [] {
      var n := |workload| - 1;
      assert workload[n] in workload;
      WaitingTwice(workload[..n], keys, more, all);
      if workload[n].key !in keys {
        WaitingAppend(Waiting(workload[..n], keys), workload[n], more);
      }
    }
  }

  // ----- one event -----

  datatype State = State(
    pending: seq<Run>, active: seq<Active>, completed: seq<Run>, starts: map<string, real>,
    now: real, activeArea: real, memoryArea: real, blockedArea: real)

  function Admitted(s: State, keys: set<string>): State {
    var chosen := Chosen(s.pending, keys);
    s.(pending := Waiting(s.pending, keys),
       active := s.active + Started(chosen, s.now),
       starts := Stamped(s.starts, chosen, s.now))
  }

  /** The clock moves to the completion event `next`; the integrals grow by the given amounts. */
  function Advanced(s: State, next: real, activity: real, memory: real, blocked: real): State {
    State(s.pending, Unfinished(s.active, next), s.completed + Finished(s.active, next), s.starts, next,
          s.activeArea + activity, s.memoryArea + memory, s.blockedArea + blocked)
  }

  /** Weighted work done so far. */
  function Done(w: Run -> real, workload: seq<Run>, s: State): real {
    Work(w, workload) - Work(w, s.pending) - Remaining(w, s.active, s.now)
  }

  /** The conservation laws of the loop: no run is lost or duplicated, and every integral is
      a quantity that can be read off the workload. */
  ghost predicate Conserved(workload: seq<Run>, s: State) {
    && s.pending == Waiting(workload, s.starts.Keys)
    && multiset(s.pending) + (multiset(Residents(s.active)) + multiset(s.completed)) == multiset(workload)
    && s.activeArea == s.now
    && s.memoryArea == Done(PeakOf, workload, s)
    && s.blockedArea == Queued(workload, s.starts, s.now)
  }

  lemma AdmissionConserves(workload: seq<Run>, s: State, keys: set<string>)
    requires Conserved(workload, s)
    ensures Conserved(workload, Admitted(s, keys))
  {
    AdmissionWork(PeakOf, workload, s, keys);
    AdmissionPartition(s, keys);
    AdmissionQueue(workload, s, keys);
  }

  lemma AdmissionWork(w: Run -> real, workload: seq<Run>, s: State, keys: set<string>)
    ensures Done(w, workload, Admitted(s, keys)) == Done(w, workload, s)
  {
    AdmissionKeepsWork(w, s.pending, keys, s.active, s.now);
  }

  lemma AdmissionPartition(s: State, keys: set<string>)
    ensures var t := Admitted(s, keys);
      multiset(t.pending) + (multiset(Residents(t.active)) + multiset(t.completed)) ==
      multiset(s.pending) + (multiset(Residents(s.active)) + multiset(s.completed))
  {
    var chosen := Chosen(s.pending, keys);
    ChosenOrWaiting(s.pending, keys);
    ResidentsConcat(s.active, Started(chosen, s.now));
    StartedResidents(chosen, s.now);
  }

  lemma AdmissionQueue(workload: seq<Run>, s: State, keys: set<string>)
    requires s.pending == Waiting(workload, s.starts.Keys)
    ensures var t := Admitted(s, keys);
      t.pending == Waiting(workload, t.starts.Keys) &&
      Queued(workload, t.starts, t.now) == Queued(workload, s.starts, s.now)
  {
    var t := Admitted(s, keys);
    var chosen := Chosen(s.pending, keys);
    StampedKeys(s.starts, chosen, s.now);
    ChosenMembers(s.pending, keys);
    WaitingMembers(workload, s.starts.Keys);
    WaitingTwice(workload, s.starts.Keys, keys, t.starts.Keys);
    StartingQueuesNothing(workload, s.starts, t.starts, s.now);
  }

  /** The next completion event, and what the three integrals gain until then. */
  ghost predicate EventFrom(s: State, next: real, elapsed: real, memory: real, blocked: real) {
    && s.active != [] && next == Earliest(s.active) && elapsed == next - s.now
    && memory == Times(elapsed, Load(PeakOf, s.active))
    && blocked == Times(elapsed, |s.pending| as real)
  }

  /** One event conserves everything when the integrals grow by elapsed time, by elapsed time
      times resident memory, and by elapsed time times queue length. */
  lemma AdvanceConserves(workload: seq<Run>, s: State, next: real, elapsed: real, memory: real, blocked: real)
    requires Conserved(workload, s)
    requires EventFrom(s, next, elapsed, memory, blocked)
    ensures Conserved(workload, Advanced(s, next, elapsed, memory, blocked))
  {
    AdvanceWork(PeakOf, workload, s, next, elapsed, memory);
    AdvanceQueue(workload, s.starts, s.now, next, elapsed, blocked);
    AdvanceAccounts(workload, s, next, elapsed, memory, blocked);
  }

  lemma AdvanceAccounts(workload: seq<Run>, s: State, next: real, elapsed: real, memory: real, blocked: real)
    requires Conserved(workload, s) && elapsed == next - s.now
    requires DoneAt(PeakOf, workload, s, next) == Done(PeakOf, workload, s) + memory
    requires Queued(workload, s.starts, next) == Queued(workload, s.starts, s.now) + blocked
    ensures Conserved(workload, Advanced(s, next, elapsed, memory, blocked))
  {
    hide Work, Remaining, Queued, Waiting, Finished, Unfinished, Residents;
    FinishedOrNot(s.active, next);
    SamePartition(multiset(s.pending), multiset(Residents(s.active)), multiset(s.completed),
      multiset(Finished(s.active, next)), multiset(Residents(Unfinished(s.active, next))));
    assert multiset(s.completed + Finished(s.active, next)) ==
        multiset(s.completed) + multiset(Finished(s.active, next));
  }

  lemma SamePartition(pending: multiset<Run>, active: multiset<Run>, completed: multiset<Run>, gone: multiset<Run>,
      left: multiset<Run>)
    requires gone + left == active
    ensures pending + (left + (completed + gone)) == pending + (active + completed)
  {}

  function DoneAt(w: Run -> real, workload: seq<Run>, s: State, next: real): real {
    Work(w, workload) - Work(w, s.pending) - Remaining(w, Unfinished(s.active, next), next)
  }

  /** Between two events the device does work at the rate of its load. */
  lemma AdvanceWork(w: Run -> real, workload: seq<Run>, s: State, next: real, elapsed: real, amount: real)
    requires s.active != [] && next == Earliest(s.active) && next == s.now + elapsed
    requires amount == Times(elapsed, Load(w, s.active))
    ensures DoneAt(w, workload, s, next) == Done(w, workload, s) + amount
  {
    ClockSpendsWork(w, s.active, s.now, next, elapsed);
    RetirementKeepsWork(w, s.active, next);
  }

  lemma AdvanceQueue(workload: seq<Run>, starts: map<string, real>, now: real, next: real, elapsed: real, amount: real)
    requires next == now + elapsed && amount == Times(elapsed, |Waiting(workload, starts.Keys)| as real)
    ensures Queued(workload, starts, next) == Queued(workload, starts, now) + amount
  {
    ClockQueues(workload, starts, now, elapsed);
    BacklogOfQueue(workload, starts.Keys, elapsed);
    RepeatedIsProduct(elapsed, |Waiting(workload, starts.Keys)|);
  }

  /** Every event completes at least one run, so the loop terminates. */
  lemma AdvanceShrinks(active: seq<Active>, next: real)
    requires active != [] && next == Earliest(active)
    ensures |Unfinished(active, next)| < |active|
    ensures forall a :: a in Unfinished(active, next) <==> a in active && a.finish > next
  {
    UnfinishedMembers(active, next);
    var gone :| gone in active && gone.finish == next;
    SomeoneLeaves(active, gone, next);
  }

  // ----- rates, for the makespan bounds -----

  /** Byte counts and durations are not negative. */
  ghost predicate Plausible(workload: seq<Run>) {
    forall r :: r in workload ==> r.duration >= 0.0 && r.peakBytes >= 0
  }

  ghost predicate DistinctKeys(runs: seq<Run>) {
    forall i, j :: 0 <= i < j < |runs| ==> runs[i].key != runs[j].key
  }

  /** A planner that never leaves an empty device idle while runs of the workload are queued,
      whichever of them have started. */
  ghost predicate NeverStalls(workload: seq<Run>, place: Planner) {
    forall step, started, now ::
      var pending := Waiting(workload, started);
      pending != [] ==> Chosen(pending, place(step, pending, [], now)) != []
  }

  /** A planner that admits at most the free slots, and at most the free memory. */
  ghost predicate RespectsDevice(place: Planner) {
    forall step, pending, active, now :: Fits(active) ==>
        Fits(active + Started(Chosen(pending, place(step, pending, active, now)), now))
  }

  predicate Fits(active: seq<Active>) {
    |active| <= SLOTS && Load(PeakOf, active) <= TOTAL
  }

  /** One run at a time, and only if it fits. */
  function FirstThatFits(): Planner {
    (step: nat, pending: seq<Run>, active: seq<Active>, now: real) =>
      if pending != [] && active == [] && Fits(Started(Chosen(pending, {pending[0].key}), now))
      then {pending[0].key} else {}
  }

  /** Some planner both keeps within the device and never stalls exactly when every run of the
      workload fits the device alone. */
  lemma FittingPlannerExists(workload: seq<Run>)
    requires DistinctKeys(workload)
    ensures (exists place :: NeverStalls(workload, place) && RespectsDevice(place))
        <==> forall r :: r in workload ==> PeakOf(r) <= TOTAL
  {
    if forall r :: r in workload ==> PeakOf(r) <= TOTAL {
      FirstThatFitsServes(workload);
      assert NeverStalls(workload, FirstThatFits()) && RespectsDevice(FirstThatFits());
    }
    if place :| NeverStalls(workload, place) && RespectsDevice(place) {
      forall r | r in workload ensures PeakOf(r) <= TOTAL {
        LoneRunFits(workload, place, r);
      }
    }
  }

  lemma FirstThatFitsServes(workload: seq<Run>)
    requires DistinctKeys(workload) && forall r :: r in workload ==> PeakOf(r) <= TOTAL
    ensures NeverStalls(workload, FirstThatFits()) && RespectsDevice(FirstThatFits())
  {
    forall step: nat, started: set<string>, now: real | Waiting(workload, started) != []
      ensures var pending := Waiting(workload, started); Chosen(pending, FirstThatFits()(step, pending, [], now)) != []
    {
      var pending := Waiting(workload, started);
      WaitingDistinct(workload, started);
      WaitingMembers(workload, started);
      HeadAlone(pending);
      assert pending[0] in pending;
      StartedOne(pending[0], now);
      FitsAlone(Started([pending[0]], now));
    }
    forall step: nat, pending: seq<Run>, active: seq<Active>, now: real | Fits(active)
      ensures Fits(active + Started(Chosen(pending, FirstThatFits()(step, pending, active, now)), now))
    {
      FirstThatFitsKeepsWithin(step, pending, active, now);
    }
  }

  lemma FirstThatFitsKeepsWithin(step: nat, pending: seq<Run>, active: seq<Active>, now: real)
    requires Fits(active)
    ensures Fits(active + Started(Chosen(pending, FirstThatFits()(step, pending, active, now)), now))
  {
    NothingChosen(pending);
    assert active + [] == active;
    if active == [] {
      assert forall started: seq<Active> :: active + started == started;
    }
  }

  lemma {:induction false} NothingChosen(pending: seq<Run>)
    ensures Chosen(pending, {}) == []
  {
    if pending != [] {
      NothingChosen(pending[..|pending|-1]);
    }
  }

  lemma StartedOne(run: Run, now: real)
    ensures Started([run], now) == [Active(run, now + run.duration)]
    ensures Load(PeakOf, [] + Started([run], now)) == PeakOf(run)
  {
    assert [run][..0] == [];
    assert Started([run][..0], now) == [];
    assert Load(PeakOf, [Active(run, now + run.duration)][..0]) == 0.0;
  }

  lemma LoneRunFits(workload: seq<Run>, place: Planner, r: Run)
    requires DistinctKeys(workload) && NeverStalls(workload, place) && RespectsDevice(place) && r in workload
    ensures PeakOf(r) <= TOTAL
  {
    var started := OnlyWaiting(workload, r);
    var keys := place(0, Waiting(workload, started), [], 0.0);
    hide Waiting, Load;
    assert Chosen([r], keys) != [];
    assert Chosen([r][..0], keys) == [];
    StartedOne(r, 0.0);
    assert Fits([] + Started(Chosen([r], keys), 0.0));
  }

  /** Once every other run has started, the queue holds this one alone. */
  lemma OnlyWaiting(workload: seq<Run>, r: Run) returns (started: set<string>)
    requires DistinctKeys(workload) && r in workload
    ensures Waiting(workload, started) == [r]
  {
    started := (set q | q in workload :: q.key) - {r.key};
    var pending := Waiting(workload, started);
    WaitingMembers(workload, started);
    WaitingDistinct(workload, started);
    hide Waiting;
    forall q | q in pending ensures q.key == r.key {}
    assert r in pending;
    assert |pending| > 1 ==> pending[0].key == pending[1].key;
  }

  lemma {:induction false} UnitLoad(active: seq<Active>)
    ensures Load(Unit, active) == |active| as real
  {
    if active != [] {
      UnitLoad(active[..|active|-1]);
    }
  }

  lemma {:induction false} LoadConcat(w: Run -> real, xs: seq<Active>, ys: seq<Active>)
    ensures Load(w, xs + ys) == Load(w, xs) + Load(w, ys)
  {
    if ys == [] {
      assert xs + ys == xs;
    } else {
      var n := |ys| - 1;
      LoadConcat(w, xs, ys[..n]);
      assert (xs + ys)[..|xs + ys| - 1] == xs + ys[..n];
    }
  }

  lemma {:induction false} RetirementFreesMemory(active: seq<Active>, now: real)
    requires forall a :: a in active ==> a.run.peakBytes >= 0
    ensures 0.0 <= Load(PeakOf, Unfinished(active, now)) <= Load(PeakOf, active)
  {
    if active != [] {
      var n := |active| - 1;
      assert active[n] in active;
      RetirementFreesMemory(active[..n], now);
      LoadConcat(PeakOf, Unfinished(active[..n], now), [active[n]]);
    }
  }

  /** What the policy admits at one event. */
  function Selected(policy: Policy, step: nat, pending: seq<Run>, active: seq<Active>, now: real): set<string> {
    match policy
    case FixedOne => if pending != [] && active == [] then {pending[0].key} else {}
    case Adaptive(place) => place(step, pending, active, now)
  }

  /** Admissions fit the device: by the planner's contract, or because every run fits alone. */
  ghost predicate Disciplined(policy: Policy, workload: seq<Run>) {
    match policy
    case FixedOne => DistinctKeys(workload) && forall r :: r in workload ==> PeakOf(r) <= TOTAL
    case Adaptive(place) => RespectsDevice(place)
  }

  /** Nothing finishes before its own duration has passed, and the clock never runs back. */
  ghost predicate Timely(pending: seq<Run>, active: seq<Active>, completed: seq<Run>, now: real) {
    && 0.0 <= now
    && (forall r :: r in pending ==> r.duration >= 0.0 && r.peakBytes >= 0)
    && (forall a :: a in active ==> a.run.duration <= a.finish && now <= a.finish && a.run.peakBytes >= 0)
    && (forall r :: r in completed ==> r.duration <= now)
  }

  lemma TimelyAdmission(s: State, keys: set<string>)
    requires Timely(s.pending, s.active, s.completed, s.now)
    ensures var t := Admitted(s, keys); Timely(t.pending, t.active, t.completed, t.now)
  {
    ChosenMembers(s.pending, keys);
    WaitingMembers(s.pending, keys);
    StartedMembers(Chosen(s.pending, keys), s.now);
  }

  lemma TimelyAdvance(pending: seq<Run>, active: seq<Active>, completed: seq<Run>, now: real, next: real)
    requires Timely(pending, active, completed, now)
    requires active != [] && next == Earliest(active)
    ensures now <= next
    ensures Timely(pending, Unfinished(active, next), completed + Finished(active, next), next)
  {
    UnfinishedMembers(active, next);
    FinishedMembers(active, next);
  }

  /** One run at a time: the queue has distinct keys, so its head is admitted alone. */
  lemma {:induction false} HeadAlone(pending: seq<Run>)
    requires pending != [] && DistinctKeys(pending)
    ensures Chosen(pending, {pending[0].key}) == [pending[0]]
  {
    if |pending| == 1 {
      assert Chosen(pending[..0], {pending[0].key}) == [];
    } else {
      var n := |pending| - 1;
      HeadAlone(pending[..n]);
    }
  }

  lemma {:induction false} WaitingDistinct(runs: seq<Run>, keys: set<string>)
    requires DistinctKeys(runs)
    ensures DistinctKeys(Waiting(runs, keys))
  {
    if runs != [] {
      var n := |runs| - 1;
      WaitingDistinct(runs[..n], keys);
      WaitingMembers(runs[..n], keys);
    }
  }

  lemma FixedAdmission(pending: seq<Run>, active: seq<Active>, now: real, keys: set<string>)
    requires DistinctKeys(pending) && |active| <= 1
    requires keys == if pending != [] && active == [] then {pending[0].key} else {}
    ensures var t := active + Started(Chosen(pending, keys), now);
      |t| <= 1 && (pending != [] || active != [] ==> t != []) &&
      (t == active || (active == [] && |t| == 1 && t[0].run in pending))
  {
    StartedMembers(Chosen(pending, keys), now);
    if pending != [] && active == [] {
      HeadAlone(pending);
    } else {
      ChosenMembers(pending, keys);
      assert Chosen(pending, keys) == [];
    }
  }

  lemma FitsAlone(active: seq<Active>)
    requires |active| <= 1
    requires forall a :: a in active ==> PeakOf(a.run) <= TOTAL
    ensures Fits(active)
  {
    if active != [] {
      assert active == [active[0]];
    }
  }

  // ----- the loop of the benchmark -----

  /** Admission: the selected runs leave the queue one by one and start now. */
  method Admit(queue: seq<Run>, resident: seq<Active>, begun: map<string, real>, selected: set<string>, now: real)
    returns (pending: seq<Run>, active: seq<Active>, starts: map<string, real>)
    ensures pending == Waiting(queue, selected)
    ensures active == resident + Started(Chosen(queue, selected), now)
    ensures starts == Stamped(begun, Chosen(queue, selected), now)
  {
    hide Chosen, Waiting, Started, Stamped, RemoveFirst;
    pending, active, starts := queue, resident, begun;
    var i := 0;
    AdmitNothing(queue, resident, selected, now, begun);
    while i < |queue|
      invariant 0 <= i <= |queue|
      invariant pending == Waiting(queue[..i], selected) + queue[i..]
      invariant active == resident + Started(Chosen(queue[..i], selected), now)
      invariant starts == Stamped(begun, Chosen(queue[..i], selected), now)
    {
      var run := queue[i];
      Regroup(resident, Started(Chosen(queue[..i], selected), now), Active(run, now + run.duration));
      AdmitStep(queue, i, selected, now, begun);
      if run.key in selected {
        pending := RemoveFirst(pending, run);
        starts := starts[run.key := now];
        active := active + [Active(run, now + run.duration)];
      }
      i := i + 1;
    }
  }

  lemma AdmitStep(queue: seq<Run>, i: nat, selected: set<string>, now: real, begun: map<string, real>)
    requires i < |queue|
    ensures var run, done := queue[i], queue[..i];
      if run.key in selected
      then RemoveFirst(Waiting(done, selected) + queue[i..], run) == Waiting(queue[..i+1], selected) + queue[i+1..]
           && Started(Chosen(queue[..i+1], selected), now) ==
               Started(Chosen(done, selected), now) + [Active(run, now + run.duration)]
           && Stamped(begun, Chosen(queue[..i+1], selected), now) ==
               Stamped(begun, Chosen(done, selected), now)[run.key := now]
      else Waiting(done, selected) + queue[i..] == Waiting(queue[..i+1], selected) + queue[i+1..]
           && Chosen(queue[..i+1], selected) == Chosen(done, selected)
  {
    hide Chosen, Waiting, Started, Stamped, RemoveFirst;
    var run, done := queue[i], queue[..i];
    PrefixGrows(queue, i);
    WaitingAppend(done, run, selected);
    SuffixShrinks(Waiting(done, selected), queue, i);
    if run.key in selected {
      WaitingMembers(done, selected);
      RemoveFirstAfter(Waiting(done, selected), run, queue[i+1..]);
      StartedAppend(Chosen(done, selected), run, begun, now);
    }
  }

  lemma AdmitNothing(queue: seq<Run>, resident: seq<Active>, selected: set<string>, now: real, begun: map<string, real>)
    ensures Waiting(queue[..0], selected) + queue[0..] == queue
    ensures resident + Started(Chosen(queue[..0], selected), now) == resident
    ensures Stamped(begun, Chosen(queue[..0], selected), now) == begun
    ensures queue[..|queue|] == queue && Waiting(queue, selected) + queue[|queue|..] == Waiting(queue, selected)
  {}

  lemma Regroup<T>(xs: seq<T>, ys: seq<T>, x: T)
    ensures xs + (ys + [x]) == (xs + ys) + [x]
  {}

  lemma PrefixGrows<T>(xs: seq<T>, i: nat)
    requires i < |xs|
    ensures xs[..i+1] == xs[..i] + [xs[i]]
  {}

  lemma SuffixShrinks<T>(before: seq<T>, xs: seq<T>, i: nat)
    requires i < |xs|
    ensures before + xs[i..] == before + [xs[i]] + xs[i+1..]
  {}

  lemma StartedAppend(runs: seq<Run>, run: Run, begun: map<string, real>, now: real)
    ensures Started(runs + [run], now) == Started(runs, now) + [Active(run, now + run.duration)]
    ensures Stamped(begun, runs + [run], now) == Stamped(begun, runs, now)[run.key := now]
  {
    DropAppended(runs, run);
  }

  /** Completion: resident runs whose finish time is reached move to the completed list. */
  method Retire(resident: seq<Active>, finished: seq<Run>, now: real) returns (active: seq<Active>, completed: seq<Run>)
    ensures active == Unfinished(resident, now)
    ensures completed == finished + Finished(resident, now)
  {
    active, completed := [], finished;
    var i := 0;
    while i < |resident|
      invariant 0 <= i <= |resident|
      invariant active == Unfinished(resident[..i], now)
      invariant completed == finished + Finished(resident[..i], now)
    {
      assert resident[..i+1] == resident[..i] + [resident[i]];
      DropAppended(resident[..i], resident[i]);
      if resident[i].finish <= now {
        completed := completed + [resident[i].run];
      } else {
        active := active + [resident[i]];
      }
      i := i + 1;
    }
    assert resident[..i] == resident;
  }

  // ----- what a schedule of a policy is -----

  /** What the loop sees when an event begins. */
  datatype Event = Event(pending: seq<Run>, active: seq<Active>, now: real)

  /** A queued run starts: the planner names it, or it heads the queue of an idle device. */
  ghost predicate Starts(policy: Policy, e: nat, at: Event, r: Run) {
    match policy
    case FixedOne => at.active == [] && at.pending != [] && r.key == at.pending[0].key
    case Adaptive(place) => r.key in place(e, at.pending, at.active, at.now)
  }

  ghost function Starting(policy: Policy, e: nat, at: Event): Run -> bool { (r: Run) => Starts(policy, e, at, r) }

  ghost function Staying(policy: Policy, e: nat, at: Event): Run -> bool { (r: Run) => !Starts(policy, e, at, r) }

  ghost function From(now: real): Run -> Active { (r: Run) => Active(r, now + r.duration) }

  ghost function Beyond(now: real): Active -> bool { (a: Active) => now < a.finish }

  /** Everything on the device once the event's starts are done. */
  ghost function Loaded(policy: Policy, e: nat, at: Event): seq<Active> {
    at.active + Map(From(at.now), Filter(Starting(policy, e, at), at.pending))
  }

  /** One event after another: starts leave the queue, the clock moves to the first finish, and what
      finishes then leaves the device. */
  ghost predicate Follows(policy: Policy, e: nat, at: Event, next: Event) {
    var loaded := Loaded(policy, e, at);
    && next.pending == Filter(Staying(policy, e, at), at.pending)
    && (exists a :: a in loaded && a.finish == next.now) && (forall a :: a in loaded ==> next.now <= a.finish)
    && next.active == Filter(Beyond(next.now), loaded)
  }

  ghost predicate Schedule(workload: seq<Run>, policy: Policy, events: seq<Event>) {
    && events != [] && events[0] == Event(workload, [], 0.0)
    && forall e :: 0 <= e < |events| - 1 ==> Follows(policy, e, events[e], events[e+1])
  }

  /** The recorded start of a run is the clock of the event that starts it. */
  ghost predicate Clocks(policy: Policy, events: seq<Event>, starts: map<string, real>) {
    forall e, r :: 0 <= e < |events| - 1 && r in events[e].pending && Starts(policy, e, events[e], r) ==>
        r.key in starts && starts[r.key] == events[e].now
  }

  /** The loop ended with nothing left, or at an event that neither holds nor starts anything. */
  ghost predicate Ends(policy: Policy, events: seq<Event>, r: Result<Trace>)
    requires events != []
  {
    var e := |events| - 1;
    match r
    case Ok(t) => events[e] == Event([], [], t.now) && Clocks(policy, events, t.starts)
    case NoProgress =>
      && events[e].pending != [] && events[e].active == []
      && forall q :: q in events[e].pending ==> !Starts(policy, e, events[e], q)
  }

  /** The events so far, with the loop at the last of them. */
  ghost predicate Recorded(workload: seq<Run>, policy: Policy, events: seq<Event>, s: State) {
    && Schedule(workload, policy, events)
    && events[|events| - 1] == Event(s.pending, s.active, s.now)
    && Clocks(policy, events, s.starts)
  }

  lemma {:induction false} SelectionIsFilter(policy: Policy, e: nat, at: Event, runs: seq<Run>)
    ensures var keys := Selected(policy, e, at.pending, at.active, at.now);
      && Chosen(runs, keys) == Filter(Starting(policy, e, at), runs)
      && Waiting(runs, keys) == Filter(Staying(policy, e, at), runs)
      && forall r :: Starts(policy, e, at, r) <==> r.key in keys
  {
    if runs != [] {
      SelectionIsFilter(policy, e, at, runs[..|runs|-1]);
    }
  }

  lemma {:induction false} StartedIsMap(runs: seq<Run>, now: real)
    ensures Started(runs, now) == Map(From(now), runs)
  {
    if runs != [] {
      StartedIsMap(runs[..|runs|-1], now);
      hide Map;
      assert Map(From(now), runs) == Map(From(now), runs[..|runs|-1]) + [From(now)(runs[|runs|-1])];
    }
  }

  lemma {:induction false} UnfinishedIsFilter(active: seq<Active>, now: real)
    ensures Unfinished(active, now) == Filter(Beyond(now), active)
  {
    if active != [] {
      UnfinishedIsFilter(active[..|active|-1], now);
    }
  }

  lemma RecordNext(workload: seq<Run>, policy: Policy, events: seq<Event>, s: State, u: State)
    requires Recorded(workload, policy, events, s) && LoopInvariant(workload, policy, s)
    requires var t := Admitted(s, Selected(policy, |events| - 1, s.pending, s.active, s.now));
      && t.active != [] && u.now == Earliest(t.active) && u.pending == t.pending && u.starts == t.starts
      && u.active == Unfinished(t.active, u.now)
    ensures Recorded(workload, policy, events + [Event(u.pending, u.active, u.now)], u)
  {
    var next := Event(u.pending, u.active, u.now);
    EventFollows(policy, |events| - 1, s, u);
    ClocksGrow(workload, policy, events, s, next);
    hide Follows, Conserved, Admitted, Earliest, Unfinished, Clocks, Schedule, Selected;
    ScheduleGrows(workload, policy, events, next);
  }

  lemma ScheduleGrows(workload: seq<Run>, policy: Policy, events: seq<Event>, next: Event)
    requires Schedule(workload, policy, events) && Follows(policy, |events| - 1, events[|events| - 1], next)
    ensures Schedule(workload, policy, events + [next])
  {
    hide Follows;
    var more := events + [next];
    forall i | 0 <= i < |more| - 1 ensures Follows(policy, i, more[i], more[i+1]) {
      assert i < |events| - 1 ==> Follows(policy, i, events[i], events[i+1]);
    }
  }

  lemma RecordStarts(workload: seq<Run>, policy: Policy)
    ensures Recorded(workload, policy, [Event(workload, [], 0.0)], State(workload, [], [], map[], 0.0, 0.0, 0.0, 0.0))
  {}

  lemma RecordEnds(workload: seq<Run>, policy: Policy, events: seq<Event>, s: State, t: Trace)
    requires Recorded(workload, policy, events, s) && s.pending == [] && s.active == []
    requires t.now == s.now && t.starts == s.starts
    ensures Schedule(workload, policy, events) && Ends(policy, events, Ok(t))
  {
    hide Clocks;
  }

  lemma EventFollows(policy: Policy, e: nat, s: State, u: State)
    requires var t := Admitted(s, Selected(policy, e, s.pending, s.active, s.now));
      && t.active != [] && u.now == Earliest(t.active) && u.pending == t.pending
      && u.active == Unfinished(t.active, u.now)
    ensures Follows(policy, e, Event(s.pending, s.active, s.now), Event(u.pending, u.active, u.now))
  {
    var at := Event(s.pending, s.active, s.now);
    SelectionIsFilter(policy, e, at, s.pending);
    var chosen := Chosen(s.pending, Selected(policy, e, s.pending, s.active, s.now));
    StartedIsMap(chosen, s.now);
    UnfinishedIsFilter(Loaded(policy, e, at), u.now);
    hide Chosen, Waiting, Started, Unfinished, Filter, Map, Selected;
  }

  lemma ClocksGrow(workload: seq<Run>, policy: Policy, events: seq<Event>, s: State, next: Event)
    requires Recorded(workload, policy, events, s) && Conserved(workload, s)
    ensures var keys := Selected(policy, |events| - 1, s.pending, s.active, s.now);
      Clocks(policy, events + [next], Admitted(s, keys).starts)
  {
    var e, at := |events| - 1, Event(s.pending, s.active, s.now);
    var keys := Selected(policy, e, s.pending, s.active, s.now);
    var chosen := Chosen(s.pending, keys);
    SelectionIsFilter(policy, e, at, s.pending);
    ChosenMembers(s.pending, keys);
    WaitingMembers(workload, s.starts.Keys);
    StampedKeys(s.starts, chosen, s.now);
    var more := events + [next];
    hide Chosen, Waiting, Selected, Stamped, Filter, Starts, Schedule;
    forall i, r | 0 <= i < |more| - 1 && r in more[i].pending && Starts(policy, i, more[i], r)
      ensures r.key in Stamped(s.starts, chosen, s.now) && Stamped(s.starts, chosen, s.now)[r.key] == more[i].now
    {
      if i < e {
        assert more[i] == events[i];
        assert r.key in s.starts;
      }
    }
  }

  /** When nothing is selected for an idle device, nothing starts. */
  lemma NothingStarts(workload: seq<Run>, policy: Policy, events: seq<Event>, s: State)
    requires Recorded(workload, policy, events, s) && (s.pending != [] || s.active != [])
    requires Admitted(s, Selected(policy, |events| - 1, s.pending, s.active, s.now)).active == []
    ensures Schedule(workload, policy, events) && Ends(policy, events, NoProgress)
  {
    var e, at := |events| - 1, Event(s.pending, s.active, s.now);
    var chosen := Chosen(s.pending, Selected(policy, e, s.pending, s.active, s.now));
    SelectionIsFilter(policy, e, at, s.pending);
    ChosenMembers(s.pending, Selected(policy, e, s.pending, s.active, s.now));
    StartedMembers(chosen, s.now);
    hide Selected, Chosen, Waiting, Stamped, Starts, Started, Filter;
    assert chosen == [];
    forall q | q in s.pending ensures !Starts(policy, e, at, q) {}
  }

  // ----- the invariant of the loop -----

  ghost predicate LoopInvariant(workload: seq<Run>, policy: Policy, s: State) {
    && Conserved(workload, s)
    && (Plausible(workload) ==> Paced(workload, policy, s) && Clocked(s))
    && (policy.FixedOne? && DistinctKeys(workload) ==> |s.active| <= 1 && Done(Unit, workload, s) == s.now)
  }

  /** Every start time lies in the past, and every run leaves its duration after its start. */
  ghost predicate Clocked(s: State) {
    && (forall k :: k in s.starts ==> 0.0 <= s.starts[k] <= s.now)
    && (forall a :: a in s.active ==> a.run.key in s.starts && a.finish == s.starts[a.run.key] + a.run.duration)
    && (forall r :: r in s.completed ==> r.key in s.starts && s.starts[r.key] + r.duration <= s.now)
  }

  lemma AdmissionClocked(workload: seq<Run>, s: State, keys: set<string>)
    requires s.pending == Waiting(workload, s.starts.Keys) && Clocked(s) && s.now >= 0.0
    ensures Clocked(Admitted(s, keys))
  {
    var chosen := Chosen(s.pending, keys);
    WaitingMembers(workload, s.starts.Keys);
    ChosenMembers(s.pending, keys);
    StampedKeys(s.starts, chosen, s.now);
    StartedMembers(chosen, s.now);
    hide Chosen, Waiting, Started, Stamped;
  }

  lemma AdvanceClocked(s: State, next: real, activity: real, memory: real, blocked: real)
    requires Clocked(s) && s.now <= next
    ensures Clocked(Advanced(s, next, activity, memory, blocked))
  {
    UnfinishedMembers(s.active, next);
    FinishedMembers(s.active, next);
    hide Finished, Unfinished;
  }

  /** At least one and at most four seconds of work per second, within the device memory. */
  ghost predicate Paced(workload: seq<Run>, policy: Policy, s: State) {
    && Timely(s.pending, s.active, s.completed, s.now)
    && s.now <= Done(Unit, workload, s)
    && (Disciplined(policy, workload) ==>
          Fits(s.active) && Done(Unit, workload, s) <= SLOTS as real * s.now && s.memoryArea <= TOTAL * s.now)
  }

  lemma Initially(workload: seq<Run>, policy: Policy)
    ensures LoopInvariant(workload, policy, State(workload, [], [], map[], 0.0, 0.0, 0.0, 0.0))
  {
    AllWaiting(workload);
    var none: map<string, real> := map[];
    assert none.Keys == {};
  }

  lemma {:induction false} AllWaiting(workload: seq<Run>)
    ensures Waiting(workload, {}) == workload
    ensures Queued(workload, map[], 0.0) == 0.0
  {
    if workload != [] {
      AllWaiting(workload[..|workload|-1]);
      SplitLast(workload);
    }
  }

  lemma AdmissionKeepsInvariant(workload: seq<Run>, policy: Policy, s: State, step: nat, keys: set<string>)
    requires LoopInvariant(workload, policy, s)
    requires keys == Selected(policy, step, s.pending, s.active, s.now)
    ensures LoopInvariant(workload, policy, Admitted(s, keys))
  {
    AdmissionConserves(workload, s, keys);
    if Plausible(workload) {
      AdmissionKeepsPace(workload, policy, s, step, keys);
      AdmissionClocked(workload, s, keys);
    }
    if policy.FixedOne? && DistinctKeys(workload) {
      FixedEvent(workload, s, keys);
    }
  }

  lemma AdvanceKeepsInvariant(workload: seq<Run>, policy: Policy, t: State, next: real, elapsed: real, memory: real,
      blocked: real)
    requires LoopInvariant(workload, policy, t)
    requires EventFrom(t, next, elapsed, memory, blocked)
    ensures LoopInvariant(workload, policy, Advanced(t, next, elapsed, memory, blocked))
  {
    AdvanceConserves(workload, t, next, elapsed, memory, blocked);
    if Plausible(workload) {
      EventKeepsPace(workload, policy, t, next, elapsed, memory, blocked);
      TimelyAdvance(t.pending, t.active, t.completed, t.now, next);
      AdvanceClocked(t, next, elapsed, memory, blocked);
    }
    if policy.FixedOne? && DistinctKeys(workload) {
      OneAtATime(workload, t, next, elapsed, memory, blocked);
    }
  }

  lemma AdmissionKeepsPace(workload: seq<Run>, policy: Policy, s: State, step: nat, keys: set<string>)
    requires Conserved(workload, s) && Paced(workload, policy, s)
    requires policy.FixedOne? && DistinctKeys(workload) ==> |s.active| <= 1
    requires keys == Selected(policy, step, s.pending, s.active, s.now)
    ensures Paced(workload, policy, Admitted(s, keys))
  {
    TimelyAdmission(s, keys);
    AdmissionWork(Unit, workload, s, keys);
    if Disciplined(policy, workload) {
      AdmissionFits(workload, policy, s, step, keys);
    }
  }

  lemma FixedEvent(workload: seq<Run>, s: State, keys: set<string>)
    requires Conserved(workload, s) && DistinctKeys(workload) && |s.active| <= 1
    requires keys == if s.pending != [] && s.active == [] then {s.pending[0].key} else {}
    ensures |Admitted(s, keys).active| <= 1
    ensures Done(Unit, workload, Admitted(s, keys)) == Done(Unit, workload, s)
  {
    WaitingDistinct(workload, s.starts.Keys);
    FixedAdmission(s.pending, s.active, s.now, keys);
    AdmissionWork(Unit, workload, s, keys);
  }

  lemma AdmissionFits(workload: seq<Run>, policy: Policy, s: State, step: nat, keys: set<string>)
    requires Conserved(workload, s) && Disciplined(policy, workload) && Fits(s.active)
    requires policy.FixedOne? ==> |s.active| <= 1
    requires keys == Selected(policy, step, s.pending, s.active, s.now)
    ensures Fits(Admitted(s, keys).active)
  {
    if policy.FixedOne? {
      WaitingDistinct(workload, s.starts.Keys);
      FixedAdmission(s.pending, s.active, s.now, keys);
      WaitingMembers(workload, s.starts.Keys);
      ResidentsOfWorkload(workload, s);
      FitsAlone(Admitted(s, keys).active);
    }
  }

  lemma ResidentsOfWorkload(workload: seq<Run>, s: State)
    requires Conserved(workload, s)
    ensures forall a :: a in s.active ==> a.run in workload
  {
    ResidentsMembers(s.active);
    assert forall r :: r in Residents(s.active) ==> r in multiset(workload);
  }

  lemma {:induction false} ResidentsMembers(active: seq<Active>)
    ensures forall a :: a in active ==> a.run in Residents(active)
  {
    if active != [] {
      ResidentsMembers(active[..|active|-1]);
      SplitLast(active);
    }
  }

  lemma EventKeepsPace(workload: seq<Run>, policy: Policy, t: State, next: real, elapsed: real, memory: real,
      blocked: real)
    requires Paced(workload, policy, t)
    requires EventFrom(t, next, elapsed, memory, blocked)
    ensures Paced(workload, policy, Advanced(t, next, elapsed, memory, blocked))
  {
    PaceParts(workload, t, next, elapsed, memory, blocked);
    TimelyAdvance(t.pending, t.active, t.completed, t.now, next);
    PaceAssembled(workload, policy, t, next, elapsed, memory, blocked);
  }

  lemma PaceParts(workload: seq<Run>, t: State, next: real, elapsed: real, memory: real, blocked: real)
    requires Timely(t.pending, t.active, t.completed, t.now)
    requires EventFrom(t, next, elapsed, memory, blocked)
    ensures t.now <= Done(Unit, workload, t) ==> next <= DoneAt(Unit, workload, t, next)
    ensures Fits(t.active) && Done(Unit, workload, t) <= SLOTS as real * t.now
        ==> DoneAt(Unit, workload, t, next) <= SLOTS as real * next
    ensures Fits(t.active) && t.memoryArea <= TOTAL * t.now
        ==> Fits(Unfinished(t.active, next)) && t.memoryArea + memory <= TOTAL * next
  {
    TimelyAdvance(t.pending, t.active, t.completed, t.now, next);
    WorkPace(workload, t, next, elapsed);
    MemoryPace(t, next, elapsed, memory);
  }

  lemma PaceAssembled(workload: seq<Run>, policy: Policy, t: State, next: real, elapsed: real, memory: real,
      blocked: real)
    requires Paced(workload, policy, t)
    requires Timely(t.pending, Unfinished(t.active, next), t.completed + Finished(t.active, next), next)
    requires t.now <= Done(Unit, workload, t) ==> next <= DoneAt(Unit, workload, t, next)
    requires Fits(t.active) && Done(Unit, workload, t) <= SLOTS as real * t.now
        ==> DoneAt(Unit, workload, t, next) <= SLOTS as real * next
    requires Fits(t.active) && t.memoryArea <= TOTAL * t.now
        ==> Fits(Unfinished(t.active, next)) && t.memoryArea + memory <= TOTAL * next
    ensures Paced(workload, policy, Advanced(t, next, elapsed, memory, blocked))
  {}

  lemma MemoryPace(t: State, next: real, elapsed: real, memory: real)
    requires forall a :: a in t.active ==> a.run.peakBytes >= 0
    requires next == t.now + elapsed && elapsed >= 0.0 && memory == Times(elapsed, Load(PeakOf, t.active))
    ensures Fits(t.active) && t.memoryArea <= TOTAL * t.now ==>
      Fits(Unfinished(t.active, next)) && t.memoryArea + memory <= TOTAL * next
  {
    hide Times, Load;
    UnfinishedMembers(t.active, next);
    RetirementFreesMemory(t.active, next);
    if Load(PeakOf, t.active) <= TOTAL {
      AtMostRate(elapsed, Load(PeakOf, t.active), TOTAL);
    }
  }

  lemma AtMostRate(elapsed: real, load: real, rate: real)
    requires elapsed >= 0.0
    ensures load <= rate ==> Times(elapsed, load) <= rate * elapsed
    ensures 1.0 <= load ==> elapsed <= Times(elapsed, load)
  {
    assert load <= rate ==> elapsed * (rate - load) >= 0.0;
    assert 1.0 <= load ==> elapsed * (load - 1.0) >= 0.0;
  }

  lemma WorkPace(workload: seq<Run>, t: State, next: real, elapsed: real)
    requires t.active != [] && next == Earliest(t.active) && next == t.now + elapsed && elapsed >= 0.0
    ensures t.now <= Done(Unit, workload, t) ==> next <= DoneAt(Unit, workload, t, next)
    ensures |t.active| <= SLOTS && Done(Unit, workload, t) <= SLOTS as real * t.now
        ==> DoneAt(Unit, workload, t, next) <= SLOTS as real * next
  {
    var load := Load(Unit, t.active);
    var amount := Times(elapsed, load);
    UnitLoad(t.active);
    AdvanceWork(Unit, workload, t, next, elapsed, amount);
    AtMostRate(elapsed, load, SLOTS as real);
    hide Times, Load, Done, DoneAt;
  }

  lemma OneAtATime(workload: seq<Run>, t: State, next: real, elapsed: real, memory: real, blocked: real)
    requires |t.active| <= 1 && EventFrom(t, next, elapsed, memory, blocked)
    requires Done(Unit, workload, t) == t.now
    ensures var u := Advanced(t, next, elapsed, memory, blocked); |u.active| <= 1 && Done(Unit, workload, u) == u.now
  {
    UnitLoad(t.active);
    AdvanceWork(Unit, workload, t, next, elapsed, elapsed);
    UnfinishedMembers(t.active, next);
  }

  // ----- results -----

  /** Sum of the recorded start times over the workload. */
  function StartTimes(workload: seq<Run>, starts: map<string, real>): real {
    if workload == [] then 0.0
    else
      var key := workload[|workload|-1].key;
      StartTimes(workload[..|workload|-1], starts) + (if key in starts then starts[key] else 0.0)
  }

  lemma {:induction false} EveryoneStarted(workload: seq<Run>, starts: map<string, real>, now: real)
    requires Waiting(workload, starts.Keys) == []
    ensures forall r :: r in workload ==> r.key in starts
    ensures Queued(workload, starts, now) == StartTimes(workload, starts)
  {
    if workload != [] {
      var n := |workload| - 1;
      SplitLast(workload);
      WaitingAppend(workload[..n], workload[n], starts.Keys);
      EveryoneStarted(workload[..n], starts, now);
    }
  }

  /** Each integral of a finished simulation is a quantity of the workload alone, and every
      run of the workload has started once and completed once. */
  ghost predicate IntegralsExact(workload: seq<Run>, t: Trace) {
    && t.activeArea == t.now
    && t.memoryArea == Work(PeakOf, workload)
    && t.blockedArea == StartTimes(workload, t.starts)
    && multiset(t.completed) == multiset(workload)
    && forall r :: r in workload ==> r.key in t.starts
  }

  /** The makespan of a plausible workload. */
  ghost predicate MakespanBounded(workload: seq<Run>, policy: Policy, t: Trace) {
    && 0.0 <= t.now <= Work(Unit, workload)
    && (forall r :: r in workload ==> r.duration <= t.now)
    && (forall r :: r in workload ==>
        r.key in t.starts && 0.0 <= t.starts[r.key] && t.starts[r.key] + r.duration <= t.now)
    && (Disciplined(policy, workload) ==>
          Work(Unit, workload) <= SLOTS as real * t.now && t.memoryArea <= TOTAL * t.now)
  }

  lemma Finally(workload: seq<Run>, policy: Policy, s: State)
    requires LoopInvariant(workload, policy, s) && s.pending == [] && s.active == []
    ensures IntegralsExact(workload, Trace(s.now, s.activeArea, s.memoryArea, s.blockedArea, s.starts, s.completed))
    ensures Plausible(workload) ==>
      MakespanBounded(workload, policy, Trace(s.now, s.activeArea, s.memoryArea, s.blockedArea, s.starts, s.completed))
    ensures policy.FixedOne? && DistinctKeys(workload) ==> s.now == Work(Unit, workload)
  {
    FinalIntegrals(workload, s);
    if Plausible(workload) {
      FinalBounds(workload, policy, s);
    }
  }

  lemma FinalIntegrals(workload: seq<Run>, s: State)
    requires Conserved(workload, s) && s.pending == [] && s.active == []
    ensures IntegralsExact(workload, Trace(s.now, s.activeArea, s.memoryArea, s.blockedArea, s.starts, s.completed))
  {
    EveryoneStarted(workload, s.starts, s.now);
    EveryoneCompleted(workload, s);
  }

  lemma EveryoneCompleted(workload: seq<Run>, s: State)
    requires Conserved(workload, s) && s.pending == [] && s.active == []
    ensures multiset(s.completed) == multiset(workload)
    ensures forall r :: r in workload ==> r in s.completed
  {
    assert multiset(s.completed) == multiset(workload);
    assert forall r :: r in workload ==> r in multiset(workload);
  }

  lemma FinalBounds(workload: seq<Run>, policy: Policy, s: State)
    requires Conserved(workload, s) && Paced(workload, policy, s) && Clocked(s) && s.pending == [] && s.active == []
    ensures MakespanBounded(workload, policy,
        Trace(s.now, s.activeArea, s.memoryArea, s.blockedArea, s.starts, s.completed))
  {
    EveryoneCompleted(workload, s);
  }

  /** The event loop, for every policy. */
  method EventLoop(workload: seq<Run>, policy: Policy) returns (r: Result<Trace>, ghost events: seq<Event>)
    ensures Schedule(workload, policy, events) && Ends(policy, events, r)
    ensures r.Ok? ==> IntegralsExact(workload, r.value)
    ensures r.Ok? && Plausible(workload) ==> MakespanBounded(workload, policy, r.value)
    ensures r.Ok? && policy.FixedOne? && DistinctKeys(workload) ==> r.value.now == Work(Unit, workload)
    ensures policy.FixedOne? || NeverStalls(workload, policy.place) ==> r.Ok?
  {
    hide Times, LoopInvariant, IntegralsExact, MakespanBounded, Recorded, Schedule, Ends, Selected, Conserved;
    hide Chosen, Waiting, Started, Stamped, Finished, Unfinished, Load, Earliest;
    var pending, active, completed, starts := workload, [], [], map[];
    var now, activeArea, memoryArea, blockedArea := 0.0, 0.0, 0.0, 0.0;
    var step: nat := 0;
    Initially(workload, policy);
    events := [Event(pending, active, now)];
    RecordStarts(workload, policy);
    while pending != [] || active != []
      invariant LoopInvariant(workload, policy,
          State(pending, active, completed, starts, now, activeArea, memoryArea, blockedArea))
      invariant step == |events| - 1
      invariant Recorded(workload, policy, events,
          State(pending, active, completed, starts, now, activeArea, memoryArea, blockedArea))
      decreases |pending| + |active|
    {
      ghost var before := State(pending, active, completed, starts, now, activeArea, memoryArea, blockedArea);
      var selected := Selected(policy, step, pending, active, now);
      if policy.FixedOne? || NeverStalls(workload, policy.place) {
        SomeoneChosen(workload, policy, before, step);
      }
      pending, active, starts := Admit(pending, active, starts, selected, now);
      ghost var admitted := State(pending, active, completed, starts, now, activeArea, memoryArea, blockedArea);
      assert admitted == Admitted(before, selected);
      if active == [] {
        NothingStarts(workload, policy, events, before);
        return NoProgress, events;
      }
      AdmissionKeepsInvariant(workload, policy, before, step, selected);
      EventProgress(before, selected, Earliest(active));
      var next := Earliest(active);
      var elapsed := next - now;
      var memory := Times(elapsed, Load(PeakOf, active));
      var blocked := Times(elapsed, |pending| as real);
      AdvanceKeepsInvariant(workload, policy, admitted, next, elapsed, memory, blocked);
      activeArea := activeArea + elapsed;
      memoryArea := memoryArea + memory;
      blockedArea := blockedArea + blocked;
      now := next;
      active, completed := Retire(active, completed, now);
      RecordNext(workload, policy, events, before,
                 State(pending, active, completed, starts, now, activeArea, memoryArea, blockedArea));
      events := events + [Event(pending, active, now)];
      step := step + 1;
    }
    ghost var last := State(pending, active, completed, starts, now, activeArea, memoryArea, blockedArea);
    Finally(workload, policy, last);
    RecordEnds(workload, policy, events, last, Trace(now, activeArea, memoryArea, blockedArea, starts, completed));
    r := Ok(Trace(now, activeArea, memoryArea, blockedArea, starts, completed));
  }

  lemma SomeoneChosen(workload: seq<Run>, policy: Policy, s: State, step: nat)
    requires LoopInvariant(workload, policy, s) && (s.pending != [] || s.active != [])
    requires policy.FixedOne? || NeverStalls(workload, policy.place)
    ensures Admitted(s, Selected(policy, step, s.pending, s.active, s.now)).active != []
  {
    var chosen := Chosen(s.pending, Selected(policy, step, s.pending, s.active, s.now));
    StartedMembers(chosen, s.now);
    if s.active == [] && policy.FixedOne? {
      ChosenMembers(s.pending, {s.pending[0].key});
      assert s.pending[0] in chosen;
    }
  }

  /** |pending| + |active| drops at every event. */
  lemma EventProgress(s: State, keys: set<string>, next: real)
    requires Admitted(s, keys).active != [] && next == Earliest(Admitted(s, keys).active)
    ensures |Admitted(s, keys).pending| + |Unfinished(Admitted(s, keys).active, next)| < |s.pending| + |s.active|
  {
    AdvanceShrinks(Admitted(s, keys).active, next);
    StartedMembers(Chosen(s.pending, keys), s.now);
    ChosenOrWaitingLength(s.pending, keys);
  }

  lemma {:induction false} ChosenOrWaitingLength(runs: seq<Run>, keys: set<string>)
    ensures |Chosen(runs, keys)| + |Waiting(runs, keys)| == |runs|
  {
    if runs != [] {
      ChosenOrWaitingLength(runs[..|runs|-1], keys);
    }
  }

  // ----- the reported benchmark -----

  predicate Heavy(run: Run) { run.peakBytes >= 40 * GIB }

  /** The latest start of a run of 40 GiB or more, 0 when there is none. */
  ghost predicate LongestHeavyWait(workload: seq<Run>, starts: map<string, real>, wait: real)
    requires forall r :: r in workload ==> r.key in starts
  {
    if exists r :: r in workload && r.peakBytes >= 42949672960
    then (exists r :: r in workload && r.peakBytes >= 42949672960 && starts[r.key] == wait)
         && (forall r :: r in workload && r.peakBytes >= 42949672960 ==> starts[r.key] <= wait)
    else wait == 0.0
  }

  method HeavyWait(workload: seq<Run>, starts: map<string, real>) returns (wait: real)
    requires forall r :: r in workload ==> r.key in starts
    ensures LongestHeavyWait(workload, starts, wait)
  {
    var found := false;
    wait := 0.0;
    for i := 0 to |workload|
      invariant found <==> exists r :: r in workload[..i] && Heavy(r)
      invariant LongestHeavyWait(workload[..i], starts, wait)
    {
      assert workload[..i+1] == workload[..i] + [workload[i]];
      if Heavy(workload[i]) {
        wait := if found then Max(wait, starts[workload[i].key]) else starts[workload[i].key];
        found := true;
      }
    }
    assert workload[..|workload|] == workload;
  }

  /** The divisors of the report, kept away from zero. */
  function Seconds(now: real): real { Max(now, 0.000000001) }

  function ByteSeconds(now: real): real { Max(now * TOTAL, 1.0) }

  /** The figures of one simulated policy. */
  function Report(adaptive: bool, t: Trace, heavyWait: real): Benchmark {
    Benchmark(
      adaptive, t.now,
      t.activeArea / Seconds(t.now),
      t.memoryArea / ByteSeconds(t.now),
      (|t.completed| * 3600) as real / Seconds(t.now),
      t.blockedArea, heavyWait)
  }

  /** What a report says about the workload and the schedule it came from. */
  ghost predicate Faithful(workload: seq<Run>, b: Benchmark, t: Trace) {
    && b.makespan == t.now
    && Times(b.activeFraction, Seconds(b.makespan)) == b.makespan
    && Times(b.vramUtilization, ByteSeconds(b.makespan)) == Work(PeakOf, workload)
    && Times(b.actionsPerHour, Seconds(b.makespan)) == (|workload| * 3600) as real
    && (forall r :: r in workload ==> r.key in t.starts)
    && b.blockedSeconds == StartTimes(workload, t.starts)
    && LongestHeavyWait(workload, t.starts, b.heavyStarvation)
  }

  lemma ReportFaithful(workload: seq<Run>, adaptive: bool, t: Trace, heavyWait: real)
    requires IntegralsExact(workload, t) && LongestHeavyWait(workload, t.starts, heavyWait)
    ensures Faithful(workload, Report(adaptive, t, heavyWait), t)
  {
    assert |t.completed| == |multiset(t.completed)| == |workload|;
    Quotients(t.activeArea, 0.0, Seconds(t.now));
    Quotients(t.memoryArea, 0.0, ByteSeconds(t.now));
    Quotients((|t.completed| * 3600) as real, 0.0, Seconds(t.now));
  }

  /** One simulated policy, with the schedule it ran. */
  method Simulate(workload: seq<Run>, policy: Policy)
      returns (r: Result<Benchmark>, ghost outcome: Result<Trace>, ghost events: seq<Event>)
    ensures Schedule(workload, policy, events) && Ends(policy, events, outcome)
    ensures r.Ok? <==> outcome.Ok?
    ensures policy.FixedOne? || NeverStalls(workload, policy.place) ==> r.Ok?
    ensures r.Ok? ==> Faithful(workload, r.value, outcome.value) && r.value.adaptive == policy.Adaptive?
    ensures r.Ok? && Plausible(workload) ==> MakespanBounded(workload, policy, outcome.value)
    ensures r.Ok? && policy.FixedOne? && DistinctKeys(workload) ==> r.value.makespan == Work(Unit, workload)
    ensures r.Ok? && Plausible(workload) && Disciplined(policy, workload) ==> r.value.vramUtilization <= 1.0
  {
    hide Schedule, Ends, Faithful, Disciplined;
    var run;
    run, events := EventLoop(workload, policy);
    outcome := run;
    match run
    case NoProgress => r := NoProgress;
    case Ok(t) =>
      var heavyWait := HeavyWait(workload, t.starts);
      ReportFaithful(workload, policy.Adaptive?, t, heavyWait);
      if Plausible(workload) && Disciplined(policy, workload) {
        Quotients(t.memoryArea, 0.0, ByteSeconds(t.now));
      }
      r := Ok(Report(policy.Adaptive?, t, heavyWait));
  }

  /** Adaptive packing never lengthens the makespan, lowers the memory utilisation or lowers
      the throughput of the one-run-at-a-time policy on the same workload. */
  method CompareStaticAndDynamic(workload: seq<Run>, place: Planner)
      returns (fixed: Result<Benchmark>, adaptive: Result<Benchmark>)
    requires DistinctKeys(workload) && Plausible(workload)
    ensures fixed.Ok?
    ensures NeverStalls(workload, place) ==> adaptive.Ok?
    ensures adaptive.Ok? ==>
      && adaptive.value.makespan <= fixed.value.makespan == Work(Unit, workload)
      && adaptive.value.vramUtilization >= fixed.value.vramUtilization
      && adaptive.value.actionsPerHour >= fixed.value.actionsPerHour
  {
    hide Work, Plausible, Schedule, Ends, StartTimes, LongestHeavyWait;
    ghost var slow, fast, slowEvents, fastEvents;
    fixed, slow, slowEvents := Simulate(workload, FixedOne);
    adaptive, fast, fastEvents := Simulate(workload, Adaptive(place));
    if adaptive.Ok? {
      FasterIsBetter(workload, fixed.value, slow.value, adaptive.value, fast.value);
    }
  }

  lemma FasterIsBetter(workload: seq<Run>, slow: Benchmark, slowTrace: Trace, fast: Benchmark, fastTrace: Trace)
    requires Plausible(workload)
    requires Faithful(workload, slow, slowTrace) && Faithful(workload, fast, fastTrace)
    requires 0.0 <= fast.makespan <= slow.makespan
    ensures fast.vramUtilization >= slow.vramUtilization
    ensures fast.actionsPerHour >= slow.actionsPerHour
  {
    hide Times, Work, LongestHeavyWait, Seconds, ByteSeconds, Plausible;
    WorkNonNegative(workload);
    DivisorsGrow(fast.makespan, slow.makespan);
    SmallerDivisor(slow.vramUtilization, ByteSeconds(slow.makespan), fast.vramUtilization, ByteSeconds(fast.makespan));
    SmallerDivisor(slow.actionsPerHour, Seconds(slow.makespan), fast.actionsPerHour, Seconds(fast.makespan));
  }

  lemma DivisorsGrow(x: real, y: real)
    requires x <= y
    ensures 0.0 < Seconds(x) <= Seconds(y) && 0.0 < ByteSeconds(x) <= ByteSeconds(y)
  {}

  lemma SmallerDivisor(x: real, p: real, y: real, q: real)
    requires 0.0 < q <= p && Times(x, p) == Times(y, q) >= 0.0
    ensures x <= y
  {
    if x < 0.0 {
      NegativeProduct(x, p);
    } else {
      ProductOrder(x, q, p);
      if y < x {
        StrictOrder(y, x, q);
      }
    }
  }

  lemma NegativeProduct(x: real, p: real)
    requires x < 0.0 < p
    ensures Times(x, p) < 0.0
  {}

  lemma ProductOrder(x: real, q: real, p: real)
    requires 0.0 <= x && q <= p
    ensures Times(x, q) <= Times(x, p)
  {}

  lemma StrictOrder(y: real, x: real, q: real)
    requires y < x && 0.0 < q
    ensures Times(y, q) < Times(x, q)
  {}

  lemma {:induction false} WorkNonNegative(workload: seq<Run>)
    requires Plausible(workload)
    ensures Work(PeakOf, workload) >= 0.0
  {
    if workload != [] {
      var n := |workload| - 1;
      assert workload[n] in workload;
      WorkNonNegative(workload[..n]);
      NonNegativeProduct(PeakOf(workload[n]), workload[n].duration);
    }
  }

  lemma NonNegativeProduct(x: real, y: real)
    requires 0.0 <= x && 0.0 <= y
    ensures 0.0 <= Times(x, y)
  {}
}
