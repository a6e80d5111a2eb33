/** The worker object of the live monitor: one forked process and the pipe it answers on. */
module BackgroundProcess {
  import opened Options
  import opened Monitor

  /** The operating system's side: processes forked and not yet released. */
  class Processes {
    var live: set<nat>
    var next: nat

    constructor ()
      ensures live == {} && next == 0
    {
      live, next := {}, 0;
    }
  }

  class Worker {
    var process: Option<nat>
    var connected: bool

    /** The worker's slot beside the process table, as the event loop's value operations see it. */
    function Slot(os: Processes): Workers
      reads this, os
    {
      Workers(process, None, None, None, os.next, os.live)
    }

    predicate Valid(os: Processes)
      reads this, os
    {
      && connected == process.Some? && (process.Some? ==> process.value in os.live)
      && forall h :: h in os.live ==> h < os.next
    }

    constructor ()
      ensures process.None? && !connected
    {
      process, connected := None, false;
    }

    /** Starting a running worker does nothing; otherwise the old process is closed first. */
    method Start(os: Processes, running: bool)
      requires Valid(os) && (running ==> process.Some?)
      modifies this, os
      ensures Valid(os)
      ensures Slot(os) == StartSnapshot(old(Slot(os)), running)
    {
      if running {
        return;
      }
      Close(os);
      process := Some(os.next);
      os.live := os.live + {os.next};
      os.next := os.next + 1;
      connected := true;
    }

    /** A result, or a worker that died without one, is taken once and releases the process. */
    method Take<T>(os: Processes, readable: bool, sent: Option<T>) returns (result: Option<Report<T>>)
      requires Valid(os)
      modifies this, os
      ensures Valid(os)
      ensures result.Some? <==> old(process).Some? && readable
      ensures result.Some? ==> result.value == (if sent.Some? then Data(sent.value) else Failure)
      ensures Slot(os) == if result.Some? then StopSnapshot(old(Slot(os))) else old(Slot(os))
    {
      if !connected || !readable {
        return None;
      }
      result := Some(if sent.Some? then Data(sent.value) else Failure);
      Release(os);
    }

    method Close(os: Processes)
      requires Valid(os)
      modifies this, os
      ensures Valid(os) && Slot(os) == StopSnapshot(old(Slot(os)))
    {
      Release(os);
    }

    method Release(os: Processes)
      requires Valid(os)
      modifies this, os
      ensures Valid(os) && Slot(os) == StopSnapshot(old(Slot(os)))
    {
      if process.Some? {
        os.live := os.live - {process.value};
      }
      connected, process := false, None;
    }
  }
}
