/** The worker object of `orchestration/fleet/worker.go`: its goroutine is the only writer of its
    fields, so each method is proved to take the fields through the functions of WorkerState. */
module Worker {
  import opened Wrappers
  import opened RouterState
  import opened CallProtocol
  import opened WorkerState

  class Worker {
    var phase: Phase
    var inst: Option<Instance>
    var ip: Addr
    var port: Port
    var standalone: bool
    var startedAt: Time
    var crashCount: nat
    var crashedAt: Time
    var nudged: bool
    var cancelled: bool
    ghost var log: seq<Entry>
    ghost var timers: seq<Time>
    ghost var unmanaged: seq<Port>
    ghost var stopsAt: seq<nat>

    ghost function State(): WorkerState.Worker
      reads this
    {
      WorkerState.Worker(phase, inst, ip, port, standalone, startedAt, crashCount, crashedAt,
                         nudged, cancelled, log, timers, unmanaged, stopsAt)
    }

    constructor ()
      ensures State() == SPAWNED
    {
      phase, inst, ip, port, standalone := Pending, None, 0, 0, false;
      startedAt, crashCount, crashedAt, nudged, cancelled := 0, 0, 0, false, false;
      log, timers, unmanaged, stopsAt := [], [], [], [];
    }

    /** A call to the proxy or to docker on behalf of an address, with its outcome. */
    method Issue(a: Addr, c: Call, ok: bool)
      modifies this`log
      ensures State() == Called(old(State()), a, c, ok)
    {
      log := log + Calls(a, c, ok);
    }

    method MarkCrashed(now: Time)
      modifies this
      ensures State() == WorkerState.MarkCrashed(old(State()), now)
    {
      hide Backoff;
      phase := Crashed;
      crashCount := crashCount + 1;
      crashedAt := now;
      timers := timers + [now + Backoff(crashCount)];
    }

    /** The locked block at the end of a successful bring-up. */
    method MarkRunning(started: Option<Instance>, eff: Effective, now: Time)
      modifies this
      ensures State() == WorkerState.MarkRunning(old(State()), started, eff, now)
    {
      inst := started;
      ip := eff.ip;
      port := eff.port;
      startedAt := now;
      phase := Running;
      crashCount := 0;
    }

    method TeardownLive(e: Answers)
      modifies this
      ensures State() == WorkerState.TeardownLive(old(State()), e)
    {
      hide Called;
      var live := inst;
      inst := None;
      if live.None? {
        return;
      }
      Issue(ip, Remove(port, false), true);
      Issue(ip, Flush, e.drainOk);
      Issue(ip, Stop, true);
    }

    method BringDown(e: Answers)
      modifies this
      ensures State() == WorkerState.BringDown(old(State()), e)
    {
      hide WorkerState.TeardownLive;
      if phase != Running && phase != Stopping {
        return;
      }
      phase := Stopping;
      TeardownLive(e);
      phase := Stopped;
    }

    method BringUp(eff: Effective, e: Answers)
      modifies this
      ensures State() == WorkerState.BringUp(old(State()), eff, e)
    {
      hide WorkerState.MarkCrashed, WorkerState.MarkRunning, Called, Calls, Backoff;
      phase := Starting;
      Issue(eff.ip, Flush, e.flushOk);
      if !e.flushOk || !e.loadOk {
        MarkCrashed(e.doneTime);
        return;
      }
      Issue(eff.ip, Start, e.start.Some?);
      if e.start.None? {
        MarkCrashed(e.doneTime);
        return;
      }
      Issue(eff.ip, Add(eff.port), e.addOk);
      if !e.addOk {
        Issue(eff.ip, Stop, true);
        MarkCrashed(e.doneTime);
        return;
      }
      MarkRunning(e.start, eff, e.doneTime);
    }

    method Rebind(newPort: Port, e: Answers)
      modifies this
      ensures State() == WorkerState.Rebind(old(State()), newPort, e)
    {
      hide WorkerState.MarkCrashed, Called;
      Issue(ip, Remove(port, true), true);
      Issue(ip, Add(newPort), e.addOk);
      if !e.addOk {
        MarkCrashed(e.checkTime);
        return;
      }
      port := newPort;
    }

    method CheckLifecycle(eff: Effective, e: Answers)
      modifies this
      ensures State() == WorkerState.CheckLifecycle(old(State()), eff, e)
    {
      hide WorkerState.BringDown, Hours;
      var age := e.checkTime - startedAt;
      if eff.stopHrs > 0.0 && age >= Hours(eff.stopHrs) {
        if !e.persistOk {
          return;
        }
        stopsAt := stopsAt + [|log|];
        BringDown(e);
        return;
      }
      if eff.restartHrs > 0.0 && age >= Hours(eff.restartHrs) {
        BringDown(e);
        nudged := true;
      }
    }

    method Reap(e: Answers)
      modifies this
      ensures State() == WorkerState.Reap(old(State()), e)
    {
      BringDown(e);
      if standalone && port != 0 {
        unmanaged := unmanaged + [port];
      }
      cancelled := true;
    }

    method Reconcile(e: Answers)
      modifies this
      ensures State() == WorkerState.Reconcile(old(State()), e)
    {
      hide WorkerState.TeardownLive, WorkerState.BringDown, WorkerState.BringUp;
      hide WorkerState.Rebind, WorkerState.CheckLifecycle, WorkerState.Reap, Backoff;
      if e.read.RowGone? {
        Reap(e);
        return;
      }
      if e.read.Unreadable? {
        return;
      }
      var eff := e.read.eff;
      standalone := eff.standalone;
      var ph, curPort := phase, port;
      if ph == Running && !(inst.Some? && e.alive) {
        TeardownLive(e);
        MarkCrashed(e.crashTime);
        ph := Crashed;
      }
      if eff.running {
        if ph == Running {
          if curPort != eff.port {
            Rebind(eff.port, e);
          }
          CheckLifecycle(eff, e);
        } else if ph == Stopped || ph == Crashed || ph == Pending {
          if ph == Crashed && e.checkTime - crashedAt < Backoff(crashCount) {
            return;
          }
          BringUp(eff, e);
        }
        return;
      }
      if ph == Running || ph == Stopping {
        BringDown(e);
      } else if ph == Pending || ph == Crashed {
        phase := Stopped;
      }
    }

    /** The run loop for one sequence of wake-ups, ending in the cancellation's bring-down. */
    method Run(first: Answers, wakes: seq<Answers>, last: Answers)
      modifies this
      ensures State() == WorkerState.BringDown(Reconciles(old(State()), [first] + wakes), last)
    {
      hide WorkerState.Reconcile, WorkerState.BringDown;
      Reconcile(first);
      assert [first] + wakes[..0] == [first];
      var i := 0;
      while i < |wakes|
        invariant i <= |wakes|
        invariant State() == Reconciles(old(State()), [first] + wakes[..i])
      {
        Reconcile(wakes[i]);
        assert ([first] + wakes[..i + 1])[..i + 1] == [first] + wakes[..i];
        i := i + 1;
      }
      assert wakes[..i] == wakes;
      BringDown(last);
    }
  }
}
