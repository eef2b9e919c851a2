/** What a worker's reconciles come to outside it: which containers are up, what one reconcile reaches,
    and how failures in a row are counted. */
module WorkerEffects {
  import opened Wrappers
  import opened RouterState
  import opened CallProtocol
  import opened WorkerState
  import opened WorkerTheorems

  // ---- Containers ----

  /** A container was started at `a` and has not been told to stop since. */
  predicate Up(log: seq<Entry>, a: Addr)
  {
    log != [] &&
    var x := log[|log| - 1];
    if x.addr == a && x.event.End? && x.event.call.Start? && x.event.ok then true
    else if x.addr == a && x.event.End? && x.event.call.Stop? then false
    else Up(log[..|log| - 1], a)
  }

  lemma UpCall(log: seq<Entry>, b: Addr, c: Call, ok: bool, a: Addr)
    ensures Up(log + Calls(b, c, ok), a) <==>
              if a == b && c.Start? && ok then true else if a == b && c.Stop? then false else Up(log, a)
  {
    var one := log + [Entry(b, Begin(c))];
    var two := log + Calls(b, c, ok);
    assert two == one + [Entry(b, End(c, ok))] && two[..|two| - 1] == one && one[..|one| - 1] == log;
  }

  /** The worker's instance is up at its address, and nothing else of its is up anywhere. */
  ghost predicate OnlyOwnUp(w: Worker)
  {
    forall a :: Up(w.log, a) <==> w.inst.Some? && w.ip == a
  }

  lemma TeardownStops(w: Worker, e: Answers)
    requires OnlyOwnUp(w)
    ensures OnlyOwnUp(TeardownLive(w, e))
  {
    hide Up;
    if w.inst.Some? {
      var log1 := w.log + Calls(w.ip, Remove(w.port, false), true);
      var log2 := log1 + Calls(w.ip, Flush, e.drainOk);
      forall a
        ensures !Up(TeardownLive(w, e).log, a)
      {
        UpCall(w.log, w.ip, Remove(w.port, false), true, a);
        UpCall(log1, w.ip, Flush, e.drainOk, a);
        UpCall(log2, w.ip, Stop, true, a);
      }
    }
  }

  lemma BringDownStops(w: Worker, e: Answers)
    requires OnlyOwnUp(w)
    ensures OnlyOwnUp(BringDown(w, e))
  {
    hide TeardownLive, Up;
    var s := w.(phase := Stopping);
    TeardownStops(s, e);
  }

  lemma BringUpStarts(w: Worker, eff: Effective, e: Answers)
    requires OnlyOwnUp(w) && w.inst.None?
    ensures OnlyOwnUp(BringUp(w, eff, e))
  {
    hide Up, Backoff;
    var log1 := w.log + Calls(eff.ip, Flush, e.flushOk);
    var log2 := log1 + Calls(eff.ip, Start, e.start.Some?);
    var log3 := log2 + Calls(eff.ip, Add(eff.port), e.addOk);
    var u := BringUp(w, eff, e);
    forall a
      ensures Up(u.log, a) <==> u.inst.Some? && u.ip == a
    {
      UpCall(w.log, eff.ip, Flush, e.flushOk, a);
      UpCall(log1, eff.ip, Start, e.start.Some?, a);
      UpCall(log2, eff.ip, Add(eff.port), e.addOk, a);
      UpCall(log3, eff.ip, Stop, true, a);
    }
  }

  lemma RebindLeavesUp(w: Worker, port: Port, e: Answers)
    requires OnlyOwnUp(w)
    ensures OnlyOwnUp(Rebind(w, port, e))
  {
    hide Up, Backoff;
    var log1 := w.log + Calls(w.ip, Remove(w.port, true), true);
    var m := Rebind(w, port, e);
    forall a
      ensures Up(m.log, a) <==> Up(w.log, a)
    {
      UpCall(w.log, w.ip, Remove(w.port, true), true, a);
      UpCall(log1, w.ip, Add(port), e.addOk, a);
    }
  }

  lemma LimitsStop(w: Worker, eff: Effective, e: Answers)
    requires OnlyOwnUp(w)
    ensures OnlyOwnUp(CheckLifecycle(w, eff, e))
  {
    hide BringDown, Hours, Up;
    BringDownStops(w, e);
    BringDownStops(w.(stopsAt := w.stopsAt + [|w.log|]), e);
  }

  lemma NoteCrashStops(w: Worker, e: Answers)
    requires OnlyOwnUp(w)
    ensures OnlyOwnUp(NoteCrash(w, e))
  {
    hide TeardownLive, Up, Backoff;
    TeardownStops(w, e);
  }

  lemma ReconcileUp(w: Worker, e: Answers)
    requires Settled(w) && Tight(w) && OnlyOwnUp(w)
    ensures OnlyOwnUp(Reconcile(w, e))
  {
    hide BringUp, BringDown, Rebind, CheckLifecycle, NoteCrash, BackingOff, Up, StageFits;
    if e.read.RowGone? {
      BringDownStops(w, e);
    } else if e.read.Spec? {
      var eff := e.read.eff;
      var w0 := w.(standalone := eff.standalone);
      SettledStandalone(w, eff.standalone);
      NoteCrashSettles(w0, e);
      NoteCrashStops(w0, e);
      var n := NoteCrash(w0, e);
      BringDownStops(n, e);
      RebindLeavesUp(n, eff.port, e);
      LimitsStop(n, eff, e);
      LimitsStop(Rebind(n, eff.port, e), eff, e);
      if !n.phase.Running? { BringUpStarts(n, eff, e); }
    }
  }

  lemma SettledStandalone(w: Worker, standalone: bool)
    requires Settled(w)
    ensures Settled(w.(standalone := standalone))
  {
    hide StageOf;
    assert forall a :: StageFits(w, a) ==> StageFits(w.(standalone := standalone), a);
  }

  /** Over a worker's whole life without a failed rebind, the container that is up is its instance's, and
      there is no other; after the final bring-down none is up. Every teardown ends in a stop, and so does
      a bring-up whose backend could not be added. */
  lemma {:induction false} NothingLeftUp(es: seq<Answers>)
    requires forall k :: 0 <= k < |es| ==> !RebindFails(Reconciles(SPAWNED, es[..k]), es[k])
    ensures OnlyOwnUp(Reconciles(SPAWNED, es))
    ensures forall e, a :: !Up(BringDown(Reconciles(SPAWNED, es), e).log, a)
  {
    hide Up, BringDown, Reconcile, RebindFails, Settled;
    var w := Reconciles(SPAWNED, es);
    if es == [] {
      NothingUpAtFirst();
    } else {
      var n := |es| - 1;
      forall k | 0 <= k < n
        ensures !RebindFails(Reconciles(SPAWNED, es[..n][..k]), es[..n][k])
      {
        assert es[..n][..k] == es[..k];
      }
      NothingLeftUp(es[..n]);
      AlwaysTight(es[..n]);
      AlwaysSettled(es[..n]);
      ReconcileUp(Reconciles(SPAWNED, es[..n]), es[n]);
    }
    AlwaysTight(es);
    forall e, a
      ensures !Up(BringDown(w, e).log, a)
    {
      BringDownStops(w, e);
    }
  }

  lemma NothingUpAtFirst()
    ensures OnlyOwnUp(SPAWNED)
  {
  }

  // ---- What one reconcile reaches ----

  /** The container of a running server is found dead. */
  predicate FoundDead(w: Worker, e: Answers) { w.phase.Running? && !(w.inst.Some? && e.alive) }

  /** After what this reconcile has found, a backoff is under way. */
  predicate Waits(w: Worker, e: Answers)
  {
    if FoundDead(w, e) then e.checkTime - e.crashTime < Backoff(w.crashCount + 1)
    else w.phase.Crashed? && e.checkTime - w.crashedAt < Backoff(w.crashCount)
  }

  predicate AllCallsSucceed(e: Answers) { e.flushOk && e.loadOk && e.start.Some? && e.addOk }

  /** Whatever phase it is in, a worker whose server is wanted running and is not up brings it up, unless a
      backoff is under way; it ends running on the wanted port and address, with the started instance
      and a fresh clock and count, exactly if its calls succeed, and crashed otherwise. */
  lemma WantedRunningComesUp(w: Worker, e: Answers)
    requires Settled(w) && e.read.Spec? && e.read.eff.running
    requires FoundDead(w, e) || !w.phase.Running?
    ensures var v := Reconcile(w, e); var eff := e.read.eff;
            if Waits(w, e) then v.phase.Crashed?
            else
              && (v.phase.Running? <==> AllCallsSucceed(e)) && (v.phase.Running? || v.phase.Crashed?)
              && (v.phase.Running? ==> v.inst == e.start && v.ip == eff.ip && v.port == eff.port
                                       && v.startedAt == e.doneTime && v.crashCount == 0)
              && (v.phase.Crashed? ==> v.crashedAt == e.doneTime)
  {
    hide BringUp, TeardownLive, Backoff, StageFits;
    var eff := e.read.eff;
    SettledStandalone(w, eff.standalone);
    var w0 := w.(standalone := eff.standalone);
    NoteCrashSettles(w0, e);
    hide Settled;
    BringUpSettles(NoteCrash(w0, e), eff, e);
  }

  /** A healthy server whose port has changed and that has no limit to meet moves to the new port, with
      the same instance, address and clock, exactly if the add succeeds. */
  lemma PortChangeMoves(w: Worker, e: Answers)
    requires Settled(w) && w.phase.Running? && w.inst.Some? && e.alive && e.read.Spec? && e.read.eff.running
    requires w.port != e.read.eff.port
    requires !LimitReached(e.read.eff.stopHrs, w, e.checkTime) && !LimitReached(e.read.eff.restartHrs, w, e.checkTime)
    ensures var v := Reconcile(w, e);
            && (v.phase.Running? <==> e.addOk) && (e.addOk ==> v.port == e.read.eff.port)
            && v.inst == w.inst && v.ip == w.ip && v.startedAt == w.startedAt
            && (!e.addOk ==> v.phase.Crashed? && v.port == w.port && FailedOnce(w, v, e.checkTime))
  {
    hide BringUp, BringDown, Backoff, StageFits, Hours, Calls;
  }

  // ---- Failures in a row ----

  /** This reconcile brought the server up. */
  predicate CameUp(w: Worker, e: Answers)
  {
    Reconcile(w, e).phase.Running? && !e.read.Unreadable? && !(w.phase.Running? && w.inst.Some? && e.alive)
  }

  /** The failures of one reconcile: a container found dead, a failed bring-up, a failed rebind. */
  function Failures(w: Worker, e: Answers): nat
  {
    if !e.read.Spec? then 0
    else
      var eff := e.read.eff;
      var dead := if FoundDead(w, e) then 1 else 0;
      if !eff.running then dead
      else if FoundDead(w, e) || !w.phase.Running? then
        dead + if !Waits(w, e) && !AllCallsSucceed(e) then 1 else 0
      else if w.port != eff.port && !e.addOk then 1 else 0
  }

  lemma DownKeepsCount(w: Worker, e: Answers)
    ensures BringDown(w, e).crashCount == w.crashCount && BringDown(w, e).timers == w.timers
  {
    hide Calls;
  }

  lemma LimitsKeepCount(w: Worker, eff: Effective, e: Answers)
    ensures CheckLifecycle(w, eff, e).crashCount == w.crashCount && CheckLifecycle(w, eff, e).timers == w.timers
  {
    hide BringDown, Hours;
    DownKeepsCount(w, e);
    DownKeepsCount(w.(stopsAt := w.stopsAt + [|w.log|]), e);
  }

  /** Each failure sets one timer and adds one to the count; a successful bring-up resets the count. */
  lemma CountStep(w: Worker, e: Answers)
    requires Settled(w)
    ensures var v := Reconcile(w, e);
            && |v.timers| == |w.timers| + Failures(w, e)
            && v.crashCount == if CameUp(w, e) then 0 else w.crashCount + Failures(w, e)
  {
    hide BringUp, BringDown, Rebind, CheckLifecycle, TeardownLive, MarkCrashed, Backoff, StageFits;
    DownKeepsCount(w, e);
    if e.read.RowGone? {
      BringDownSettles(w, e);
    } else if e.read.Spec? {
      var eff := e.read.eff;
      SettledStandalone(w, eff.standalone);
      var w0 := w.(standalone := eff.standalone);
      NoteCrashSettles(w0, e);
      var n := NoteCrash(w0, e);
      assert FoundDead(w0, e) <==> FoundDead(w, e);
      NoteCrashPhase(w0, e);
      DownKeepsCount(n, e);
      BringDownSettles(n, e);
      if n.phase.Running? {
        RebindSettles(n, eff.port, e);
        LimitsKeepCount(n, eff, e);
        LimitsKeepCount(Rebind(n, eff.port, e), eff, e);
      } else {
        BringUpSettles(n, eff, e);
      }
    }
  }

  /** How many timers had been set when the server last came up; 0 before it first has. */
  function TimersAtSuccess(es: seq<Answers>): nat
  {
    if es == [] then 0
    else
      var pre, e := es[..|es| - 1], es[|es| - 1];
      if CameUp(Reconciles(SPAWNED, pre), e) then |Reconciles(SPAWNED, es).timers| else TimersAtSuccess(pre)
  }

  /** Over a worker's whole life the count is that of the failures since the last successful bring-up, so
      the backoff of the n-th failure in a row is Backoff(n). */
  lemma {:induction false} CountIsFailuresInARow(es: seq<Answers>)
    ensures var w := Reconciles(SPAWNED, es); w.crashCount == |w.timers| - TimersAtSuccess(es)
  {
    hide Reconcile, CameUp, Settled;
    if es != [] {
      var pre := es[..|es| - 1];
      CountIsFailuresInARow(pre);
      AlwaysSettled(pre);
      CountStep(Reconciles(SPAWNED, pre), es[|es| - 1]);
    }
  }

  // ---- Hours ----

  /** A limit of h hours is reached after h times 3600 seconds, to the nanosecond below. */
  lemma HoursAreHours(h: real)
    ensures Hours(h) as real <= h * 3600.0 * SECOND as real < Hours(h) as real + 1.0
  {
    assert h * 3600.0 * 1_000_000_000.0 == h * 3_600_000_000_000.0;
  }
}
