/** What every worker keeps over all sequences of reconciles, whatever the outside answers. */
module WorkerTheorems {
  import opened Wrappers
  import opened RouterState
  import opened CallProtocol
  import opened WorkerState

  // ---- The calls of one address ----

  function CallsTo(log: seq<Entry>, a: Addr): seq<Event>
  {
    if log == [] then []
    else
      var rest := CallsTo(log[..|log| - 1], a);
      if log[|log| - 1].addr == a then rest + [log[|log| - 1].event] else rest
  }

  function StageOf(log: seq<Entry>, a: Addr): Stage
  {
    After(Down, CallsTo(log, a))
  }

  lemma StageSnoc(log: seq<Entry>, x: Entry, a: Addr)
    ensures StageOf(log + [x], a) == if x.addr == a then Next(StageOf(log, a), x.event) else StageOf(log, a)
  {
    assert (log + [x])[..|log + [x]| - 1] == log;
    var was := CallsTo(log, a);
    assert (was + [x.event])[..|was + [x.event]| - 1] == was;
  }

  lemma StageCall(log: seq<Entry>, b: Addr, c: Call, ok: bool, a: Addr)
    ensures StageOf(log + Calls(b, c, ok), a) ==
            if a != b then StageOf(log, a)
            else if Allowed(StageOf(log, a), c) then Finished(c, ok) else Bad
  {
    StageSnoc(log, Entry(b, Begin(c)), a);
    StageSnoc(log + [Entry(b, Begin(c))], Entry(b, End(c, ok)), a);
    assert log + Calls(b, c, ok) == log + [Entry(b, Begin(c))] + [Entry(b, End(c, ok))];
  }

  // ---- State invariant ----

  /** Address `a` as the worker's fields describe it: registered on `port` exactly while running. */
  ghost predicate StageFits(w: Worker, a: Addr)
  {
    var st := StageOf(w.log, a);
    if w.phase.Running? && a == w.ip then st == Serving(w.port) else st.Down? || st.Flushed?
  }

  /** Holds whenever the worker waits in its select: it is in no transient phase, every call so far
      was in protocol order, and the only registered backend is the running one. */
  ghost predicate Settled(w: Worker)
  {
    && !w.phase.Starting? && !w.phase.Stopping?
    && (w.phase.Running? ==> w.inst.Some?)
    && (forall a :: StageFits(w, a))
  }

  /** The worker holds an instance exactly while it is running. */
  predicate Tight(w: Worker)
  {
    w.inst.Some? <==> w.phase.Running?
  }

  /** One more failure in a row, at this time, and a timer set for the end of its backoff. */
  predicate FailedOnce(w: Worker, v: Worker, now: Time)
  {
    && v.crashCount == w.crashCount + 1 && v.crashedAt == now
    && v.timers == w.timers + [now + Backoff(w.crashCount + 1)]
  }

  lemma TeardownSettles(w: Worker, e: Answers)
    requires Settled(w) && w.phase.Running?
    ensures var d := TeardownLive(w, e);
            d.inst.None? && forall a :: StageOf(d.log, a).Down? || StageOf(d.log, a).Flushed?
  {
    var log1 := w.log + Calls(w.ip, Remove(w.port, false), true);
    var log2 := log1 + Calls(w.ip, Flush, e.drainOk);
    forall a
      ensures var st := StageOf(TeardownLive(w, e).log, a); st.Down? || st.Flushed?
    {
      assert StageFits(w, a);
      StageCall(w.log, w.ip, Remove(w.port, false), true, a);
      StageCall(log1, w.ip, Flush, e.drainOk, a);
      StageCall(log2, w.ip, Stop, true, a);
    }
  }

  lemma BringDownSettles(w: Worker, e: Answers)
    requires Settled(w)
    ensures Settled(BringDown(w, e)) && !BringDown(w, e).phase.Running?
    ensures w.phase.Running? ==> BringDown(w, e).phase.Stopped? && BringDown(w, e).inst.None?
    ensures !w.phase.Running? ==> BringDown(w, e) == w
  {
    if w.phase.Running? {
      TeardownSettles(w, e);
    }
  }

  lemma BringUpSettles(w: Worker, eff: Effective, e: Answers)
    requires Settled(w) && !w.phase.Running?
    ensures var u := BringUp(w, eff, e);
            && Settled(u) && (u.phase.Running? || u.phase.Crashed?)
            && (u.phase.Running? <==> e.flushOk && e.loadOk && e.start.Some? && e.addOk)
            && (u.phase.Running? ==> u.inst == e.start && u.port == eff.port && u.ip == eff.ip)
            && (u.phase.Running? ==> u.startedAt == e.doneTime && u.crashCount == 0 && u.timers == w.timers)
            && (u.phase.Crashed? ==> u.inst == w.inst && FailedOnce(w, u, e.doneTime))
  {
    var u := BringUp(w, eff, e);
    var log1 := w.log + Calls(eff.ip, Flush, e.flushOk);
    var log2 := log1 + Calls(eff.ip, Start, e.start.Some?);
    var log3 := log2 + Calls(eff.ip, Add(eff.port), e.addOk);
    forall a
      ensures StageFits(u, a)
    {
      assert StageFits(w, a);
      StageCall(w.log, eff.ip, Flush, e.flushOk, a);
      StageCall(log1, eff.ip, Start, e.start.Some?, a);
      StageCall(log2, eff.ip, Add(eff.port), e.addOk, a);
      StageCall(log3, eff.ip, Stop, true, a);
    }
  }

  lemma RebindSettles(w: Worker, port: Port, e: Answers)
    requires Settled(w) && w.phase.Running?
    ensures var m := Rebind(w, port, e);
            && Settled(m) && m.inst == w.inst && m.ip == w.ip
            && (m.phase.Running? <==> e.addOk) && (e.addOk ==> m.port == port)
            && (e.addOk ==> m.startedAt == w.startedAt && m.crashCount == w.crashCount && m.timers == w.timers)
            && (!e.addOk ==> m.phase.Crashed? && FailedOnce(w, m, e.checkTime))
  {
    var m := Rebind(w, port, e);
    var log1 := w.log + Calls(w.ip, Remove(w.port, true), true);
    forall a
      ensures StageFits(m, a)
    {
      assert StageFits(w, a);
      StageCall(w.log, w.ip, Remove(w.port, true), true, a);
      StageCall(log1, w.ip, Add(port), e.addOk, a);
    }
  }

  lemma NoteCrashSettles(w: Worker, e: Answers)
    requires Settled(w)
    ensures var n := NoteCrash(w, e);
            && Settled(n) && (Tight(w) ==> Tight(n))
            && (n != w ==> n.phase.Crashed? && n.inst.None? && FailedOnce(w, n, e.crashTime))
            && (n.phase.Running? <==> w.phase.Running? && w.inst.Some? && e.alive)
  {
    if w.phase.Running? && !(w.inst.Some? && e.alive) {
      TeardownSettles(w, e);
    }
  }

  /** The one case in which a worker keeps a live instance without running: a port change whose
      AddBackend fails. */
  predicate RebindFails(w: Worker, e: Answers)
  {
    && e.read.Spec? && e.read.eff.running
    && w.phase.Running? && w.inst.Some? && e.alive
    && w.port != e.read.eff.port && !e.addOk
  }

  lemma ReconcileSettles(w: Worker, e: Answers)
    requires Settled(w)
    ensures Settled(Reconcile(w, e))
    ensures Tight(w) ==> (Tight(Reconcile(w, e)) <==> !RebindFails(w, e))
    ensures e.read.Spec? && !e.read.eff.running ==> Reconcile(w, e).phase.Stopped?
    ensures e.read.Unreadable? ==> Reconcile(w, e) == w
    ensures e.read.RowGone? && Tight(w) ==> Reconcile(w, e).inst.None?
  {
    hide BringUp, BringDown, Rebind, CheckLifecycle, TeardownLive, MarkCrashed, BackingOff, StageOf;
    if e.read.RowGone? {
      BringDownSettles(w, e);
      var d := BringDown(w, e);
      assert forall a :: StageFits(d, a) ==> StageFits(Reap(w, e), a);
    } else if e.read.Spec? {
      var eff := e.read.eff;
      var w0 := w.(standalone := eff.standalone);
      assert forall a :: StageFits(w, a) ==> StageFits(w0, a);
      NoteCrashSettles(w0, e);
      var n := NoteCrash(w0, e);
      if eff.running {
        if n.phase.Running? {
          var m := if n.port != eff.port then Rebind(n, eff.port, e) else n;
          if n.port != eff.port {
            RebindSettles(n, eff.port, e);
          }
          LifecycleSettles(m, eff, e);
        } else if !(n.phase.Crashed? && BackingOff(n, e.checkTime)) {
          BringUpSettles(n, eff, e);
        }
      } else if n.phase.Running? {
        BringDownSettles(n, e);
      } else {
        assert forall a :: StageFits(n, a) ==> StageFits(n.(phase := Stopped), a);
      }
    }
  }

  lemma LifecycleSettles(w: Worker, eff: Effective, e: Answers)
    requires Settled(w)
    ensures var c := CheckLifecycle(w, eff, e);
            && Settled(c) && (!w.phase.Running? ==> c.phase == w.phase && c.inst == w.inst)
            && (w.phase.Running? ==> Tight(c))
  {
    hide BringDown, Hours, StageOf;
    var v := w.(stopsAt := w.stopsAt + [|w.log|]);
    assert forall a :: StageFits(w, a) ==> StageFits(v, a);
    BringDownSettles(v, e);
    BringDownSettles(w, e);
    var r := BringDown(w, e);
    assert forall a :: StageFits(r, a) ==> StageFits(r.(nudged := true), a);
  }

  lemma {:induction false} AlwaysSettled(es: seq<Answers>)
    ensures Settled(Reconciles(SPAWNED, es))
  {
    if es == [] {
      assert forall a :: StageFits(SPAWNED, a);
    } else {
      AlwaysSettled(es[..|es| - 1]);
      ReconcileSettles(Reconciles(SPAWNED, es[..|es| - 1]), es[|es| - 1]);
    }
  }

  /** Over a worker's whole life: instance held exactly while running, provided no rebind's
      AddBackend ever failed; and then nothing is held after the final bring-down. */
  lemma {:induction false} AlwaysTight(es: seq<Answers>)
    requires forall k :: 0 <= k < |es| ==> !RebindFails(Reconciles(SPAWNED, es[..k]), es[k])
    ensures Tight(Reconciles(SPAWNED, es))
    ensures forall e :: BringDown(Reconciles(SPAWNED, es), e).inst.None?
  {
    if es == [] {
    } else {
      var n := |es| - 1;
      forall k | 0 <= k < n
        ensures !RebindFails(Reconciles(SPAWNED, es[..n][..k]), es[..n][k])
      {
        assert es[..n][..k] == es[..k];
      }
      AlwaysTight(es[..n]);
      AlwaysSettled(es[..n]);
      ReconcileSettles(Reconciles(SPAWNED, es[..n]), es[n]);
    }
    AlwaysSettled(es);
    forall e
      ensures BringDown(Reconciles(SPAWNED, es), e).inst.None?
    {
      BringDownSettles(Reconciles(SPAWNED, es), e);
    }
  }

  /** After a failed rebind the container keeps running unnoticed: as long as the server is wanted
      stopped or is deleted, no reconcile and no shutdown makes a single call for it. */
  lemma {:induction false} LeakedUntilBroughtUp(w: Worker, es: seq<Answers>, last: Answers)
    requires Settled(w) && !w.phase.Running? && w.inst.Some?
    requires forall k :: 0 <= k < |es| ==>
               es[k].read.RowGone? || (es[k].read.Spec? && !es[k].read.eff.running)
    ensures var d := BringDown(Reconciles(w, es), last);
            d.inst == w.inst && d.log == w.log && !d.phase.Running?
  {
    if es != [] {
      LeakStep(w, es);
    }
  }

  lemma {:induction false} LeakStep(w: Worker, es: seq<Answers>)
    requires Settled(w) && !w.phase.Running? && w.inst.Some?
    requires forall k :: 0 <= k < |es| ==>
               es[k].read.RowGone? || (es[k].read.Spec? && !es[k].read.eff.running)
    ensures var d := Reconciles(w, es);
            d.inst == w.inst && d.log == w.log && !d.phase.Running? && !d.phase.Stopping?
  {
    hide Backoff, Calls, Hours, BringUp, Rebind, CheckLifecycle, StageFits, MarkCrashed, TeardownLive;
    if es != [] {
      LeakStep(w, es[..|es| - 1]);
    }
  }

  /** A worker gets there: one bring-up, then a port change whose AddBackend fails. */
  lemma RebindCanFail()
    ensures exists es: seq<Answers> ::
              var w := Reconciles(SPAWNED, es);
              Settled(w) && w.phase.Crashed? && w.inst.Some? && |es| == 2
              && RebindFails(Reconciles(SPAWNED, es[..1]), es[1])
  {
    var eff := Effective(10, true, 27015, true, -1.0, -1.0);
    var up := Answers(Spec(eff), true, true, true, Some(0), true, true, true, 0, 0, 0);
    var move := up.(read := Spec(eff.(port := 27016)), addOk := false);
    var es := [up, move];
    assert es[..1] == [up] && [up][..0] == [];
    AlwaysSettled(es);
    hide Calls, Backoff, Settled;
    assert Reconciles(SPAWNED, [up]) == Reconcile(SPAWNED, up);
    assert RebindFails(Reconciles(SPAWNED, es[..1]), es[1]);
  }

  // ---- Lifecycle limits ----

  predicate LimitReached(hrs: real, w: Worker, now: Time)
  {
    hrs > 0.0 && now - w.startedAt >= Hours(hrs)
  }

  /** A healthy server on the port it should have: a reconcile has only its limits to look at. */
  predicate Healthy(w: Worker, e: Answers)
  {
    && w.phase.Running? && w.inst.Some? && e.alive
    && e.read.Spec? && e.read.eff.running && e.read.eff.port == w.port
  }

  predicate StopDue(w: Worker, e: Answers)
    requires e.read.Spec?
  {
    LimitReached(e.read.eff.stopHrs, w, e.checkTime)
  }

  predicate RestartDue(w: Worker, e: Answers)
    requires e.read.Spec?
  {
    !StopDue(w, e) && LimitReached(e.read.eff.restartHrs, w, e.checkTime)
  }

  /** A healthy server goes down if and only if its stop limit is reached and the stop can be
      persisted, or else its restart limit is. The stop is persisted before the first call of the
      bring-down; a restart wakes the worker again; and a server within its limits, or whose stop
      cannot be persisted, is left as it is. */
  lemma LimitsDecide(w: Worker, e: Answers)
    requires Healthy(w, e)
    ensures var v := Reconcile(w, e);
            && (v.phase.Stopped? <==> (StopDue(w, e) && e.persistOk) || RestartDue(w, e))
            && (v.phase.Stopped? ==> v.inst.None? && v.log[..|w.log|] == w.log && |v.log| > |w.log|
                                     && v.log[|w.log|] == Entry(w.ip, Begin(Remove(w.port, false))))
            && (!v.phase.Stopped? ==> v == w.(standalone := v.standalone))
            && v.stopsAt == w.stopsAt + (if StopDue(w, e) && e.persistOk then [|w.log|] else [])
            && (v.nudged <==> w.nudged || RestartDue(w, e))
  {
    hide Hours, Calls, TeardownLive;
    var n := w.(standalone := e.read.eff.standalone);
    assert Reconcile(w, e) == CheckLifecycle(n, e.read.eff, e);
    DownFromRunning(n, e);
    DownFromRunning(n.(stopsAt := n.stopsAt + [|n.log|]), e);
  }

  /** What a bring-down of a running worker does besides ending it. */
  lemma DownFromRunning(w: Worker, e: Answers)
    requires w.phase.Running? && w.inst.Some?
    ensures var d := BringDown(w, e);
            && d.phase.Stopped? && d.inst.None? && d.stopsAt == w.stopsAt && d.nudged == w.nudged
            && |d.log| > |w.log| && d.log[..|w.log|] == w.log
            && d.log[|w.log|] == Entry(w.ip, Begin(Remove(w.port, false)))
  {
  }

  lemma BringUpClock(w: Worker, eff: Effective, e: Answers)
    ensures var u := BringUp(w, eff, e);
            u.phase.Running? ==> u.startedAt == e.doneTime && u.inst == e.start && u.inst.Some?
  {
    hide Called, Backoff;
  }

  lemma HealthyClock(w: Worker, eff: Effective, e: Answers)
    requires w.phase.Running?
    ensures var c := CheckLifecycle(w, eff, e); c.phase.Running? ==> c.startedAt == w.startedAt && c.inst == w.inst
    ensures var m := Rebind(w, eff.port, e); m.phase.Running? ==> m.startedAt == w.startedAt && m.inst == w.inst
    ensures var m := Rebind(w, eff.port, e); m.phase.Running? || m.phase.Crashed?
    ensures !BringDown(w, e).phase.Running?
  {
    hide Hours, Backoff, Calls;
  }

  lemma CrashedStays(w: Worker, eff: Effective, e: Answers)
    requires w.phase.Crashed?
    ensures !CheckLifecycle(w, eff, e).phase.Running?
  {
    hide Hours, TeardownLive;
  }

  /** A worker's clock starts when a bring-up succeeds and runs as long as that instance does, through
      rebinds too. */
  lemma ClockStartsAtBringUp(w: Worker, e: Answers)
    requires Reconcile(w, e).phase.Running?
    ensures var v := Reconcile(w, e);
            if e.read.Unreadable? || (w.phase.Running? && w.inst.Some? && e.alive)
            then v.startedAt == w.startedAt && v.inst == w.inst
            else v.startedAt == e.doneTime && v.inst == e.start && v.inst.Some?
  {
    hide BringUp, BringDown, CheckLifecycle, Rebind, TeardownLive, MarkCrashed, BackingOff;
    if e.read.Spec? {
      var eff := e.read.eff;
      var n := NoteCrash(w.(standalone := eff.standalone), e);
      NoteCrashPhase(w.(standalone := eff.standalone), e);
      BringUpClock(n, eff, e);
      if n.phase.Running? {
        HealthyClock(n, eff, e);
        var m := if n.port != eff.port then Rebind(n, eff.port, e) else n;
        if m.phase.Running? { HealthyClock(m, eff, e); } else { CrashedStays(m, eff, e); }
      } else {
        StillDown(n, e);
      }
    } else if e.read.RowGone? {
      StillDown(w, e);
    }
  }

  lemma NoteCrashPhase(w: Worker, e: Answers)
    ensures if w.phase.Running? && !(w.inst.Some? && e.alive) then NoteCrash(w, e).phase.Crashed?
            else NoteCrash(w, e) == w
  {
    hide Backoff, Calls;
  }

  lemma StillDown(w: Worker, e: Answers)
    ensures !BringDown(w, e).phase.Running?
  {
  }

  /** A restart comes back: the first readable wake-up after it brings the server up again if the calls
      succeed, with a fresh clock, so that it is within its limits until they are reached anew. */
  lemma {:induction false} RestartComesBack(w: Worker, e: Answers, unread: seq<Answers>, next: Answers, later: Answers)
    requires Healthy(w, e) && RestartDue(w, e)
    requires forall k :: 0 <= k < |unread| ==> unread[k].read.Unreadable?
    requires next.read.Spec? && next.read.eff.running
    requires next.flushOk && next.loadOk && next.start.Some? && next.addOk
    requires later.alive && later.read == next.read
    ensures var up := Reconcile(Reconciles(Reconcile(w, e), unread), next);
            && up.phase.Running? && up.inst == next.start && up.startedAt == next.doneTime && up.crashCount == 0
            && var eff := next.read.eff;
            (Reconcile(up, later).phase.Stopped? <==>
               var age := later.checkTime - next.doneTime;
               (eff.stopHrs > 0.0 && age >= Hours(eff.stopHrs) && later.persistOk)
               || (!(eff.stopHrs > 0.0 && age >= Hours(eff.stopHrs)) && eff.restartHrs > 0.0 && age >= Hours(eff.restartHrs)))
  {
    LimitsDecide(w, e);
    var v := Reconcile(w, e);
    UnreadLeaves(v, unread);
    BringUpRuns(v, next);
    var up := Reconcile(v, next);
    LimitsDecide(up, later);
  }

  lemma {:induction false} UnreadLeaves(w: Worker, es: seq<Answers>)
    requires forall k :: 0 <= k < |es| ==> es[k].read.Unreadable?
    ensures Reconciles(w, es) == w
  {
    if es != [] {
      UnreadLeaves(w, es[..|es| - 1]);
    }
  }

  lemma BringUpRuns(w: Worker, e: Answers)
    requires w.phase.Stopped? && e.read.Spec? && e.read.eff.running
    requires e.flushOk && e.loadOk && e.start.Some? && e.addOk
    ensures var up := Reconcile(w, e);
            && up.phase.Running? && up.inst == e.start && up.startedAt == e.doneTime && up.crashCount == 0
            && up.port == e.read.eff.port && up.ip == e.read.eff.ip
  {
    hide Called;
  }

  /** A stop stays: once the persisted desire is read back, no reconcile makes a call or leaves Stopped. */
  lemma {:induction false} StopStays(w: Worker, es: seq<Answers>)
    requires w.phase.Stopped?
    requires forall k :: 0 <= k < |es| ==> es[k].read.Unreadable? || (es[k].read.Spec? && !es[k].read.eff.running)
    ensures var v := Reconciles(w, es); v == w.(standalone := v.standalone)
  {
    hide BringUp, CheckLifecycle, Rebind, TeardownLive;
    if es != [] {
      StopStays(w, es[..|es| - 1]);
    }
  }

  predicate SameEnd(w: Worker, v: Worker)
  {
    v.unmanaged == w.unmanaged && v.cancelled == w.cancelled && v.standalone == w.standalone
  }

  lemma PartsKeepEnd(w: Worker, eff: Effective, e: Answers)
    ensures SameEnd(w, BringUp(w, eff, e)) && SameEnd(w, BringDown(w, e)) && SameEnd(w, NoteCrash(w, e))
    ensures SameEnd(w, Rebind(w, eff.port, e)) && BringDown(w, e).port == w.port
  {
    hide Backoff, Calls;
  }

  lemma LimitsKeepEnd(w: Worker, eff: Effective, e: Answers)
    ensures SameEnd(w, CheckLifecycle(w, eff, e))
  {
    hide Hours, BringDown;
    PartsKeepEnd(w, eff, e);
    PartsKeepEnd(w.(stopsAt := w.stopsAt + [|w.log|]), eff, e);
  }

  lemma ReadKeepsEnd(w: Worker, e: Answers)
    requires !e.read.RowGone?
    ensures SameEnd(if e.read.Spec? then w.(standalone := e.read.eff.standalone) else w, Reconcile(w, e))
  {
    hide BringUp, BringDown, Rebind, CheckLifecycle, NoteCrash, BackingOff;
    if e.read.Spec? {
      var eff := e.read.eff;
      var w0 := w.(standalone := eff.standalone);
      PartsKeepEnd(w0, eff, e);
      var n := NoteCrash(w0, e);
      PartsKeepEnd(n, eff, e);
      LimitsKeepEnd(n, eff, e);
      LimitsKeepEnd(Rebind(n, eff.port, e), eff, e);
    }
  }

  /** A worker unmanages a port only when its row is gone, and only the one its own backend was last
      registered on as a standalone server; it then cancels itself and holds no registration. */
  lemma UnmanagesOnlyItsOwn(w: Worker, e: Answers)
    requires Settled(w)
    ensures var v := Reconcile(w, e);
            && v.unmanaged == w.unmanaged + (if e.read.RowGone? && w.standalone && w.port != 0 then [w.port] else [])
            && (v.cancelled <==> w.cancelled || e.read.RowGone?)
            && (e.read.RowGone? ==> !v.phase.Running? && v.port == w.port)
            && v.standalone == if e.read.Spec? then e.read.eff.standalone else w.standalone
  {
    if e.read.RowGone? {
      hide BringDown;
      PartsKeepEnd(w, Effective(0, false, 0, false, 0.0, 0.0), e);
      BringDownSettles(w, e);
    } else {
      ReadKeepsEnd(w, e);
    }
  }

  // ---- Backoff ----

  lemma {:induction false} Pow2Monotone(m: nat, n: nat)
    requires m <= n
    ensures Pow2(m) <= Pow2(n)
    decreases n - m
  {
    if m < n {
      Pow2Monotone(m, n - 1);
    }
  }

  lemma Pow2Small()
    ensures Pow2(5) == 32 && Pow2(6) == 64 && Pow2(29) == 0x2000_0000
  {
    assert Pow2(5) == 32;
    assert Pow2(10) == 1024;
    assert Pow2(15) == 32768;
    assert Pow2(20) == 0x10_0000;
    assert Pow2(25) == 0x200_0000;
  }

  /** From the first failure on the delay is min(2^n s, 120 s), the shift never overflows int64, and
      more failures never shorten the wait. */
  lemma BackoffDoubles(n: int, m: int)
    requires n <= m
    ensures n >= 1 ==> Backoff(n) == if Pow2(n) <= 120 then Pow2(n) * SECOND else 120 * SECOND
    ensures 1 <= n <= 30 ==> BACKOFF_BASE * Pow2(n - 1) <= INT64_MAX
    ensures Backoff(n) <= Backoff(m)
  {
    Pow2Small();
    BackoffIs(n);
    BackoffIs(m);
    var n1, m1 := if n < 1 then 1 else n, if m < 1 then 1 else m;
    Pow2Monotone(n1, m1);
    if n <= 30 { Pow2Monotone(n1 - 1, 29); }
  }

  lemma BackoffIs(n: int)
    ensures var k := if n < 1 then 1 else n;
            Backoff(n) == if Pow2(k) * SECOND <= BACKOFF_MAX then Pow2(k) * SECOND else BACKOFF_MAX
  {
    Pow2Small();
    var k := if n < 1 then 1 else n;
    if k > 30 {
      Pow2Monotone(7, k);
      assert Pow2(7) == 128;
    } else {
      Pow2Monotone(k - 1, 29);
      var d := BACKOFF_BASE * Pow2(k - 1);
      assert d == Pow2(k) * SECOND;
      assert 0 < d <= INT64_MAX;
      assert Wrap64(d) == d;
    }
  }

  /** A retry is scheduled for the moment the current backoff elapses. */
  predicate RetryArmed(w: Worker)
  {
    w.crashCount >= 1 && w.timers != [] && w.timers[|w.timers| - 1] == w.crashedAt + Backoff(w.crashCount)
  }

  lemma MarkArms(w: Worker, now: Time)
    ensures RetryArmed(MarkCrashed(w, now))
  {
    hide Backoff;
  }

  lemma BringUpArms(w: Worker, eff: Effective, e: Answers)
    ensures BringUp(w, eff, e).phase.Crashed? ==> RetryArmed(BringUp(w, eff, e))
  {
    hide Backoff, Calls;
  }

  lemma RebindArms(w: Worker, port: Port, e: Answers)
    ensures !e.addOk ==> RetryArmed(Rebind(w, port, e))
    ensures e.addOk ==> Rebind(w, port, e).phase == w.phase
  {
    hide Backoff, Calls;
  }

  lemma BringDownKeepsCrash(w: Worker, e: Answers)
    ensures BringDown(w, e).phase.Crashed? ==> BringDown(w, e) == w
  {
    hide Calls;
  }

  /** Whenever a reconcile counts a failure, it schedules a wake-up for the end of the backoff. */
  lemma FailureSchedulesRetry(w: Worker, e: Answers)
    requires Reconcile(w, e).phase.Crashed? && Reconcile(w, e).crashCount != w.crashCount
    ensures RetryArmed(Reconcile(w, e))
  {
    hide BringUp, Rebind, BringDown, TeardownLive, MarkCrashed, RetryArmed, Hours;
    BringDownKeepsCrash(w, e);
    if e.read.Spec? {
      var eff := e.read.eff;
      var w0 := w.(standalone := eff.standalone);
      MarkArms(TeardownLive(w0, e), e.crashTime);
      var n := NoteCrash(w0, e);
      BringDownKeepsCrash(n, e);
      BringUpArms(n, eff, e);
      RebindArms(n, eff.port, e);
      var m := if n.port != eff.port then Rebind(n, eff.port, e) else n;
      BringDownKeepsCrash(m, e);
      BringDownKeepsCrash(m.(stopsAt := m.stopsAt + [|m.log|]), e);
      LifecycleKeepsArm(m, eff, e);
    }
  }

  lemma LifecycleKeepsArm(w: Worker, eff: Effective, e: Answers)
    ensures var c := CheckLifecycle(w, eff, e);
            c.phase.Crashed? ==> w.phase.Crashed? && (RetryArmed(w) ==> RetryArmed(c)) && c.crashCount == w.crashCount
  {
    hide BringDown, Hours, Backoff;
    BringDownKeepsCrash(w, e);
    BringDownKeepsCrash(w.(stopsAt := w.stopsAt + [|w.log|]), e);
  }

  /** While the server is wanted running, a crashed worker makes no call at all before its backoff
      has elapsed, however often it is woken; the first readable wake-up after that brings it up. */
  lemma {:induction false} RetryWaitsForBackoff(w: Worker, es: seq<Answers>, e: Answers)
    requires w.phase.Crashed?
    requires forall k :: 0 <= k < |es| ==> es[k].checkTime < w.crashedAt + Backoff(w.crashCount)
                                           && (es[k].read.Spec? ==> es[k].read.eff.running)
                                           && !es[k].read.RowGone?
    requires e.read.Spec? && e.read.eff.running
    ensures var v := Reconciles(w, es);
            && v == w.(standalone := v.standalone)
            && (Reconcile(v, e).log != v.log <==> e.checkTime >= w.crashedAt + Backoff(w.crashCount))
  {
    hide Backoff, Calls, Hours, BringUp, BringDown, TeardownLive, CheckLifecycle, Rebind, MarkCrashed;
    if es != [] {
      RetryWaitsForBackoff(w, es[..|es| - 1], e);
    }
    var v := Reconciles(w, es);
    var u := Reconcile(v, e);
    if !BackingOff(v, e.checkTime) {
      BringUpCalls(v.(standalone := e.read.eff.standalone), e.read.eff, e);
    }
  }

  lemma BringUpCalls(w: Worker, eff: Effective, e: Answers)
    ensures |BringUp(w, eff, e).log| > |w.log|
  {
    hide Backoff;
  }
}
