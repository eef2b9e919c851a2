/** The manager's run together with what its workers do in it: every reconcile and every final
    bring-down of Manager's step machine is one of WorkerState's, with the answers it got. */
module FleetRun {
  import opened Wrappers
  import opened RouterState
  import opened CallProtocol
  import opened WorkerState
  import opened WorkerTheorems
  import opened WorkerEffects
  import opened Composition
  import M = Manager
  import ProxyMachine
  import Isolation

  /** A step of the fleet; the answers matter only when a worker acts or is brought down. */
  datatype Did = Did(act: M.Action, e: Answers)

  function Acts(run: seq<Did>): seq<M.Action>
  {
    seq(|run|, i requires 0 <= i < |run| => run[i].act)
  }

  function State(run: seq<Did>): Option<M.Fleet> { M.Run(Acts(run)) }

  /** The state before the last step. */
  lemma BeforeLast(run: seq<Did>)
    requires run != [] && State(run).Some?
    ensures var pre, a := run[..|run| - 1], run[|run| - 1].act;
            State(pre).Some? && M.Enabled(State(pre).value, a) && State(run) == Some(M.Step(State(pre).value, a))
  {
    assert Acts(run)[..|run| - 1] == Acts(run[..|run| - 1]);
  }

  function Doing(w: Worker, id: M.Id, d: Did): Worker
  {
    if d.act.WorkerActs? && d.act.id == id then Reconcile(w, d.e)
    else if d.act.WorkerDown? && d.act.id == id then BringDown(w, d.e)
    else w
  }

  /** Worker `id` after the run. */
  function WorkerOf(run: seq<Did>, id: M.Id): Worker
  {
    if run == [] then SPAWNED else Doing(WorkerOf(run[..|run| - 1], id), id, run[|run| - 1])
  }

  /** The answers to the reconciles of worker `id`. */
  function AnswersTo(run: seq<Did>, id: M.Id): seq<Answers>
  {
    if run == [] then []
    else
      var d := run[|run| - 1];
      AnswersTo(run[..|run| - 1], id) + if d.act.WorkerActs? && d.act.id == id then [d.e] else []
  }

  /** The answers fit the reads the manager's machine has made, and the worker wakes itself when it
      restarts its server. */
  ghost predicate Coherent(run: seq<Did>)
    requires State(run).Some?
  {
    run == [] ||
    var pre, d := run[..|run| - 1], run[|run| - 1];
    BeforeLast(run);
    && Coherent(pre)
    && (d.act.WorkerActs? ==>
          var p := State(pre).value.procs[d.act.id];
          var w := WorkerOf(pre, d.act.id);
          && (d.e.read.RowGone? <==> p.gone) && (d.e.read.Unreadable? <==> p.refused)
          && (d.act.again <==> Reconcile(w.(nudged := false), d.e).nudged))
  }

  // ---- One worker at a time ----

  /** Worker `id` of server `n` has yet to be brought down. */
  predicate Active(f: M.Fleet, id: M.Id, n: M.Name)
  {
    id in f.procs && f.procs[id].name == n && M.Registered(f.procs[id]) && !f.procs[id].down
  }

  predicate Touches(f: M.Fleet, a: M.Action, n: M.Name)
  {
    (a.WorkerActs? || a.WorkerDown?) && a.id in f.procs && f.procs[a.id].name == n
  }

  /** The calls made by the workers of server `n`, in the order of the run. */
  function NameLog(run: seq<Did>, n: M.Name): seq<Entry>
    requires State(run).Some?
  {
    if run == [] then []
    else
      var pre, d := run[..|run| - 1], run[|run| - 1];
      BeforeLast(run);
      if Touches(State(pre).value, d.act, n) then
        var w := WorkerOf(pre, d.act.id);
        NameLog(pre, n) + Since(w.log, Doing(w, d.act.id, d).log)
      else NameLog(pre, n)
  }

  /** What a log has gained. */
  function Since(old_: seq<Entry>, new_: seq<Entry>): seq<Entry>
  {
    if |old_| <= |new_| then new_[|old_|..] else []
  }

  /** The run as a succession of lives, with the present worker's answers. */
  function Story(run: seq<Did>, n: M.Name): Succession
    requires State(run).Some?
  {
    if run == [] then Succession([], [], [])
    else
      var pre, d := run[..|run| - 1], run[|run| - 1];
      BeforeLast(run);
      var st := Story(pre, n);
      if !Touches(State(pre).value, d.act, n) then st
      else if d.act.WorkerActs? then st.(es := st.es + [d.e])
      else Succession(st.lives + [Life(st.es, d.e)], [], [])
  }

  function LivesLog(lives: seq<Life>): seq<Entry>
  {
    if lives == [] then [] else LivesLog(lives[..|lives| - 1]) + Ended(lives[|lives| - 1]).log
  }

  lemma {:induction false} CallsToConcat(x: seq<Entry>, y: seq<Entry>, a: Addr)
    ensures CallsTo(x + y, a) == CallsTo(x, a) + CallsTo(y, a)
  {
    if y == [] {
      assert x + y == x;
    } else {
      assert (x + y)[..|x + y| - 1] == x + y[..|y| - 1];
      CallsToConcat(x, y[..|y| - 1], a);
    }
  }

  lemma {:induction false} LivesLogCalls(lives: seq<Life>, a: Addr)
    ensures CallsTo(LivesLog(lives), a) == CallsOfLives(lives, a)
  {
    hide Ended;
    if lives != [] {
      LivesLogCalls(lives[..|lives| - 1], a);
      CallsToConcat(LivesLog(lives[..|lives| - 1]), Ended(lives[|lives| - 1]).log, a);
    }
  }

  lemma LogGrows(w: Worker, e: Answers)
    ensures w.log <= Reconcile(w, e).log && w.log <= BringDown(w, e).log
  {
    hide BringUp, BringDown, Rebind, CheckLifecycle, NoteCrash, BackingOff;
    PartsGrow(w, Effective(0, false, 0, false, 0.0, 0.0), e);
    if e.read.Spec? {
      var eff := e.read.eff;
      var w0 := w.(standalone := eff.standalone);
      PartsGrow(w0, eff, e);
      var n := NoteCrash(w0, e);
      PartsGrow(n, eff, e);
      LimitsGrow(n, eff, e);
      LimitsGrow(Rebind(n, eff.port, e), eff, e);
    }
  }

  lemma PartsGrow(w: Worker, eff: Effective, e: Answers)
    ensures w.log <= BringUp(w, eff, e).log && w.log <= BringDown(w, e).log
    ensures w.log <= Rebind(w, eff.port, e).log && w.log <= NoteCrash(w, e).log
  {
    hide Backoff, Calls, BringUp;
    BringUpGrows(w, eff, e);
  }

  lemma BringUpGrows(w: Worker, eff: Effective, e: Answers)
    ensures w.log <= BringUp(w, eff, e).log
  {
    hide Backoff, Calls;
  }

  lemma LimitsGrow(w: Worker, eff: Effective, e: Answers)
    ensures w.log <= CheckLifecycle(w, eff, e).log
  {
    hide Hours, BringDown;
    PartsGrow(w, eff, e);
    PartsGrow(w.(stopsAt := w.stopsAt + [|w.log|]), eff, e);
  }

  ghost predicate PresentAsTold(run: seq<Did>, n: M.Name)
    requires State(run).Some?
  {
    var f := State(run).value; var st := Story(run, n);
    && (forall id :: Active(f, id, n) ==> WorkerOf(run, id) == Reconciles(SPAWNED, st.es))
    && ((forall id :: !Active(f, id, n)) ==> st.es == [])
  }

  ghost predicate OneAtATime(run: seq<Did>, n: M.Name)
    requires State(run).Some?
  {
    var f := State(run).value; var st := Story(run, n);
    && PresentAsTold(run, n)
    && (forall id :: id !in f.procs ==> WorkerOf(run, id) == SPAWNED)
    && NameLog(run, n) == LivesLog(st.lives) + Reconciles(SPAWNED, st.es).log
  }

  /** A dispatch only adds workers, which have done nothing yet. */
  lemma ActiveDispatch(f: M.Fleet, n: M.Name)
    requires M.Inv(f) && M.Enabled(f, M.Dispatch)
    ensures var g := M.Step(f, M.Dispatch);
            && (forall id :: id in f.procs ==> id in g.procs && g.procs[id] == f.procs[id])
            && (forall id :: Active(f, id, n) ==> Active(g, id, n))
            && (forall id :: Active(g, id, n) ==> Active(f, id, n) || id !in f.procs)
  {
    M.SpawnAllExtends(f, f.loop.names);
    hide M.OneController, M.Successive, M.Inv, M.Registered;
  }

  /** Any other step leaves the workers there are, and ends at most the one it brings down. */
  lemma ActiveStep(f: M.Fleet, a: M.Action, n: M.Name)
    requires M.Inv(f) && M.Enabled(f, a) && !a.Dispatch?
    ensures var g := M.Step(f, a);
            && g.procs.Keys == f.procs.Keys
            && (forall id :: id in f.procs ==> g.procs[id].name == f.procs[id].name)
            && (forall id :: Active(g, id, n) <==> Active(f, id, n) && !(a.WorkerDown? && a.id == id))
  {
    hide M.Step, M.Enabled, M.Registered;
    if a.WorkerExited? || a.WorkerFinished? {
      ExitLeavesDown(f, a);
      hide M.Inv;
    } else if M.OfLoop(a) {
      LoopLeavesProcs(f, a);
      hide M.Inv;
    } else {
      M.WorkerMoves(f, a);
      hide M.Inv;
    }
  }

  lemma ExitLeavesDown(f: M.Fleet, a: M.Action)
    requires M.Inv(f) && M.Enabled(f, a) && (a.WorkerExited? || a.WorkerFinished?)
    ensures a.id in f.procs && f.procs[a.id].down
    ensures var g := M.Step(f, a);
            a.id in g.procs && g.procs == f.procs[a.id := g.procs[a.id]] && g.procs[a.id].down
            && g.procs[a.id].name == f.procs[a.id].name
  {
    M.DownAsSaid(f, a.id);
    hide M.Inv;
  }

  lemma LoopLeavesProcs(f: M.Fleet, a: M.Action)
    requires M.Enabled(f, a) && M.OfLoop(a)
    ensures M.Step(f, a).procs == f.procs
  {
  }

  lemma ActiveOnce(f: M.Fleet, i: M.Id, j: M.Id, n: M.Name)
    requires M.Inv(f) && Active(f, i, n) && Active(f, j, n)
    ensures i == j
  {
    hide M.NobodyForgotten, M.RowsAwaited, M.Successive;
  }

  /** A worker that acts or is brought down is active until then. */
  lemma TouchedIsActive(f: M.Fleet, a: M.Action, n: M.Name)
    requires M.Inv(f) && M.Enabled(f, a) && Touches(f, a, n)
    ensures Active(f, a.id, n)
  {
    M.DownAsSaid(f, a.id);
    hide M.Inv;
  }

  lemma NewWorkersIdle(run: seq<Did>, n: M.Name)
    requires run != [] && State(run).Some? && State(run[..|run| - 1]).Some?
    requires OneAtATime(run[..|run| - 1], n) && run[|run| - 1].act.Dispatch?
    ensures OneAtATime(run, n)
  {
    hide M.Enabled, M.Step, Reconcile;
    BeforeLast(run);
    assert Reconciles(SPAWNED, []) == SPAWNED;
    var pre := run[..|run| - 1];
    var f := State(pre).value;
    InvState(pre);
    ActiveDispatch(f, n);
    assert forall id :: WorkerOf(run, id) == WorkerOf(pre, id);
    if id :| Active(f, id, n) {
      forall other | Active(State(run).value, other, n)
        ensures other == id
      {
        InvState(run);
        ActiveOnce(State(run).value, other, id, n);
      }
    }
  }

  lemma InvState(run: seq<Did>)
    requires State(run).Some?
    ensures M.Inv(State(run).value)
  {
    M.InvRun(Acts(run));
  }

  lemma SinceJoins(before: seq<Entry>, old_: seq<Entry>, new_: seq<Entry>)
    requires old_ <= new_
    ensures before + old_ + Since(old_, new_) == before + new_
  {
  }

  /** What a step of one of the server's workers adds to its story, its log and its lives. */
  lemma TurnTold(run: seq<Did>, n: M.Name)
    requires run != [] && State(run).Some? && State(run[..|run| - 1]).Some?
    requires Touches(State(run[..|run| - 1]).value, run[|run| - 1].act, n)
    ensures var pre, d := run[..|run| - 1], run[|run| - 1]; var st := Story(pre, n); var w := WorkerOf(pre, d.act.id);
            && NameLog(run, n) == NameLog(pre, n) + Since(w.log, Doing(w, d.act.id, d).log)
            && WorkerOf(run, d.act.id) == Doing(w, d.act.id, d)
            && Story(run, n) == (if d.act.WorkerActs? then st.(es := st.es + [d.e])
                                 else Succession(st.lives + [Life(st.es, d.e)], [], []))
  {
    hide M.Enabled, M.Step, Doing;
    BeforeLast(run);
  }

  lemma TurnLog(st: Succession, e: Answers)
    ensures Reconciles(SPAWNED, st.es + [e]) == Reconcile(Reconciles(SPAWNED, st.es), e)
    ensures LivesLog(st.lives + [Life(st.es, e)]) == LivesLog(st.lives) + BringDown(Reconciles(SPAWNED, st.es), e).log
    ensures Reconciles(SPAWNED, []) == SPAWNED
  {
    hide Reconcile, BringDown;
    assert (st.es + [e])[..|st.es|] == st.es;
    var lives := st.lives + [Life(st.es, e)];
    assert lives[..|st.lives|] == st.lives;
  }

  lemma TurnLogs(run: seq<Did>, n: M.Name)
    requires run != [] && State(run).Some? && State(run[..|run| - 1]).Some?
    requires Touches(State(run[..|run| - 1]).value, run[|run| - 1].act, n)
    requires var pre := run[..|run| - 1]; var st := Story(pre, n);
             && WorkerOf(pre, run[|run| - 1].act.id) == Reconciles(SPAWNED, st.es)
             && NameLog(pre, n) == LivesLog(st.lives) + Reconciles(SPAWNED, st.es).log
    ensures var st := Story(run, n); NameLog(run, n) == LivesLog(st.lives) + Reconciles(SPAWNED, st.es).log
  {
    TurnTold(run, n);
    hide Reconcile, Reconciles, BringDown, NameLog, Story, State, LivesLog, Since, Touches;
    var pre, d := run[..|run| - 1], run[|run| - 1];
    var st := Story(pre, n);
    var w := WorkerOf(pre, d.act.id);
    LogGrows(w, d.e);
    TurnLog(st, d.e);
    SinceJoins(LivesLog(st.lives), w.log, Doing(w, d.act.id, d).log);
    assert SPAWNED.log == [];
  }

  /** A step of one of the server's workers. */
  lemma WorkersTurn(run: seq<Did>, n: M.Name)
    requires run != [] && State(run).Some? && State(run[..|run| - 1]).Some?
    requires OneAtATime(run[..|run| - 1], n) && Touches(State(run[..|run| - 1]).value, run[|run| - 1].act, n)
    ensures OneAtATime(run, n)
  {
    BeforeLast(run);
    hide M.Enabled, M.Step, M.Inv, Reconcile, Reconciles, BringDown, NameLog, Story, State, LivesLog, Active, Since;
    var pre, d := run[..|run| - 1], run[|run| - 1];
    var f := State(pre).value;
    InvState(pre);
    TouchedIsActive(f, d.act, n);
    TurnLogs(run, n);
    TurnPresent(run, n);
    ActiveStep(f, d.act, n);
    hide PresentAsTold;
    OthersIdle(run);
  }

  lemma TurnPresent(run: seq<Did>, n: M.Name)
    requires run != [] && State(run).Some? && State(run[..|run| - 1]).Some?
    requires PresentAsTold(run[..|run| - 1], n) && Touches(State(run[..|run| - 1]).value, run[|run| - 1].act, n)
    ensures PresentAsTold(run, n)
  {
    BeforeLast(run);
    TurnTold(run, n);
    hide M.Enabled, M.Step, M.Inv, Reconcile, Reconciles, BringDown, NameLog, Story, State, LivesLog, Active, Since, WorkerOf;
    var pre, d := run[..|run| - 1], run[|run| - 1];
    var f, id := State(pre).value, d.act.id;
    InvState(pre);
    TouchedIsActive(f, d.act, n);
    ActiveStep(f, d.act, n);
    TurnLog(Story(pre, n), d.e);
    forall other | Active(f, other, n)
      ensures other == id
    {
      ActiveOnce(f, other, id, n);
    }
  }

  lemma OthersIdle(run: seq<Did>)
    requires run != []
    ensures var pre, d := run[..|run| - 1], run[|run| - 1];
            forall id :: !((d.act.WorkerActs? || d.act.WorkerDown?) && d.act.id == id) ==> WorkerOf(run, id) == WorkerOf(pre, id)
  {
    hide Reconcile, BringDown;
  }

  lemma OthersTurn(run: seq<Did>, n: M.Name)
    requires run != [] && State(run).Some? && State(run[..|run| - 1]).Some?
    requires OneAtATime(run[..|run| - 1], n) && !run[|run| - 1].act.Dispatch?
    requires !Touches(State(run[..|run| - 1]).value, run[|run| - 1].act, n)
    ensures OneAtATime(run, n)
  {
    hide M.Step, M.Inv, Reconcile, BringDown, Reconciles;
    BeforeLast(run);
    var pre, d := run[..|run| - 1], run[|run| - 1];
    var f := State(pre).value;
    InvState(pre);
    ActiveStep(f, d.act, n);
    assert d.act.WorkerActs? || d.act.WorkerDown? ==> d.act.id in f.procs;
    hide M.Enabled;
    assert forall id :: Active(f, id, n) ==> WorkerOf(run, id) == WorkerOf(pre, id);
  }

  /** Along every run the workers of one server come one after another: their calls are those of ended
      lives and then of the present worker. */
  lemma {:induction false} AlwaysOneAtATime(run: seq<Did>, n: M.Name)
    requires State(run).Some?
    ensures OneAtATime(run, n)
  {
    if run == [] {
      assert Acts(run) == [];
    } else {
      hide OneAtATime, M.Enabled, M.Step;
      var pre, d := run[..|run| - 1], run[|run| - 1];
      BeforeLast(run);
      AlwaysOneAtATime(pre, n);
      if d.act.Dispatch? {
        NewWorkersIdle(run, n);
      } else if Touches(State(pre).value, d.act, n) {
        WorkersTurn(run, n);
      } else {
        OthersTurn(run, n);
      }
    }
  }

  /** The manager's bookkeeping is what isolation needs: while only the workers of one server call for an
      address, whatever part of their calls has been made, every flow to it was opened to the container
      running there. */
  lemma ServerKeepsIsolation(run: seq<Did>, n: M.Name, acts: seq<ProxyMachine.Action>, a: Addr, later: seq<Event>)
    requires State(run).Some?
    requires ProxyMachine.Run(acts).Some? && ProxyMachine.Run(acts).value.adds < U32
    requires Isolation.DeletesSucceed(acts, a) && Isolation.NeverDiscarded(acts, a)
    requires CallsTo(NameLog(run, n), a) == Isolation.Log(acts, a) + later
    ensures Isolation.Isolated(ProxyMachine.Run(acts).value, a)
  {
    hide *;
    AlwaysOneAtATime(run, n);
    var st := Story(run, n);
    StoryCalls(run, n, a);
    WorkersKeepIsolation(acts, a, st.lives, st.es, later);
  }

  lemma StoryCalls(run: seq<Did>, n: M.Name, a: Addr)
    requires State(run).Some? && OneAtATime(run, n)
    ensures var st := Story(run, n);
            CallsTo(NameLog(run, n), a) == CallsSoFar(st.lives, Reconciles(SPAWNED, st.es), a)
  {
    hide Reconciles, State, M.Run;
    var st := Story(run, n);
    CallsToConcat(LivesLog(st.lives), Reconciles(SPAWNED, st.es).log, a);
    LivesLogCalls(st.lives, a);
  }

  // ---- What is left when the manager returns ----

  /** The answers to the bring-down of worker `id`, if it has had it. */
  function LastTo(run: seq<Did>, id: M.Id): Option<Answers>
  {
    if run == [] then None
    else
      var d := run[|run| - 1];
      if d.act.WorkerDown? && d.act.id == id then Some(d.e) else LastTo(run[..|run| - 1], id)
  }

  function Lived(es: seq<Answers>, last: Option<Answers>): Worker
  {
    var w := Reconciles(SPAWNED, es);
    if last.Some? then BringDown(w, last.value) else w
  }

  /** A worker is what its reconciles made of it, and then its bring-down. */
  ghost predicate AsAnswered(run: seq<Did>, id: M.Id)
    requires State(run).Some?
  {
    var f := State(run).value;
    && WorkerOf(run, id) == Lived(AnswersTo(run, id), LastTo(run, id))
    && (LastTo(run, id).Some? <==> id in f.procs && f.procs[id].down)
  }

  lemma DispatchDown(f: M.Fleet, id: M.Id)
    requires M.Inv(f) && M.Enabled(f, M.Dispatch)
    ensures var g := M.Step(f, M.Dispatch);
            && (id in f.procs ==> id in g.procs && g.procs[id] == f.procs[id])
            && (id in g.procs && id !in f.procs ==> !g.procs[id].down)
  {
    hide M.SpawnAll;
    M.SpawnAllExtends(f, f.loop.names);
    var g := M.SpawnAll(f, f.loop.names);
    if id in g.procs && id !in f.procs { M.DownAsSaid(g, id); }
    hide M.OneController, M.Successive, M.Inv;
  }

  lemma DownStays(f: M.Fleet, a: M.Action, id: M.Id)
    requires M.Inv(f) && M.Enabled(f, a)
    ensures var g := M.Step(f, a);
            && (id in f.procs ==> id in g.procs)
            && (id in g.procs && g.procs[id].down <==>
                  (id in f.procs && f.procs[id].down) || (a.WorkerDown? && a.id == id))
            && (a.WorkerActs? || a.WorkerDown? ==> a.id in f.procs && !f.procs[a.id].down)
  {
    if a.Dispatch? {
      DispatchDown(f, id);
      hide M.Inv, M.Step, M.Enabled;
    } else if M.OfLoop(a) {
      LoopLeavesProcs(f, a);
      hide M.Inv, M.Step, M.Enabled;
    } else if a.WorkerExited? || a.WorkerFinished? {
      ExitLeavesDown(f, a);
      hide M.Inv, M.Step, M.Enabled;
    } else {
      M.WorkerMoves(f, a);
      M.DownAsSaid(f, a.id);
      hide M.Inv, M.Step;
    }
  }

  lemma LivedOn(es: seq<Answers>, e: Answers)
    ensures Lived(es + [e], None) == Reconcile(Lived(es, None), e)
    ensures Lived(es, Some(e)) == BringDown(Lived(es, None), e)
  {
    hide Reconcile, BringDown;
    assert (es + [e])[..|es|] == es;
  }

  lemma {:induction false} AlwaysAsAnswered(run: seq<Did>, id: M.Id)
    requires State(run).Some?
    ensures AsAnswered(run, id)
  {
    if run == [] {
      assert Acts(run) == [];
    } else {
      BeforeLast(run);
      hide M.Enabled, M.Step, M.Inv, Reconcile, BringDown, State, Lived;
      var pre, d := run[..|run| - 1], run[|run| - 1];
      InvState(pre);
      AlwaysAsAnswered(pre, id);
      DownStays(State(pre).value, d.act, id);
      LivedOn(AnswersTo(pre, id), d.e);
      assert AnswersTo(pre, id) + [] == AnswersTo(pre, id);
    }
  }

  /** No rebind in this worker's life failed to register. */
  predicate NoRebindFailed(es: seq<Answers>)
  {
    forall k :: 0 <= k < |es| ==> !RebindFails(Reconciles(SPAWNED, es[..k]), es[k])
  }

  /** When Run has returned, no worker ever spawned holds an instance or has left a container up, except
      one with a failed rebind in its life. */
  lemma ReturnedHoldsNothing(run: seq<Did>, id: M.Id)
    requires State(run).Some? && State(run).value.loop.Returned? && id in State(run).value.procs
    requires NoRebindFailed(AnswersTo(run, id))
    ensures WorkerOf(run, id).inst.None? && !WorkerOf(run, id).phase.Running?
    ensures forall a :: !Up(WorkerOf(run, id).log, a)
  {
    hide Reconciles, BringDown, Up;
    NothingLeftUp(AnswersTo(run, id));
    M.ReturnMeansAllDown(Acts(run), id);
    AlwaysAsAnswered(run, id);
    var es := AnswersTo(run, id);
    AlwaysTight(es);
    AlwaysSettled(es);
    BringDownSettles(Reconciles(SPAWNED, es), LastTo(run, id).value);
  }

  lemma DoingCancels(w: Worker, id: M.Id, d: Did)
    ensures Doing(w, id, d).cancelled <==>
              w.cancelled || (d.act.WorkerActs? && d.act.id == id && d.e.read.RowGone?)
  {
    hide BringDown, NoteCrash, BringUp, Rebind, CheckLifecycle, BackingOff;
    PartsKeepEnd(w, Effective(0, false, 0, false, 0.0, 0.0), d.e);
    if !d.e.read.RowGone? { ReadKeepsEnd(w, d.e); }
  }

  lemma StepCancels(f: M.Fleet, a: M.Action, id: M.Id)
    requires M.Inv(f) && M.Enabled(f, a) && id in f.procs
    ensures var g := M.Step(f, a);
            id in g.procs && (g.procs[id].cancelled <==>
              f.procs[id].cancelled || (a.WorkerActs? && a.id == id && f.procs[id].gone))
  {
    hide M.SpawnAll;
    if a.Dispatch? {
      M.SpawnAllExtends(f, f.loop.names);
      hide M.Inv, M.OneController, M.Successive;
    } else if M.OfLoop(a) {
      LoopLeavesProcs(f, a);
      hide M.Inv, M.Step, M.Enabled;
    } else {
      OwnCancel(f, a);
      hide M.Inv, M.Step, M.Enabled;
    }
  }

  lemma OwnCancel(f: M.Fleet, a: M.Action)
    requires M.Enabled(f, a) && !M.OfLoop(a) && !a.Dispatch?
    ensures var g := M.Step(f, a);
            && a.id in f.procs && a.id in g.procs && g.procs == f.procs[a.id := g.procs[a.id]]
            && (g.procs[a.id].cancelled <==> f.procs[a.id].cancelled || (a.WorkerActs? && f.procs[a.id].gone))
  {
    hide M.SpawnAll;
  }

  lemma FreshNotCancelled(f: M.Fleet, a: M.Action, id: M.Id)
    requires M.Inv(f) && M.Enabled(f, a) && id !in f.procs && id in M.Step(f, a).procs
    ensures !M.Step(f, a).procs[id].cancelled && a.Dispatch?
  {
    hide M.SpawnAll;
    if a.Dispatch? {
      M.SpawnAllExtends(f, f.loop.names);
      hide M.Inv, M.OneController, M.Successive;
    } else if M.OfLoop(a) {
      LoopLeavesProcs(f, a);
      hide M.Inv, M.Step, M.Enabled;
    } else {
      OwnCancel(f, a);
      hide M.Inv, M.Step, M.Enabled;
    }
  }

  /** The manager's machine cancels exactly the workers that have reaped, which have read that their row
      is gone. */
  lemma {:induction false} CancelledAgrees(run: seq<Did>, id: M.Id)
    requires State(run).Some? && Coherent(run)
    ensures id in State(run).value.procs ==> (State(run).value.procs[id].cancelled <==> WorkerOf(run, id).cancelled)
    ensures id !in State(run).value.procs ==> WorkerOf(run, id) == SPAWNED
  {
    if run == [] {
      assert Acts(run) == [];
    } else {
      BeforeLast(run);
      hide M.Enabled, M.Step, M.Inv, Doing, State;
      var pre, d := run[..|run| - 1], run[|run| - 1];
      var f := State(pre).value;
      InvState(pre);
      CancelledAgrees(pre, id);
      DoingCancels(WorkerOf(pre, id), id, d);
      if id in f.procs {
        StepCancels(f, d.act, id);
      } else {
        DownStays(f, d.act, id);
        NotYetDoing(WorkerOf(pre, id), id, d, f);
        if id in State(run).value.procs { FreshNotCancelled(f, d.act, id); }
      }
    }
  }

  lemma NotYetDoing(w: Worker, id: M.Id, d: Did, f: M.Fleet)
    requires id !in f.procs && (d.act.WorkerActs? || d.act.WorkerDown? ==> d.act.id in f.procs)
    ensures Doing(w, id, d) == w
  {
  }

  /** A worker that takes its server down for a restart has a wake-up in its slot. */
  lemma RestartIsWoken(run: seq<Did>)
    requires run != [] && State(run).Some? && Coherent(run) && run[|run| - 1].act.WorkerActs?
    requires State(run[..|run| - 1]).Some? && run[|run| - 1].act.id in State(run).value.procs
    ensures var id, e := run[|run| - 1].act.id, run[|run| - 1].e;
            var w := WorkerOf(run[..|run| - 1], id);
            Healthy(w, e) && RestartDue(w, e) ==>
              WorkerOf(run, id).phase.Stopped? && State(run).value.procs[id].slot
  {
    hide Reconcile, M.SpawnAll;
    BeforeLast(run);
    var id, e := run[|run| - 1].act.id, run[|run| - 1].e;
    var w := WorkerOf(run[..|run| - 1], id);
    if Healthy(w, e) && RestartDue(w, e) {
      LimitsDecide(w, e);
      LimitsDecide(w.(nudged := false), e);
    }
  }
}
