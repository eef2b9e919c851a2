/** `orchestration/fleet/manager.go` and the goroutines it starts, as a step machine: API handlers
    that write and then nudge, the discovery loop, and one goroutine per worker. One-slot channels
    are booleans. A step is one channel operation, one database read, or one locked section. */
module Manager {
  import opened Wrappers

  type Name = nat
  type Id = nat  // identity of one spawned worker object

  /** Where a worker goroutine is. Reading: about to resolve its spec; Acting: after that read;
      Waiting: in its select; then the exit path in the order its deferred calls run. */
  datatype WorkerPc = Reading | Acting | Waiting | BringingDown | Unregistering | Finishing | Done

  /** `asked` is the number of writes made before the latest spec read, `tried` before the latest one
      that was answered; `refused` says that the latest one was not, and `gone` that it found no row;
      `down` records that the final bring-down ran. */
  datatype Proc = Proc(name: Name, pc: WorkerPc, slot: bool, cancelled: bool,
                       asked: nat, tried: nat, refused: bool, gone: bool, down: bool)

  /** Where the discovery loop is. */
  datatype LoopPc =
    | Waits
    | Listing                       // dispatch entered; ListServers is next
    | Listed(names: seq<Name>, ok: bool)  // the locked section is next
    | Waking(todo: set<Id>)
    | Draining                      // context cancelled; waiting for the WaitGroup
    | Returned

  /** `rows` are the server rows in the database. `writes` counts API writes and `promised` is the
      latest write whose handler has also nudged; `created` says which write made each row. `unlisted`
      says that the latest listing was cut short, and `exited` holds the names whose worker has
      exited since the latest dispatch looked at the workers. */
  datatype Fleet = Fleet(
    rows: set<Name>, writes: nat, promised: nat, created: map<Name, nat>,
    slot: bool, loop: LoopPc, stopped: bool, unlisted: bool, exited: set<Name>,
    workers: map<Name, Id>, procs: map<Id, Proc>, nextId: Id, waitGroup: set<Id>)

  datatype Action =
    | Write                         // a change to some row
    | CreateRow(name: Name)
    | DeleteRow(name: Name)
    | Nudge(write: nat)
    | Stop
    | TakeNudge
    | Tick
    | List(names: seq<Name>, ok: bool)  // an error may come after some of the rows
    | Dispatch
    | WakeNext(id: Id)
    | WakeEnd
    | LoopCancelled
    | LoopReturn
    | Wake(id: Id)                  // a backoff timer or a docker event
    | WorkerTakes(id: Id)
    | WorkerTick(id: Id)
    | WorkerReads(id: Id, ok: bool)
    | WorkerActs(id: Id, again: bool)   // reaps if its row was gone; may wake itself
    | WorkerCancelled(id: Id)
    | WorkerDown(id: Id)
    | WorkerExited(id: Id)
    | WorkerFinished(id: Id)

  const START := Fleet({}, 0, 0, map[], false, Listing, false, false, {}, map[], map[], 0, {})

  predicate At(f: Fleet, id: Id, pc: WorkerPc)
  {
    id in f.procs && f.procs[id].pc == pc
  }

  predicate Enabled(f: Fleet, a: Action)
  {
    match a
    case Nudge(write) => write <= f.writes
    case TakeNudge => f.loop.Waits? && f.slot
    case Tick => f.loop.Waits?
    case List(names, ok) =>
      && f.loop.Listing? && (forall n :: n in names ==> n in f.rows)
      && (ok ==> forall n :: n in f.rows ==> n in names)
    case Dispatch => f.loop.Listed?
    case WakeNext(id) => f.loop.Waking? && id in f.loop.todo && id in f.procs
    case WakeEnd => f.loop.Waking? && f.loop.todo == {}
    case LoopCancelled => f.loop.Waits? && f.stopped
    case LoopReturn => f.loop.Draining? && f.waitGroup == {}
    case Wake(id) => id in f.procs
    case WorkerTakes(id) => At(f, id, Waiting) && f.procs[id].slot
    case WorkerTick(id) => At(f, id, Waiting)
    case WorkerReads(id, _) => At(f, id, Reading)
    case WorkerActs(id, _) => At(f, id, Acting)
    case WorkerCancelled(id) => At(f, id, Waiting) && (f.procs[id].cancelled || f.stopped)
    case WorkerDown(id) => At(f, id, BringingDown)
    case WorkerExited(id) => At(f, id, Unregistering)
    case WorkerFinished(id) => At(f, id, Finishing)
    case _ => true
  }

  function Set(f: Fleet, id: Id, p: Proc): Fleet
  {
    f.(procs := f.procs[id := p])
  }

  /** Spawns a worker for one name, if it has none. */
  function Spawn(f: Fleet, name: Name): Fleet
  {
    if name in f.workers then f
    else f.(workers := f.workers[name := f.nextId],
            procs := f.procs[f.nextId := Proc(name, Reading, false, false, 0, 0, false, false, false)],
            nextId := f.nextId + 1,
            waitGroup := f.waitGroup + {f.nextId})
  }

  function SpawnAll(f: Fleet, names: seq<Name>): Fleet
  {
    if names == [] then f else Spawn(SpawnAll(f, names[..|names| - 1]), names[|names| - 1])
  }

  function Step(f: Fleet, a: Action): Fleet
    requires Enabled(f, a)
  {
    match a
    case Write => f.(writes := f.writes + 1)
    case CreateRow(n) =>
      f.(writes := f.writes + 1, rows := f.rows + {n}, created := f.created[n := f.writes + 1])
    case DeleteRow(n) => f.(writes := f.writes + 1, rows := f.rows - {n})
    case Nudge(write) => f.(slot := true, promised := if write > f.promised then write else f.promised)
    case Stop => f.(stopped := true)
    case TakeNudge => f.(slot := false, loop := Listing)
    case Tick => f.(loop := Listing)
    case List(names, ok) => f.(loop := Listed(names, ok))
    case Dispatch =>
      var g := SpawnAll(f, f.loop.names);
      g.(loop := Waking(g.workers.Values), unlisted := !f.loop.ok, exited := {})
    case WakeNext(id) =>
      Set(f, id, f.procs[id].(slot := true)).(loop := Waking(f.loop.todo - {id}))
    case WakeEnd => f.(loop := Waits)
    case LoopCancelled => f.(loop := Draining)
    case LoopReturn => f.(loop := Returned)
    case Wake(id) => Set(f, id, f.procs[id].(slot := true))
    case WorkerTakes(id) => Set(f, id, f.procs[id].(slot := false, pc := Reading))
    case WorkerTick(id) => Set(f, id, f.procs[id].(pc := Reading))
    case WorkerReads(id, ok) =>
      var p := f.procs[id];
      Set(f, id, if ok then p.(pc := Acting, asked := f.writes, tried := f.writes, refused := false, gone := p.name !in f.rows)
                 else p.(pc := Acting, asked := f.writes, refused := true, gone := false))
    case WorkerActs(id, again) =>
      var p := f.procs[id];
      Set(f, id, p.(pc := Waiting, cancelled := p.cancelled || p.gone, slot := p.slot || again))
    case WorkerCancelled(id) => Set(f, id, f.procs[id].(pc := BringingDown))
    case WorkerDown(id) => Set(f, id, f.procs[id].(pc := Unregistering, down := true))
    case WorkerExited(id) =>
      var p := f.procs[id];
      var g := Set(f, id, p.(pc := Finishing));
      if p.name in f.workers && f.workers[p.name] == id then g.(workers := g.workers - {p.name}, exited := g.exited + {p.name}) else g
    case WorkerFinished(id) =>
      Set(f, id, f.procs[id].(pc := Done)).(waitGroup := f.waitGroup - {id})
  }

  function Run(acts: seq<Action>): Option<Fleet>
  {
    if acts == [] then Some(START)
    else
      var before := Run(acts[..|acts| - 1]);
      var a := acts[|acts| - 1];
      if before.Some? && Enabled(before.value, a) then Some(Step(before.value, a)) else None
  }

  // ---- One controller per server ----

  /** Between its spawn and workerExited. */
  predicate Registered(p: Proc)
  {
    !p.pc.Finishing? && !p.pc.Done?
  }

  predicate PastDown(pc: WorkerPc)
  {
    pc.Unregistering? || pc.Finishing? || pc.Done?
  }

  ghost predicate OneController(f: Fleet)
  {
    && (forall id :: id in f.procs ==> id < f.nextId)
    && (forall n :: n in f.workers ==>
          f.workers[n] in f.procs && Registered(f.procs[f.workers[n]]) && f.procs[f.workers[n]].name == n)
    && (forall id :: id in f.procs && Registered(f.procs[id]) ==>
          f.procs[id].name in f.workers && f.workers[f.procs[id].name] == id)
    && (forall id :: id in f.procs && !f.procs[id].pc.Done? <==> id in f.waitGroup)
    && (f.loop.Draining? || f.loop.Returned? ==> f.stopped)
    && (f.loop.Returned? ==> f.waitGroup == {})
    && (forall id :: id in f.procs ==> (PastDown(f.procs[id].pc) <==> f.procs[id].down))
  }

  /** Ids are given out in order, so an earlier worker of the same name has exited. */
  ghost predicate Successive(f: Fleet)
  {
    forall i, j :: i in f.procs && j in f.procs && i < j && f.procs[i].name == f.procs[j].name ==>
      !Registered(f.procs[i])
  }

  // ---- No lost wake-ups ----

  /** Something is still on its way that will make this worker read its spec again. */
  ghost predicate WakeupPending(f: Fleet, id: Id)
    requires id in f.procs
  {
    || f.slot || f.loop.Listing? || f.loop.Listed?
    || (f.loop.Waking? && id in f.loop.todo)
    || f.procs[id].slot || f.procs[id].pc.Reading?
  }

  predicate Attentive(f: Fleet, id: Id)
  {
    id in f.procs && !f.stopped && !f.procs[id].cancelled
    && InLoop(f.procs[id].pc)
  }

  /** The latest read came after the latest promised write, and was answered unless it was refused. */
  predicate UpToDate(f: Fleet, p: Proc)
  {
    f.promised <= p.asked && (p.asked == p.tried || p.refused)
  }

  ghost predicate NobodyForgotten(f: Fleet)
  {
    && f.promised <= f.writes
    && forall id :: Attentive(f, id) ==> WakeupPending(f, id) || UpToDate(f, f.procs[id])
  }

  /** A row whose creator has nudged. */
  predicate Owed(f: Fleet, n: Name)
  {
    n in f.rows && n in f.created && f.created[n] <= f.promised && !f.stopped
  }

  /** It has a worker, or a listing that will show it is on its way, or else the latest listing failed,
      or its name had a worker that exited after the latest dispatch had looked. */
  predicate Awaited(f: Fleet, n: Name)
  {
    || n in f.workers || f.slot || f.loop.Listing?
    || (f.loop.Listed? && (n in f.loop.names || !f.loop.ok))
    || f.unlisted || n in f.exited
  }

  ghost predicate RowsAwaited(f: Fleet)
  {
    && f.promised <= f.writes
    && (f.loop.Draining? || f.loop.Returned? ==> f.stopped)
    && (forall n :: Owed(f, n) ==> Awaited(f, n))
    // what a complete listing misses was created, and nudged for, since
    && (f.loop.Listed? && f.loop.ok ==> forall n :: Owed(f, n) ==> n in f.loop.names || f.slot)
  }

  ghost predicate Inv(f: Fleet)
  {
    && OneController(f) && Successive(f) && NobodyForgotten(f) && RowsAwaited(f)
    // only cancellation takes a worker out of its loop
    && forall id :: id in f.procs && (f.procs[id].pc.BringingDown? || f.procs[id].pc.Unregistering?) ==>
         f.stopped || f.procs[id].cancelled
  }

  ghost predicate Extends(f: Fleet, g: Fleet)
  {
    && g.(workers := f.workers, procs := f.procs, nextId := f.nextId, waitGroup := f.waitGroup) == f
    && (forall id :: id in f.procs ==> id in g.procs && g.procs[id] == f.procs[id])
    && (forall n :: n in f.workers ==> n in g.workers && g.workers[n] == f.workers[n])
    && (forall id :: id in g.procs && id !in f.procs ==>
          g.procs[id].pc.Reading? && !g.procs[id].cancelled && !g.procs[id].slot)
  }

  lemma SpawnExtends(f: Fleet, name: Name)
    requires forall id :: id in f.procs ==> id < f.nextId
    ensures Extends(f, Spawn(f, name)) && name in Spawn(f, name).workers
  {
  }

  lemma SpawnController(f: Fleet, name: Name)
    requires OneController(f) && !f.loop.Returned?
    ensures OneController(Spawn(f, name))
  {
    if name !in f.workers {
      var g := Spawn(f, name);
      assert forall id :: id in g.procs <==> id in f.procs || id == f.nextId;
      assert forall id :: id in f.procs ==> g.procs[id] == f.procs[id] && id != f.nextId;
      assert forall id :: id in f.procs && Registered(f.procs[id]) ==> f.procs[id].name != name;
    }
  }

  lemma SpawnSuccessive(f: Fleet, name: Name)
    requires OneController(f) && Successive(f)
    ensures Successive(Spawn(f, name))
  {
  }

  lemma ExtendsTransitive(f: Fleet, g: Fleet, h: Fleet)
    requires Extends(f, g) && Extends(g, h)
    ensures Extends(f, h)
  {
  }

  lemma IdsBelowNext(f: Fleet)
    requires OneController(f)
    ensures forall id :: id in f.procs ==> id < f.nextId
  {
  }

  lemma {:induction false} SpawnAllExtends(f: Fleet, names: seq<Name>)
    requires OneController(f) && Successive(f) && !f.loop.Returned?
    ensures var g := SpawnAll(f, names);
            && OneController(g) && Successive(g) && Extends(f, g)
            && (forall n :: n in names ==> n in g.workers)
  {
    hide OneController, Spawn, Successive;
    if names != [] {
      var k := |names| - 1;
      SpawnAllExtends(f, names[..k]);
      var g := SpawnAll(f, names[..k]);
      IdsBelowNext(g);
      SpawnExtends(g, names[k]);
      SpawnController(g, names[k]);
      SpawnSuccessive(g, names[k]);
      ExtendsTransitive(f, g, Spawn(g, names[k]));
    }
  }

  /** The registrations say nothing of the loop beyond these parts of it. */
  lemma SameProcs(f: Fleet, g: Fleet)
    requires OneController(f) && Successive(f)
    requires g.procs == f.procs && g.workers == f.workers && g.nextId == f.nextId && g.waitGroup == f.waitGroup
    requires f.stopped ==> g.stopped
    requires g.loop.Draining? || g.loop.Returned? ==> g.stopped
    requires g.loop.Returned? ==> g.waitGroup == {}
    ensures OneController(g) && Successive(g)
  {
  }

  lemma InvDispatch(f: Fleet)
    requires Inv(f) && Enabled(f, Dispatch)
    ensures Inv(Step(f, Dispatch))
  {
    SpawnAllExtends(f, f.loop.names);
    var g := SpawnAll(f, f.loop.names);
    SameProcs(g, Step(f, Dispatch));
    DispatchWakesAll(f, g);
    hide OneController, Successive, Enabled, NobodyForgotten;
    DispatchAwaits(f);
  }

  lemma DispatchWakesAll(f: Fleet, g: Fleet)
    requires Enabled(f, Dispatch) && NobodyForgotten(f) && Extends(f, g) && OneController(g)
    ensures NobodyForgotten(g.(loop := Waking(g.workers.Values), unlisted := !f.loop.ok, exited := {}))
  {
    forall id | Attentive(g, id)
      ensures id in g.workers.Values
    {
      assert g.workers[g.procs[id].name] == id;
    }
    hide OneController;
  }

  lemma DispatchAwaits(f: Fleet)
    requires Enabled(f, Dispatch) && RowsAwaited(f)
    requires var g := SpawnAll(f, f.loop.names);
             Extends(f, g) && forall n :: n in f.loop.names ==> n in g.workers
    ensures RowsAwaited(Step(f, Dispatch))
  {
    hide SpawnAll;
    var g := Step(f, Dispatch);
    forall n | Owed(g, n)
      ensures Awaited(g, n)
    {
      assert Owed(f, n);
    }
  }

  predicate OfLoop(a: Action)
  {
    a.Write? || a.CreateRow? || a.DeleteRow? || a.Nudge? || a.Stop? || a.TakeNudge? || a.Tick? || a.List?
    || a.WakeEnd? || a.LoopCancelled? || a.LoopReturn?
  }

  lemma InvLoop(f: Fleet, a: Action)
    requires Inv(f) && Enabled(f, a) && OfLoop(a)
    ensures Inv(Step(f, a))
  {
    var g := Step(f, a);
    LoopSameProcs(f, a);
    SameProcs(f, g);
    hide OneController, Successive, Enabled;
    LoopAwaits(f, a);
    LoopAttends(f, a);
    hide RowsAwaited, NobodyForgotten, Step;
  }

  lemma LoopSameProcs(f: Fleet, a: Action)
    requires Enabled(f, a) && OfLoop(a)
    ensures var g := Step(f, a);
            && g.procs == f.procs && g.workers == f.workers && g.nextId == f.nextId && g.waitGroup == f.waitGroup
            && (f.stopped ==> g.stopped)
            && (g.loop.Draining? || g.loop.Returned? ==> g.stopped || f.loop.Draining? || f.loop.Returned?)
            && (g.loop.Returned? ==> f.loop.Returned? || g.waitGroup == {})
  {
  }

  lemma LoopAttends(f: Fleet, a: Action)
    requires NobodyForgotten(f) && Enabled(f, a) && OfLoop(a)
    ensures NobodyForgotten(Step(f, a))
  {
    var g := Step(f, a);
    forall id | Attentive(g, id)
      ensures WakeupPending(g, id) || UpToDate(g, g.procs[id])
    {
      assert Attentive(f, id);
    }
  }

  lemma LoopAwaits(f: Fleet, a: Action)
    requires RowsAwaited(f) && Enabled(f, a) && OfLoop(a)
    ensures RowsAwaited(Step(f, a))
  {
    var g := Step(f, a);
    assert forall n :: Owed(g, n) && !a.Nudge? ==> Owed(f, n);
  }

  predicate InLoop(pc: WorkerPc)
  {
    pc.Reading? || pc.Acting? || pc.Waiting?
  }

  /** Changing what a worker does next, without registering, unregistering or finishing it. */
  lemma ProcUpdate(f: Fleet, id: Id, p: Proc, loop: LoopPc)
    requires OneController(f) && Successive(f) && id in f.procs
    requires loop == f.loop || (loop.Waking? && f.loop.Waking?)
    requires p.name == f.procs[id].name && (p.down <==> PastDown(p.pc))
    requires Registered(p) == Registered(f.procs[id]) && p.pc.Done? == f.procs[id].pc.Done?
    ensures OneController(Set(f, id, p).(loop := loop)) && Successive(Set(f, id, p).(loop := loop))
  {
    hide PastDown, Registered, Successive;
    UpdateSuccessive(f, id, p, loop);
  }

  lemma UpdateSuccessive(f: Fleet, id: Id, p: Proc, loop: LoopPc)
    requires Successive(f) && id in f.procs
    requires p.name == f.procs[id].name && Registered(p) == Registered(f.procs[id])
    ensures Successive(Set(f, id, p).(loop := loop))
  {
    hide Registered;
  }

  lemma ExitRegistration(f: Fleet, a: Action)
    requires OneController(f) && Successive(f) && Enabled(f, a) && (a.WorkerExited? || a.WorkerFinished?)
    ensures OneController(Step(f, a)) && Successive(Step(f, a))
  {
    var p := f.procs[a.id];
    if a.WorkerExited? {
      assert p.name in f.workers && f.workers[p.name] == a.id;
      Unregister(f, a.id);
    } else {
      Finish(f, a.id);
    }
  }

  lemma Unregister(f: Fleet, id: Id)
    requires OneController(f) && Successive(f) && At(f, id, Unregistering)
    ensures var g := Set(f, id, f.procs[id].(pc := Finishing)).(workers := f.workers - {f.procs[id].name});
            OneController(g) && Successive(g)
  {
  }

  lemma Finish(f: Fleet, id: Id)
    requires OneController(f) && Successive(f) && At(f, id, Finishing)
    ensures var g := Set(f, id, f.procs[id].(pc := Done)).(waitGroup := f.waitGroup - {id});
            OneController(g) && Successive(g)
  {
  }

  lemma InvExit(f: Fleet, a: Action)
    requires Inv(f) && Enabled(f, a) && (a.WorkerExited? || a.WorkerFinished?)
    ensures Inv(Step(f, a))
  {
    ExitRegistration(f, a);
    hide OneController, Successive;
    WorkerAwaits(f, a);
    WorkerAttends(f, a);
    hide RowsAwaited, NobodyForgotten;
  }

  lemma InvWorker(f: Fleet, a: Action)
    requires Inv(f) && Enabled(f, a) && !OfLoop(a) && !a.Dispatch? && !a.WorkerExited? && !a.WorkerFinished?
    ensures Inv(Step(f, a))
  {
    var g := Step(f, a);
    WorkerMoves(f, a);
    ProcUpdate(f, a.id, g.procs[a.id], g.loop);
    hide OneController, Successive;
    WorkerAwaits(f, a);
    WorkerAttends(f, a);
    hide RowsAwaited, NobodyForgotten;
  }

  lemma WorkerAttends(f: Fleet, a: Action)
    requires NobodyForgotten(f) && Enabled(f, a) && !OfLoop(a) && !a.Dispatch?
    ensures NobodyForgotten(Step(f, a))
  {
    var g := Step(f, a);
    forall id | Attentive(g, id)
      ensures WakeupPending(g, id) || UpToDate(g, g.procs[id])
    {
      assert Attentive(f, id);
    }
  }

  lemma WorkerAwaits(f: Fleet, a: Action)
    requires RowsAwaited(f) && Enabled(f, a) && !OfLoop(a) && !a.Dispatch?
    ensures RowsAwaited(Step(f, a))
  {
    var g := Step(f, a);
    assert forall n :: Owed(g, n) ==> Owed(f, n);
  }

  lemma WorkerMoves(f: Fleet, a: Action)
    requires OneController(f) && Enabled(f, a)
    requires !OfLoop(a) && !a.Dispatch? && !a.WorkerExited? && !a.WorkerFinished?
    ensures var g := Step(f, a);
            && a.id in f.procs && a.id in g.procs && g == Set(f, a.id, g.procs[a.id]).(loop := g.loop)
            && var p, q := f.procs[a.id], g.procs[a.id];
            && q.name == p.name && (q.down <==> PastDown(q.pc)) && q.down == (p.down || a.WorkerDown?)
            && Registered(q) == Registered(p) && q.pc.Done? == p.pc.Done?
            && (g.loop == f.loop || (g.loop.Waking? && f.loop.Waking?))
  {
    hide SpawnAll, Spawn;
    match a
    case WakeNext(id) => DownAsSaid(f, id);
    case Wake(id) => DownAsSaid(f, id);
    case WorkerTakes(id) => DownAsSaid(f, id);
    case WorkerTick(id) => DownAsSaid(f, id);
    case WorkerReads(id, _) => DownAsSaid(f, id);
    case WorkerActs(id, _) => DownAsSaid(f, id);
    case WorkerCancelled(id) => DownAsSaid(f, id);
    case WorkerDown(id) => DownAsSaid(f, id);
    hide OneController;
  }

  lemma DownAsSaid(f: Fleet, id: Id)
    requires OneController(f) && id in f.procs
    ensures f.procs[id].down <==> PastDown(f.procs[id].pc)
  {
  }

  lemma InvStep(f: Fleet, a: Action)
    requires Inv(f) && Enabled(f, a)
    ensures Inv(Step(f, a))
  {
    hide Inv, Step, Enabled;
    if a.Dispatch? {
      InvDispatch(f);
    } else if OfLoop(a) {
      InvLoop(f, a);
    } else if a.WorkerExited? || a.WorkerFinished? {
      InvExit(f, a);
    } else {
      InvWorker(f, a);
    }
  }

  lemma {:induction false} InvRun(acts: seq<Action>)
    requires Run(acts).Some?
    ensures Inv(Run(acts).value)
  {
    if acts != [] {
      InvRun(acts[..|acts| - 1]);
      InvStep(Run(acts[..|acts| - 1]).value, acts[|acts| - 1]);
    }
  }

  /** After an API write and its Nudge, no live worker can be left waiting on a spec older than the
      write: something pending will make it read again, or its latest read came after the write and was
      answered, unless the database refused that very read, in which case only the resync ticker is
      left. A refused read excuses the writes before it, and no later one. */
  lemma NoLostWakeup(acts: seq<Action>, id: Id)
    requires Run(acts).Some? && Attentive(Run(acts).value, id)
    ensures var f := Run(acts).value;
            WakeupPending(f, id) || UpToDate(f, f.procs[id])
  {
    InvRun(acts);
  }

  /** A created row gets a worker: in every reachable state a row whose creator has nudged has one, or
      a listing that will show it is on its way; only a failed listing, or an old worker of the same
      name that exits after the dispatch has looked, leaves it to the discovery ticker. */
  lemma CreatedRowGetsWorker(acts: seq<Action>, n: Name)
    requires Run(acts).Some? && Owed(Run(acts).value, n)
    ensures Awaited(Run(acts).value, n)
  {
    InvRun(acts);
  }

  lemma SlotStep(f: Fleet, a: Action, id: Id)
    requires Inv(f) && Enabled(f, a) && id in f.procs
    ensures var g := Step(f, a);
            && id in g.procs
            && (f.procs[id].slot && a != WorkerTakes(id) ==> g.procs[id].slot)
            && (a == Wake(id) || a == WakeNext(id) || a == WorkerActs(id, true) ==> g.procs[id].slot)
            && (a == WorkerTakes(id) ==> g.procs[id].pc.Reading?)
  {
    hide SpawnAll;
    if a.Dispatch? {
      SpawnAllExtends(f, f.loop.names);
      hide Inv, OneController, Successive;
    } else if OfLoop(a) {
      LoopSameProcs(f, a);
      hide Inv, Step, Enabled;
    } else {
      OwnSlot(f, a);
      hide Inv, Step, Enabled;
    }
  }

  lemma OwnSlot(f: Fleet, a: Action)
    requires Enabled(f, a) && !OfLoop(a) && !a.Dispatch?
    ensures var g := Step(f, a);
            && a.id in f.procs && a.id in g.procs && g.procs == f.procs[a.id := g.procs[a.id]]
            && (f.procs[a.id].slot && !a.WorkerTakes? ==> g.procs[a.id].slot)
            && (a.Wake? || a.WakeNext? || (a.WorkerActs? && a.again) ==> g.procs[a.id].slot)
            && (a.WorkerTakes? ==> g.procs[a.id].pc.Reading?)
  {
    hide SpawnAll;
  }

  /** A wake-up is kept: once a timer, a docker event, a dispatch or the worker itself has filled the
      worker's slot, it stays full until the worker takes it, and with that reads its spec again. */
  lemma {:induction false} WakeIsKept(acts: seq<Action>, k: nat, id: Id)
    requires k < |acts| && Run(acts).Some?
    requires acts[k] == Wake(id) || acts[k] == WakeNext(id) || acts[k] == WorkerActs(id, true)
    requires forall i :: k < i < |acts| ==> acts[i] != WorkerTakes(id)
    ensures id in Run(acts).value.procs && Run(acts).value.procs[id].slot
    decreases |acts|
  {
    hide Step, Inv;
    var pre := acts[..|acts| - 1];
    InvRun(pre);
    if k < |acts| - 1 {
      WakeIsKept(pre, k, id);
    } else {
      hide *;
      AwakenedExists(Run(pre).value, acts[k], id);
    }
    SlotStep(Run(pre).value, acts[|acts| - 1], id);
  }

  lemma AwakenedExists(f: Fleet, a: Action, id: Id)
    requires Enabled(f, a) && (a == Wake(id) || a == WakeNext(id) || a == WorkerActs(id, true))
    ensures id in f.procs
  {
  }

  /** At most one worker per name between spawn and workerExited; the map holds exactly those, so
      the identity check of workerExited always succeeds. */
  lemma OneControllerPerServer(acts: seq<Action>, i: Id, j: Id)
    requires Run(acts).Some?
    ensures var f := Run(acts).value;
            && (i in f.procs && j in f.procs && Registered(f.procs[i]) && Registered(f.procs[j]) ==>
                  f.procs[i].name == f.procs[j].name ==> i == j)
            && (i in f.procs && Registered(f.procs[i]) <==> exists n :: n in f.workers && f.workers[n] == i)
            && (At(f, i, Unregistering) ==>
                  f.procs[i].name in f.workers && f.workers[f.procs[i].name] == i
                  && Step(f, WorkerExited(i)).workers == f.workers - {f.procs[i].name})
  {
    InvRun(acts);
  }

  /** A worker's predecessors under the same name have all been brought down. */
  lemma PredecessorsAreDown(acts: seq<Action>, i: Id, j: Id)
    requires Run(acts).Some? && i in Run(acts).value.procs && j in Run(acts).value.procs
    requires i < j && Run(acts).value.procs[i].name == Run(acts).value.procs[j].name
    ensures Run(acts).value.procs[i].down
  {
    InvRun(acts);
  }

  /** Stop is heard: from then on the loop, and every worker that waits, can leave. */
  lemma {:induction false} StopIsHeard(acts: seq<Action>, k: nat)
    requires k < |acts| && Run(acts).Some? && acts[k] == Action.Stop
    ensures var f := Run(acts).value;
            && f.stopped && (f.loop.Waits? ==> Enabled(f, LoopCancelled))
            && forall id :: At(f, id, Waiting) ==> Enabled(f, WorkerCancelled(id))
    decreases |acts|
  {
    var pre := acts[..|acts| - 1];
    if k < |acts| - 1 { StopIsHeard(pre, k); }
    StoppedStays(Run(pre).value, acts[|acts| - 1]);
  }

  lemma StoppedStays(f: Fleet, a: Action)
    requires Enabled(f, a) && (f.stopped || a.Stop?)
    ensures Step(f, a).stopped
  {
    if a.Dispatch? { SpawnAllKeepsStopped(f, f.loop.names); }
    hide SpawnAll;
  }

  lemma {:induction false} SpawnAllKeepsStopped(f: Fleet, names: seq<Name>)
    ensures SpawnAll(f, names).stopped == f.stopped
  {
    if names != [] { SpawnAllKeepsStopped(f, names[..|names| - 1]); }
  }

  /** The worker can take its next step towards its exit. */
  predicate CanLeave(f: Fleet, id: Id)
  {
    || Enabled(f, WorkerReads(id, true)) || Enabled(f, WorkerActs(id, false)) || Enabled(f, WorkerCancelled(id))
    || Enabled(f, WorkerDown(id)) || Enabled(f, WorkerExited(id)) || Enabled(f, WorkerFinished(id))
  }

  lemma UnfinishedCanLeave(f: Fleet, id: Id)
    requires f.stopped && id in f.procs && !f.procs[id].pc.Done?
    ensures CanLeave(f, id)
  {
  }

  /** A shutdown cannot get stuck: while the loop waits for the workers, either it can return or some
      worker can take its next step towards its exit. */
  lemma ShutdownProgresses(acts: seq<Action>)
    requires Run(acts).Some? && Run(acts).value.loop.Draining?
    ensures var f := Run(acts).value; Enabled(f, LoopReturn) || exists id :: CanLeave(f, id)
  {
    InvRun(acts);
    var f := Run(acts).value;
    hide CanLeave, Successive, NobodyForgotten, RowsAwaited;
    if f.waitGroup != {} {
      var id :| id in f.waitGroup;
      assert id in f.procs && !f.procs[id].pc.Done?;
      UnfinishedCanLeave(f, id);
    }
  }

  /** When Run has returned, every worker ever spawned has gone through its bring-down. */
  lemma ReturnMeansAllDown(acts: seq<Action>, id: Id)
    requires Run(acts).Some? && Run(acts).value.loop.Returned? && id in Run(acts).value.procs
    ensures var f := Run(acts).value; f.procs[id].pc.Done? && f.procs[id].down && f.workers == map[]
  {
    InvRun(acts);
    var f := Run(acts).value;
    WorkersWaitedFor(f);
    assert f.workers.Keys == {};
  }

  lemma WorkersWaitedFor(f: Fleet)
    requires OneController(f)
    ensures f.waitGroup == {} ==> forall n :: n !in f.workers
  {
    if n :| n in f.workers {
      assert f.workers[n] in f.waitGroup;
    }
  }
}
