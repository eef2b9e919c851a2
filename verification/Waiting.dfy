/** Runs of the manager's machine in which nothing but a ticker is left to help: why the statements on
    wake-ups and on created rows have the exceptions they have. */
module Waiting {
  import opened Wrappers
  import opened Manager

  const SERVER: Name := 5
  const ID: Id := 0

  lemma Then(acts: seq<Action>, f: Fleet, a: Action)
    requires Run(acts) == Some(f) && Enabled(f, a)
    ensures Run(acts + [a]) == Some(Step(f, a))
  {
    hide Step, Enabled;
    assert (acts + [a])[..|acts + [a]| - 1] == acts;
  }

  /** One more step, with the state it leads to. */
  lemma Next(acts: seq<Action>, f: Fleet, a: Action, g: Fleet) returns (more: seq<Action>)
    requires Run(acts) == Some(f) && Enabled(f, a) && Step(f, a) == g
    ensures Run(more) == Some(g)
  {
    Then(acts, f, a);
    more := acts + [a];
  }

  function One(p: Proc): map<Id, Proc> { map[ID := p] }

  const READING := Proc(SERVER, Reading, true, false, 0, 0, false, false, false)
  const CREATED := START.(rows := {SERVER}, writes := 1, created := map[SERVER := 1])
  const SPAWNED := CREATED.(loop := Waking({ID}), workers := map[SERVER := ID],
                            procs := One(READING.(slot := false)), nextId := 1, waitGroup := {ID})
  const WOKEN := SPAWNED.(loop := Waits, procs := One(READING))

  lemma RunNone()
    ensures Run([]) == Some(START)
  {
  }

  lemma SpawnOne(f: Fleet)
    ensures SpawnAll(f, [SERVER]) == Spawn(f, SERVER)
  {
    assert [SERVER][..0] == [];
  }

  /** A server is created, gets its worker, and the worker is woken. */
  lemma WorkerComesUp() returns (acts: seq<Action>)
    ensures Run(acts) == Some(WOKEN)
  {
    hide Run, SpawnAll;
    RunNone();
    assert {} + {SERVER} == {SERVER};
    acts := Next([], START, CreateRow(SERVER), CREATED);
    var listed := CREATED.(loop := Listed([SERVER], true));
    acts := Next(acts, CREATED, List([SERVER], true), listed);
    SpawnOne(listed);
    assert Spawn(listed, SERVER).workers.Values == {ID};
    assert {} + {ID} == {ID};
    acts := Next(acts, listed, Dispatch, SPAWNED);
    var woken := SPAWNED.(loop := Waking({}), procs := One(READING));
    assert {ID} - {ID} == {};
    acts := Next(acts, SPAWNED, WakeNext(ID), woken);
    acts := Next(acts, woken, WakeEnd, WOKEN);
  }

  /** A nudge is taken and a dispatch wakes the worker again. */
  lemma Redispatch(before: seq<Action>, f: Fleet, write: nat) returns (acts: seq<Action>)
    requires Run(before) == Some(f) && f.loop.Waits? && !f.slot && f.promised <= write <= f.writes
    requires f.workers == map[SERVER := ID] && ID in f.procs && f.rows == {SERVER} && !f.unlisted
    ensures Run(acts) == Some(f.(promised := write, exited := {}, procs := f.procs[ID := f.procs[ID].(slot := true)]))
  {
    hide Run, SpawnAll;
    var g := f.(promised := write);
    acts := Next(before, f, Nudge(write), g.(slot := true));
    acts := Next(acts, g.(slot := true), TakeNudge, g.(loop := Listing));
    var listed := g.(loop := Listed([SERVER], true));
    acts := Next(acts, g.(loop := Listing), List([SERVER], true), listed);
    SpawnOne(listed);
    assert f.workers.Values == {ID};
    var waking := g.(loop := Waking({ID}), exited := {});
    acts := Next(acts, listed, Dispatch, waking);
    var woken := Set(waking, ID, f.procs[ID].(slot := true)).(loop := Waking({}));
    assert {ID} - {ID} == {};
    acts := Next(acts, waking, WakeNext(ID), woken);
    acts := Next(acts, woken, WakeEnd, woken.(loop := Waits));
  }

  /** The wake-up for a write is used up by a read the database refuses; nothing but the resync ticker
      will make the worker read again. */
  lemma RefusedReadForgets()
    ensures exists acts ::
              && Run(acts).Some? && Attentive(Run(acts).value, ID)
              && var f := Run(acts).value;
              !WakeupPending(f, ID) && f.procs[ID].tried < f.promised && f.procs[ID].refused
  {
    hide Run;
    var acts := WorkerComesUp();
    var p := READING.(asked := 1, tried := 1);
    acts := Act(acts, WOKEN, READING, true);
    var f1 := WOKEN.(procs := One(p.(pc := Waiting)));
    acts := Next(acts, f1, Write, f1.(writes := 2));
    var f2 := f1.(writes := 2, promised := 2);
    acts := Redispatch(acts, f1.(writes := 2), 2);
    assert f1.procs[ID := p.(pc := Waiting)] == One(p.(pc := Waiting));
    var f3 := f2.(procs := One(p.(slot := false)));
    assert Step(f2, WorkerTakes(ID)) == f3;
    acts := Next(acts, f2, WorkerTakes(ID), f3);
    acts := Act(acts, f3, p.(slot := false), false);
  }

  lemma StepReads(f: Fleet, p: Proc, ok: bool)
    requires f.procs == One(p) && p.pc.Reading? && p.name in f.rows
    ensures Step(f, WorkerReads(ID, ok)) ==
              f.(procs := One(if ok then p.(pc := Acting, asked := f.writes, tried := f.writes, refused := false, gone := false)
                              else p.(pc := Acting, asked := f.writes, refused := true, gone := false)))
  {
  }

  lemma StepActs(f: Fleet, p: Proc)
    requires f.procs == One(p) && p.pc.Acting?
    ensures Step(f, WorkerActs(ID, false)) == f.(procs := One(p.(pc := Waiting, cancelled := p.cancelled || p.gone)))
  {
  }

  /** The worker reads, and has nothing to do. */
  lemma Act(before: seq<Action>, f: Fleet, p: Proc, ok: bool) returns (acts: seq<Action>)
    requires Run(before) == Some(f) && f.procs == One(p) && p.pc.Reading? && p.name in f.rows
    ensures var q := if ok then p.(asked := f.writes, tried := f.writes, refused := false, gone := false) else p.(asked := f.writes, refused := true, gone := false);
            Run(acts) == Some(f.(procs := One(q.(pc := Waiting))))
  {
    hide Run, Step;
    var q := if ok then p.(asked := f.writes, tried := f.writes, refused := false, gone := false) else p.(asked := f.writes, refused := true, gone := false);
    var f1 := f.(procs := One(q.(pc := Acting)));
    StepReads(f, p, ok);
    StepActs(f1, q.(pc := Acting));
    acts := Next(before, f, WorkerReads(ID, ok), f1);
    acts := Next(acts, f1, WorkerActs(ID, false), f.(procs := One(q.(pc := Waiting))));
  }

  const REAPED := READING.(pc := BringingDown, asked := 2, tried := 2, gone := true, cancelled := true)
  const AGAIN := WOKEN.(rows := {SERVER}, writes := 3, created := map[SERVER := 3], procs := One(REAPED))
  const LEFT := AGAIN.(promised := 3, exited := {SERVER}, workers := map[],
                       procs := One(REAPED.(pc := Done, down := true)), waitGroup := {})

  /** The row is deleted, its worker reaps, and a row of the same name is created before it has exited. */
  lemma RecreatedEarly() returns (acts: seq<Action>)
    ensures Run(acts) == Some(AGAIN)
  {
    hide Run;
    acts := WorkerComesUp();
    var f1 := WOKEN.(rows := {}, writes := 2);
    assert {SERVER} - {SERVER} == {};
    acts := Next(acts, WOKEN, DeleteRow(SERVER), f1);
    var p := READING.(asked := 2, tried := 2, gone := true);
    var f2 := f1.(procs := One(p.(pc := Acting)));
    assert Step(f1, WorkerReads(ID, true)) == f2;
    acts := Next(acts, f1, WorkerReads(ID, true), f2);
    var f3 := f1.(procs := One(p.(pc := Waiting, cancelled := true)));
    StepActs(f2, p.(pc := Acting));
    acts := Next(acts, f2, WorkerActs(ID, false), f3);
    var f4 := f1.(procs := One(REAPED));
    assert Step(f3, WorkerCancelled(ID)) == f4;
    acts := Next(acts, f3, WorkerCancelled(ID), f4);
    assert {} + {SERVER} == {SERVER};
    assert Step(f4, CreateRow(SERVER)) == AGAIN;
    acts := Next(acts, f4, CreateRow(SERVER), AGAIN);
  }

  /** A row created again while the worker of its predecessor is still exiting: the nudge has been used
      up, no worker is left, and only the discovery ticker will find the row. */
  lemma RecreatedRowWaits()
    ensures exists acts ::
              && Run(acts).Some? && var f := Run(acts).value;
              && Owed(f, SERVER) && SERVER !in f.workers
              && f.loop.Waits? && !f.slot && !f.unlisted && forall id :: id in f.procs ==> f.procs[id].pc.Done?
  {
    hide Run;
    var acts := RecreatedEarly();
    acts := Redispatch(acts, AGAIN, 3);
    var f1 := AGAIN.(promised := 3);
    assert AGAIN.procs[ID := REAPED] == One(REAPED);
    var f2 := f1.(procs := One(REAPED.(pc := Unregistering, down := true)));
    assert Step(f1, WorkerDown(ID)) == f2;
    acts := Next(acts, f1, WorkerDown(ID), f2);
    var f3 := f1.(procs := One(REAPED.(pc := Finishing, down := true)), workers := map[], exited := {SERVER});
    assert map[SERVER := ID] - {SERVER} == map[] && {} + {SERVER} == {SERVER};
    assert Step(f2, WorkerExited(ID)) == f3;
    acts := Next(acts, f2, WorkerExited(ID), f3);
    assert {ID} - {ID} == {};
    assert Step(f3, WorkerFinished(ID)) == LEFT;
    acts := Next(acts, f3, WorkerFinished(ID), LEFT);
    assert Owed(LEFT, SERVER);
  }
}
