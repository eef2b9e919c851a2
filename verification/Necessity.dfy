/** Runs that show what the isolation theorem rests on. In each of them no kernel delete fails, and one
    thing is missing: a flush before a restart, an Unmanage only of empty pools, or one worker at a
    time for an address. A last run shows a session forgotten before its flow. */
module Necessity {
  import opened Wrappers
  import opened RouterState
  import opened ProxyMachine
  import opened CallProtocol
  import opened Isolation
  import ProxyTheorems

  const A: Addr := 1
  const B: Addr := 2
  const PORT: Port := 7
  const CLIENT := Client(99, 5000)

  // ---- Building runs call by call ----

  /** A log of calls for an address, from some point of the run on, and the stage it has reached. */
  datatype Part = Part(a: Addr, base: seq<Event>, st: Stage)

  ghost predicate Follows(acts: seq<Action>, p: Part)
    requires Run(acts).Some?
  {
    exists l :: Log(acts, p.a) == p.base + l && After(Down, l) == p.st
  }

  ghost predicate NoDeleteFails(acts: seq<Action>)
    requires Run(acts).Some?
  {
    forall a :: DeletesSucceed(acts, a)
  }

  ghost predicate Reached(acts: seq<Action>, s: System, p: Part, q: Part)
  {
    && Run(acts) == Some(s) && NoDeleteFails(acts) && NeverDiscarded(acts, A)
    && Follows(acts, p) && Follows(acts, q)
  }

  function Advance(s: System, p: Part, act: Action): Part
    requires Enabled(s, act)
  {
    p.(st := StageAfter(s, p.st, act, p.a))
  }

  lemma FollowsNext(acts: seq<Action>, s: System, act: Action, p: Part)
    requires Run(acts) == Some(s) && Enabled(s, act) && Follows(acts, p)
    ensures Run(acts + [act]).Some? && Follows(acts + [act], Advance(s, p, act))
  {
    hide Step, Enabled, EventOf, Next;
    var all := acts + [act];
    assert all[..|all| - 1] == acts;
    var l :| Log(acts, p.a) == p.base + l && After(Down, l) == p.st;
    var e := EventOf(s, act, p.a);
    if e.Some? {
      var m := l + [e.value];
      assert m[..|m| - 1] == l;
      assert Log(all, p.a) == p.base + m;
    }
  }

  lemma Then(acts: seq<Action>, s: System, p: Part, q: Part, act: Action)
    requires Reached(acts, s, p, q) && Enabled(s, act)
    requires (act.DeleteElement? || act.FlushFlow? ==> act.ok) && !Discards(s, act, A)
    ensures Reached(acts + [act], Step(s, act), Advance(s, p, act), Advance(s, q, act))
  {
    FollowsNext(acts, s, act, p);
    FollowsNext(acts, s, act, q);
    hide Step, Enabled, Follows, Advance, Discards;
    var all := acts + [act];
    assert all[..|all| - 1] == acts;
    forall a
      ensures DeletesSucceed(all, a)
    {
      assert DeletesSucceed(acts, a);
    }
  }

  /** A part after a whole call. */
  function Called(p: Part, a: Addr, c: Call): Part
  {
    if p.a != a then p else if Allowed(p.st, c) then p.(st := Finished(c, true)) else p.(st := Bad)
  }

  /** A flush that finds no flows. */
  lemma FlushCall(acts: seq<Action>, s: System, p: Part, q: Part, a: Addr) returns (more: seq<Action>)
    requires Reached(acts, s, p, q) && s.op == Idle && s.flows == {}
    ensures Reached(more, s, Called(p, a, Flush), Called(q, a, Flush))
  {
    hide Reached;
    var s1, s2 := s.(op := Dump(a)), s.(op := Flushing(a, {}));
    Then(acts, s, p, q, BeginFlush(a));
    more := acts + [BeginFlush(a)];
    var p1, q1 := Advance(s, p, BeginFlush(a)), Advance(s, q, BeginFlush(a));
    Then(more, s1, p1, q1, DumpFlows(true));
    more := more + [DumpFlows(true)];
    Then(more, s2, Advance(s1, p1, DumpFlows(true)), Advance(s1, q1, DumpFlows(true)), EndFlush);
    more := more + [EndFlush];
  }

  lemma StartCall(acts: seq<Action>, s: System, p: Part, q: Part, a: Addr) returns (more: seq<Action>)
    requires Reached(acts, s, p, q)
    ensures Reached(more, s.(containers := s.containers[a := s.nextInstance], nextInstance := s.nextInstance + 1),
                    Called(p, a, Start), Called(q, a, Start))
  {
    hide Reached;
    Then(acts, s, p, q, BeginStart(a));
    more := acts + [BeginStart(a)];
    Then(more, s, Advance(s, p, BeginStart(a)), Advance(s, q, BeginStart(a)), EndStart(a, true, Gone));
    more := more + [EndStart(a, true, Gone)];
  }

  lemma StopCall(acts: seq<Action>, s: System, p: Part, q: Part, a: Addr) returns (more: seq<Action>)
    requires Reached(acts, s, p, q)
    ensures Reached(more, s.(containers := s.containers - {a}), Called(p, a, Stop), Called(q, a, Stop))
  {
    hide Reached;
    Then(acts, s, p, q, BeginStop(a));
    more := acts + [BeginStop(a)];
    Then(more, s, Advance(s, p, BeginStop(a)), Advance(s, q, BeginStop(a)), EndStop(a, true));
    more := more + [EndStop(a, true)];
  }

  function Registered(s: System, a: Addr): System
  {
    var d := AddBackend(s.r, PORT, a);
    var late := !At(d.r, PORT, a, d.newGen);
    s.(r := d.r, adds := s.adds + 1, given := s.given[d.newGen := a], kernel := s.kernel[MarkOf(d.newGen) := a],
       orphaned := if late then s.orphaned + {MarkOf(d.newGen)} else s.orphaned)
  }

  lemma AddCall(acts: seq<Action>, s: System, p: Part, q: Part, a: Addr) returns (more: seq<Action>)
    requires Reached(acts, s, p, q) && s.op == Idle && !AddBackend(s.r, PORT, a).replaced
    ensures Reached(more, Registered(s, a), Called(p, a, Add(PORT)), Called(q, a, Add(PORT)))
  {
    hide Reached, AddBackend, At, MarkOf;
    Then(acts, s, p, q, BeginAdd(PORT, a));
    more := acts + [BeginAdd(PORT, a)];
    var s1 := Step(s, BeginAdd(PORT, a));
    Then(more, s1, Advance(s, p, BeginAdd(PORT, a)), Advance(s, q, BeginAdd(PORT, a)), InstallElement(true));
    more := more + [InstallElement(true)];
    assert Step(s1, InstallElement(true)) == Registered(s, a);
  }

  function Unregistered(s: System, a: Addr): System
  {
    var d := RemoveBackend(s.r, PORT, a);
    s.(r := d.r, kernel := if d.ok then s.kernel - {MarkOf(d.gen)} else s.kernel)
  }

  lemma RemoveCall(acts: seq<Action>, s: System, p: Part, q: Part, a: Addr) returns (more: seq<Action>)
    requires Reached(acts, s, p, q) && s.op == Idle
    ensures Reached(more, Unregistered(s, a), Called(p, a, Remove(PORT, false)), Called(q, a, Remove(PORT, false)))
  {
    hide Reached, RemoveBackend, MarkOf;
    Then(acts, s, p, q, BeginRemove(PORT, a, false));
    more := acts + [BeginRemove(PORT, a, false)];
    var s1 := Step(s, BeginRemove(PORT, a, false));
    Then(more, s1, Advance(s, p, BeginRemove(PORT, a, false)), Advance(s, q, BeginRemove(PORT, a, false)), DeleteElement(true));
    more := more + [DeleteElement(true)];
    assert Step(s1, DeleteElement(true)) == Unregistered(s, a);
  }

  // ---- A server comes up and a client reaches it ----

  const PART_A := Part(A, [], Down)
  const PART_B := Part(B, [], Down)

  const A_POOLED := Routing(map[PORT := Pool([Backend(A, 1)], 0)], map[], 1)
  const A_UP := START.(containers := map[A := 0], nextInstance := 1, r := A_POOLED, adds := 1,
                       given := map[1 := A], kernel := map[1 := A])
  const A_SESSION := Routing(map[PORT := Pool([Backend(A, 1)], 1)], map[CLIENT := Session(A, 1, 0)], 1)
  const A_STAMPED := A_UP.(r := A_SESSION, stamps := [Stamp(CLIENT, PORT, 1, 1, A, 0)])
  const A_FLOW := Flow(CLIENT, PORT, true, A, Some(0))
  const A_LINKED := A_STAMPED.(flows := {A_FLOW})

  lemma FromStart()
    ensures Reached([], START, PART_A, PART_B)
  {
    assert Log([], A) == [] + [] && Log([], B) == [] + [];
    assert After(Down, []) == Down;
  }

  lemma BringUpA() returns (acts: seq<Action>)
    ensures Reached(acts, A_UP, PART_A.(st := Serving(PORT)), PART_B)
  {
    hide Reached;
    FromStart();
    acts := FlushCall([], START, PART_A, PART_B, A);
    acts := StartCall(acts, START, PART_A.(st := Flushed), PART_B, A);
    var s := START.(containers := map[A := 0], nextInstance := 1);
    assert map[][A := 0] == map[A := 0];
    assert AddBackend(EMPTY, PORT, A) == Added(A_POOLED, 1, 0, false) by {
      assert [] + [Backend(A, 1)] == [Backend(A, 1)];
    }
    assert At(A_POOLED, PORT, A, 1);
    assert Registered(s, A) == A_UP;
    acts := AddCall(acts, s, PART_A.(st := Started), PART_B, A);
  }

  lemma ClientReachesA(before: seq<Action>, p: Part, q: Part) returns (acts: seq<Action>)
    requires Reached(before, A_UP, p, q)
    ensures Reached(acts, A_LINKED, p, q)
  {
    hide Reached;
    Then(before, A_UP, p, q, Packet(CLIENT, PORT, 0));
    acts := before + [Packet(CLIENT, PORT, 0)];
    assert Step(A_UP, Packet(CLIENT, PORT, 0)) == A_STAMPED by {
      var t := Route(A_POOLED, CLIENT, PORT, 0);
      assert t.verdict == Dnat(1) && t.r == A_SESSION;
    }
    assert Step(A_STAMPED, Execute(0)) == A_LINKED;
    Then(acts, A_STAMPED, p, q, Execute(0));
    acts := acts + [Execute(0)];
  }

  // ---- Without the flush ----

  /** Restarting a container without flushing its flows first breaks isolation, although no delete
      fails. */
  lemma RestartWithoutFlushLeaks()
    ensures exists acts ::
              Run(acts).Some? && NoDeleteFails(acts) && NeverDiscarded(acts, A) && !Isolated(Run(acts).value, A)
  {
    hide Reached, Run, NoDeleteFails, NeverDiscarded, Isolated;
    var acts := BringUpA();
    var p := PART_A.(st := Serving(PORT));
    acts := ClientReachesA(acts, p, PART_B);
    acts := StartCall(acts, A_LINKED, p, PART_B, A);
    OldFlowLeft(acts, Called(p, A, Start), PART_B);
  }

  lemma OldFlowLeft(acts: seq<Action>, p: Part, q: Part)
    requires Reached(acts, A_LINKED.(containers := A_LINKED.containers[A := 1], nextInstance := 2), p, q)
    ensures Run(acts).Some? && NoDeleteFails(acts) && NeverDiscarded(acts, A) && !Isolated(Run(acts).value, A)
  {
    var s := Run(acts).value;
    assert A_FLOW in s.flows && A_FLOW.during != Some(s.containers[A]);
  }

  // ---- Two workers at one address ----

  /** The address of a deleted server can be given to a new one before the old worker has reaped. Both
      workers keep to the order of calls, no delete fails, and isolation breaks: the new worker
      flushes, a client reaches the old container, that container dies, and the new one starts. */
  lemma OverlappingWorkersLeak()
    ensures exists acts, oldLog, newLog ::
              && Run(acts).Some? && NoDeleteFails(acts) && NeverDiscarded(acts, A)
              && Log(acts, A) == oldLog + newLog
              && After(Down, oldLog) == Serving(PORT) && After(Down, newLog) == Started
              && !Isolated(Run(acts).value, A)
  {
    hide Reached, Run, NoDeleteFails, NeverDiscarded, Isolated, Log, Follows;
    var acts := BringUpA();
    var oldLog := OwnLog(acts, A_UP, PART_A.(st := Serving(PORT)), PART_B);
    var p := Part(A, oldLog, Down);
    NewWorker(acts, A_UP, PART_A.(st := Serving(PORT)), PART_B, oldLog);
    acts := FlushCall(acts, A_UP, p, PART_B, A);
    acts := ClientReachesA(acts, p.(st := Flushed), PART_B);
    var dead := A_LINKED.(containers := map[]);
    assert Step(A_LINKED, Die(A)) == dead by {
      assert map[A := 0] - {A} == map[];
    }
    Then(acts, A_LINKED, p.(st := Flushed), PART_B, Die(A));
    acts := acts + [Die(A)];
    acts := StartCall(acts, dead, p.(st := Flushed), PART_B, A);
    assert dead.containers[A := 1] == map[A := 1] == A_LINKED.containers[A := 1];
    var newLog := OwnLogAfter(acts, p.(st := Started), PART_B, A_LINKED.(containers := map[A := 1], nextInstance := 2));
    OldFlowLeft(acts, p.(st := Started), PART_B);
  }

  /** A worker that starts its own log where another's has got to. */
  lemma NewWorker(acts: seq<Action>, s: System, p: Part, q: Part, log: seq<Event>)
    requires Reached(acts, s, p, q) && Log(acts, A) == log
    ensures Reached(acts, s, Part(A, log, Down), q)
  {
    assert Log(acts, A) == log + [];
    assert After(Down, []) == Down;
  }

  lemma OwnLog(acts: seq<Action>, s: System, p: Part, q: Part) returns (log: seq<Event>)
    requires Reached(acts, s, p, q) && p.base == []
    ensures Run(acts).Some? && Log(acts, p.a) == log && After(Down, log) == p.st
  {
    log :| Log(acts, p.a) == p.base + log && After(Down, log) == p.st;
    assert [] + log == log;
  }

  lemma OwnLogAfter(acts: seq<Action>, p: Part, q: Part, s: System) returns (log: seq<Event>)
    requires Reached(acts, s, p, q)
    ensures Run(acts).Some? && Log(acts, p.a) == p.base + log && After(Down, log) == p.st
  {
    log :| Log(acts, p.a) == p.base + log && After(Down, log) == p.st;
  }

  // ---- An Unmanage of a live pool ----

  const A_OFF := A_UP.(r := Routing(map[PORT := Pool([], 0)], map[], 1), kernel := map[])
  const A_GONE := A_OFF.(containers := map[])
  const B_POOLED := Routing(map[PORT := Pool([Backend(B, 2)], 0)], map[], 2)
  const B_UP := A_GONE.(containers := map[B := 1], nextInstance := 2, r := B_POOLED, adds := 2,
                        given := map[1 := A, 2 := B], kernel := map[2 := B])
  const B_SESSION := Routing(map[PORT := Pool([Backend(B, 2)], 1)], map[CLIENT := Session(B, 2, 0)], 2)
  const B_STAMPED := B_UP.(r := B_SESSION, stamps := [Stamp(CLIENT, PORT, 2, 2, B, 0)])
  const DISCARDED := B_STAMPED.(r := B_SESSION.(pools := map[]), orphaned := {2})
  const B_FLOW := Flow(CLIENT, PORT, true, B, Some(1))

  /** The old server is brought down; its port stays managed, as an empty pool. */
  lemma BringDownA() returns (acts: seq<Action>)
    ensures Reached(acts, A_GONE, PART_A, PART_B)
  {
    hide Reached;
    acts := BringUpA();
    assert RemoveBackend(A_POOLED, PORT, A) == Removed(A_OFF.r, 1, true, true) by {
      assert [Backend(A, 1)][..0] + [Backend(A, 1)][1..] == [];
      assert A_POOLED.pools[PORT := Pool([], 0)] == A_OFF.r.pools;
    }
    assert Unregistered(A_UP, A) == A_OFF by {
      assert map[1 := A] - {1} == map[];
    }
    acts := RemoveCall(acts, A_UP, PART_A.(st := Serving(PORT)), PART_B, A);
    acts := FlushCall(acts, A_OFF, PART_A, PART_B, A);
    acts := StopCall(acts, A_OFF, PART_A.(st := Flushed), PART_B, A);
    assert map[A := 0] - {A} == map[];
  }

  /** A new server comes up on the port the old one left, and a client is stamped for it. */
  lemma BringUpB() returns (acts: seq<Action>)
    ensures Reached(acts, B_STAMPED, PART_A, PART_B.(st := Serving(PORT)))
  {
    hide Reached;
    acts := BringDownA();
    acts := FlushCall(acts, A_GONE, PART_A, PART_B, B);
    acts := StartCall(acts, A_GONE, PART_A, PART_B.(st := Flushed), B);
    var s := A_GONE.(containers := map[B := 1], nextInstance := 2);
    assert map[][B := 1] == map[B := 1];
    assert AddBackend(A_OFF.r, PORT, B) == Added(B_POOLED, 2, 0, false) by {
      assert [] + [Backend(B, 2)] == [Backend(B, 2)];
      assert A_OFF.r.pools[PORT := Pool([Backend(B, 2)], 0)] == B_POOLED.pools;
    }
    assert At(B_POOLED, PORT, B, 2);
    assert Registered(s, B) == B_UP;
    acts := AddCall(acts, s, PART_A, PART_B.(st := Started), B);
    assert Step(B_UP, Packet(CLIENT, PORT, 0)) == B_STAMPED by {
      var t := Route(B_POOLED, CLIENT, PORT, 0);
      assert t.verdict == Dnat(2) && t.r.pools == B_SESSION.pools && t.r.sessions == B_SESSION.sessions;
    }
    Then(acts, B_UP, PART_A, PART_B.(st := Serving(PORT)), Packet(CLIENT, PORT, 0));
    acts := acts + [Packet(CLIENT, PORT, 0)];
  }

  /** The old server's worker, down but not yet done, unmanages the port. */
  lemma LateReap() returns (acts: seq<Action>)
    ensures Reached(acts, DISCARDED, PART_A, PART_B.(st := Serving(PORT)))
  {
    hide Reached;
    acts := BringUpB();
    var unmanage := UnmanagePort(PORT);
    assert Step(B_STAMPED, unmanage) == DISCARDED by {
      assert B_SESSION.pools - {PORT} == map[];
      assert Backend(B, 2) in B_SESSION.pools[PORT].backends && MarkOf(2) == 2;
      assert Discarded(B_STAMPED, PORT) == {2};
    }
    assert forall b :: b in B_SESSION.pools[PORT].backends ==> b == Backend(B, 2);
    Then(acts, B_STAMPED, PART_A, PART_B.(st := Serving(PORT)), unmanage);
    acts := acts + [unmanage];
  }

  /** A reused port: the reap of the old server discards the live backend of the new one. Its worker
      has done everything in order and thinks it serves, no delete has failed, and yet the router does
      not hold it, its clients are no longer routed, and its element stays in the kernel. */
  lemma ReusedPortDiscardsLiveBackend()
    ensures exists acts ::
              && Run(acts).Some? && NoDeleteFails(acts) && Run(acts).value.op == Idle
              && StageAt(acts, A) == Down && StageAt(acts, B) == Serving(PORT)
              && var s := Run(acts).value;
              && NotHeld(s.r, B) && !ProxyTheorems.Agrees(s)
              && Route(s.r, CLIENT, PORT, s.clock).verdict == Accept
  {
    hide Reached;
    var acts := LateReap();
    DiscardedFacts(acts);
  }

  lemma DiscardedFacts(acts: seq<Action>)
    requires Reached(acts, DISCARDED, PART_A, PART_B.(st := Serving(PORT)))
    ensures Run(acts) == Some(DISCARDED) && NoDeleteFails(acts)
    ensures StageAt(acts, A) == Down && StageAt(acts, B) == Serving(PORT)
    ensures NotHeld(DISCARDED.r, B) && !ProxyTheorems.Agrees(DISCARDED)
    ensures Route(DISCARDED.r, CLIENT, PORT, DISCARDED.clock).verdict == Accept
  {
    var a := OwnLog(acts, DISCARDED, PART_A, PART_B.(st := Serving(PORT)));
    var b := OwnLog(acts, DISCARDED, PART_B.(st := Serving(PORT)), PART_A);
    assert ProxyTheorems.Maps(DISCARDED, 2, B) && !ProxyTheorems.Pooled(DISCARDED, 2, B);
  }

  /** And isolation goes with it: the element left behind sends a packet stamped long ago to the new
      server's address between the flush and the restart. */
  lemma UnmanageBreaksIsolation()
    ensures exists acts ::
              && Run(acts).Some? && NoDeleteFails(acts)
              && StageAt(acts, A) == Down && StageAt(acts, B) == Started
              && !Isolated(Run(acts).value, B)
  {
    hide Reached;
    var acts := LateReap();
    var q := PART_B.(st := Serving(PORT));
    assert Unregistered(DISCARDED, B) == DISCARDED;
    acts := RemoveCall(acts, DISCARDED, PART_A, q, B);
    acts := FlushCall(acts, DISCARDED, PART_A, PART_B, B);
    q := PART_B.(st := Flushed);
    var late := DISCARDED.(flows := {B_FLOW});
    assert Step(DISCARDED, Execute(0)) == late;
    Then(acts, DISCARDED, PART_A, q, Execute(0));
    acts := acts + [Execute(0)];
    acts := StartCall(acts, late, PART_A, q, B);
    LateFacts(acts);
  }

  lemma LateFacts(acts: seq<Action>)
    requires var late := DISCARDED.(flows := {B_FLOW});
             Reached(acts, late.(containers := late.containers[B := 2], nextInstance := 3), PART_A, PART_B.(st := Started))
    ensures Run(acts).Some? && NoDeleteFails(acts)
    ensures StageAt(acts, A) == Down && StageAt(acts, B) == Started
    ensures !Isolated(Run(acts).value, B)
  {
    var s := Run(acts).value;
    var a := OwnLog(acts, s, PART_A, PART_B.(st := Started));
    var b := OwnLog(acts, s, PART_B.(st := Started), PART_A);
    assert B_FLOW in s.flows && B_FLOW.during != Some(s.containers[B]);
  }

  // ---- An Unmanage in the middle of an AddBackend ----

  const B_STARTED := A_GONE.(containers := map[B := 1], nextInstance := 2)
  const B_ADDING := B_STARTED.(r := B_POOLED, adds := 2, given := map[1 := A, 2 := B], op := Install(PORT, B, 2))
  const B_DROPPED := B_ADDING.(r := Routing(map[], map[], 2))
  const B_LOST := B_DROPPED.(op := Idle, kernel := map[2 := B], orphaned := {2})

  lemma BeginAddB() returns (acts: seq<Action>)
    ensures Reached(acts, B_ADDING, PART_A, PART_B.(st := Busy(Started, Add(PORT))))
  {
    hide Reached;
    acts := BringDownA();
    acts := FlushCall(acts, A_GONE, PART_A, PART_B, B);
    acts := StartCall(acts, A_GONE, PART_A, PART_B.(st := Flushed), B);
    assert map[][B := 1] == map[B := 1];
    assert AddBackend(A_OFF.r, PORT, B) == Added(B_POOLED, 2, 0, false) by {
      assert [] + [Backend(B, 2)] == [Backend(B, 2)];
      assert A_OFF.r.pools[PORT := Pool([Backend(B, 2)], 0)] == B_POOLED.pools;
    }
    assert Step(B_STARTED, BeginAdd(PORT, B)) == B_ADDING;
    Then(acts, B_STARTED, PART_A, PART_B.(st := Started), BeginAdd(PORT, B));
    acts := acts + [BeginAdd(PORT, B)];
  }

  lemma ReapMidAdd(before: seq<Action>) returns (acts: seq<Action>)
    requires Reached(before, B_ADDING, PART_A, PART_B.(st := Busy(Started, Add(PORT))))
    ensures acts == before + [UnmanagePort(PORT)] + [InstallElement(true)]
    ensures Reached(acts, B_LOST, PART_A, PART_B.(st := Serving(PORT)))
  {
    hide Reached;
    var q := PART_B.(st := Busy(Started, Add(PORT)));
    assert Step(B_ADDING, UnmanagePort(PORT)) == B_DROPPED by {
      assert B_POOLED.pools - {PORT} == map[];
      assert Discarded(B_ADDING, PORT) == {};
    }
    assert forall b :: b in B_POOLED.pools[PORT].backends ==> b == Backend(B, 2);
    Then(before, B_ADDING, PART_A, q, UnmanagePort(PORT));
    acts := before + [UnmanagePort(PORT)];
    assert Step(B_DROPPED, InstallElement(true)) == B_LOST by {
      assert MarkOf(2) == 2 && map[][2 := B] == map[2 := B];
    }
    Then(acts, B_DROPPED, PART_A, q, InstallElement(true));
    acts := acts + [InstallElement(true)];
  }

  /** No server has to be running on the port: it is enough that one is just being added. The reap comes
      between the two sub-steps of AddBackend, which then succeeds; the new server thinks it serves, is
      held nowhere, and its element stays in the kernel. */
  lemma UnmanageMidAddDiscards()
    ensures exists before: seq<Action> ::
              && var acts := before + [UnmanagePort(PORT)] + [InstallElement(true)];
              && Run(before).Some? && Run(acts).Some? && NoDeleteFails(acts)
              && StageAt(before, A) == Down && StageAt(before, B) == Busy(Started, Add(PORT))
              && StageAt(acts, A) == Down && StageAt(acts, B) == Serving(PORT)
              && var s := Run(acts).value;
              && s.op == Idle && NotHeld(s.r, B) && !ProxyTheorems.Agrees(s)
  {
    hide Reached;
    var before := BeginAddB();
    var acts := ReapMidAdd(before);
    StagesOf(before, B_ADDING, Busy(Started, Add(PORT)));
    StagesOf(acts, B_LOST, Serving(PORT));
    assert ProxyTheorems.Maps(B_LOST, 2, B) && !ProxyTheorems.Pooled(B_LOST, 2, B);
  }

  lemma StagesOf(acts: seq<Action>, s: System, st: Stage)
    requires Reached(acts, s, PART_A, PART_B.(st := st))
    ensures Run(acts) == Some(s) && NoDeleteFails(acts) && StageAt(acts, A) == Down && StageAt(acts, B) == st
  {
    var a := OwnLog(acts, s, PART_A, PART_B.(st := st));
    var b := OwnLog(acts, s, PART_B.(st := st), PART_A);
  }

  // ---- A session forgotten before its flow ----

  const LATER: Time := SESSION_TTL + 1

  /** The client is still sending on its flow, so no packet of it opens a new one; its session is swept
      away all the same. */
  lemma SessionForgottenBeforeFlow()
    ensures exists acts ::
              Run(acts).Some? && CLIENT !in Run(acts).value.r.sessions
              && exists f :: f in Run(acts).value.flows && f.client == CLIENT && f.reply in Run(acts).value.containers
  {
    hide Reached;
    var p := PART_A.(st := Serving(PORT));
    var acts := BringUpA();
    acts := ClientReachesA(acts, p, PART_B);
    var s := A_LINKED.(clock := LATER);
    Then(acts, A_LINKED, p, PART_B, Tick(LATER));
    acts := acts + [Tick(LATER)];
    Then(acts, s, p, PART_B, SweepTick(LATER));
    acts := acts + [SweepTick(LATER)];
    SweptFacts(acts, Step(s, SweepTick(LATER)), p, PART_B);
  }

  lemma SweptFacts(acts: seq<Action>, s: System, p: Part, q: Part)
    requires s == Step(A_LINKED.(clock := LATER), SweepTick(LATER)) && Reached(acts, s, p, q)
    ensures Run(acts) == Some(s) && CLIENT !in s.r.sessions
    ensures A_FLOW in s.flows && A_FLOW.client == CLIENT && A_FLOW.reply in s.containers
  {
  }
}
