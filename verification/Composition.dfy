/** Workers next to the proxy. Over time an address is served by one worker after another: the
    manager respawns a server's worker after the old one has exited, and a deleted server's address
    can go to a new server. Whatever they all do, the proxy keeps isolation at the address. */
module Composition {
  import opened Wrappers
  import opened RouterState
  import opened CallProtocol
  import opened WorkerState
  import opened WorkerTheorems
  import ProxyMachine
  import Isolation

  /** A worker that has exited: its reconciles, and its final bring-down. */
  datatype Life = Life(es: seq<Answers>, last: Answers)

  function Ended(l: Life): Worker
  {
    BringDown(Reconciles(SPAWNED, l.es), l.last)
  }

  /** The calls for `a` of exited workers, one after another. */
  function CallsOfLives(lives: seq<Life>, a: Addr): seq<Event>
  {
    if lives == [] then []
    else CallsOfLives(lives[..|lives| - 1], a) + CallsTo(Ended(lives[|lives| - 1]).log, a)
  }

  /** The calls for `a` of exited workers and of the present one. */
  function CallsSoFar(lives: seq<Life>, w: Worker, a: Addr): seq<Event>
  {
    CallsOfLives(lives, a) + CallsTo(w.log, a)
  }

  /** Stages that allow the same calls from here on, or `t` more of them. */
  predicate Alike(s: Stage, t: Stage)
  {
    || s == t || (s.Down? && t.Flushed?)
    || (s.Busy? && t.Busy? && s.call == t.call)
  }

  lemma NextAlike(s: Stage, t: Stage, e: Event)
    requires Alike(s, t) && Next(s, e) != Bad
    ensures Alike(Next(s, e), Next(t, e))
  {
  }

  /** A worker that finds the flows already flushed may do all that one starting afresh may. */
  lemma {:induction false} StartsAlike(s: Stage, t: Stage, log: seq<Event>)
    requires Alike(s, t) && After(s, log) != Bad
    ensures Alike(After(s, log), After(t, log))
  {
    hide Alike, Next;
    if log != [] {
      var pre := log[..|log| - 1];
      var e := log[|log| - 1];
      assert After(s, log) == Next(After(s, pre), e) && After(t, log) == Next(After(t, pre), e);
      BadStays(After(s, pre), e);
      StartsAlike(s, t, pre);
      NextAlike(After(s, pre), After(t, pre), e);
    }
  }

  lemma BadStays(s: Stage, e: Event)
    ensures Next(s, e) != Bad ==> s != Bad
  {
  }

  /** After any number of workers have come and gone the address is down, and the next may start. */
  lemma {:induction false} LivesEndDown(lives: seq<Life>, a: Addr)
    ensures var st := After(Down, CallsOfLives(lives, a)); st.Down? || st.Flushed?
  {
    hide Reconciles, BringDown;
    if lives != [] {
      var pre, l := lives[..|lives| - 1], lives[|lives| - 1];
      LivesEndDown(pre, a);
      AlwaysSettled(l.es);
      BringDownSettles(Reconciles(SPAWNED, l.es), l.last);
      assert StageFits(Ended(l), a);
      AfterConcat(Down, CallsOfLives(pre, a), CallsTo(Ended(l).log, a));
      StartsAlike(Down, After(Down, CallsOfLives(pre, a)), CallsTo(Ended(l).log, a));
    }
  }

  /** The present worker's calls, after those of its predecessors, leave its address in the stage its
      fields describe. */
  lemma PresentStage(lives: seq<Life>, es: seq<Answers>, a: Addr)
    ensures var w := Reconciles(SPAWNED, es); var st := After(Down, CallsSoFar(lives, w, a));
            if w.phase.Running? && w.ip == a then st == Serving(w.port) else st.Down? || st.Flushed?
  {
    hide Reconciles;
    var w := Reconciles(SPAWNED, es);
    LivesEndDown(lives, a);
    AlwaysSettled(es);
    assert StageFits(w, a);
    AfterConcat(Down, CallsOfLives(lives, a), CallsTo(w.log, a));
    StartsAlike(Down, After(Down, CallsOfLives(lives, a)), CallsTo(w.log, a));
  }

  /** Run any succession of workers for an address next to anything else. At any point of what they
      do in the proxy, `later` being what is still to come, every flow to the address was opened to
      the container running there, provided kernel deletes for the address succeed and no Unmanage
      from outside hits its pool. */
  lemma WorkersKeepIsolation(acts: seq<ProxyMachine.Action>, a: Addr, lives: seq<Life>, es: seq<Answers>,
                             later: seq<Event>)
    requires ProxyMachine.Run(acts).Some? && ProxyMachine.Run(acts).value.adds < U32
    requires Isolation.DeletesSucceed(acts, a) && Isolation.NeverDiscarded(acts, a)
    requires CallsSoFar(lives, Reconciles(SPAWNED, es), a) == Isolation.Log(acts, a) + later
    ensures Isolation.Isolated(ProxyMachine.Run(acts).value, a)
  {
    hide Isolation.Isolated, Reconciles;
    PresentStage(lives, es, a);
    BadIsForever(Down, Isolation.Log(acts, a), later);
    Isolation.InstanceIsolation(acts, a);
  }

  /** When all calls so far have completed, the router holds the address exactly as the present
      worker's fields say: once, on its port, while it is running, and nowhere otherwise. */
  lemma RouterFollowsWorker(acts: seq<ProxyMachine.Action>, a: Addr, lives: seq<Life>, es: seq<Answers>)
    requires ProxyMachine.Run(acts).Some? && ProxyMachine.Run(acts).value.adds < U32
    requires Isolation.DeletesSucceed(acts, a) && Isolation.NeverDiscarded(acts, a)
    requires CallsSoFar(lives, Reconciles(SPAWNED, es), a) == Isolation.Log(acts, a)
    ensures var w := Reconciles(SPAWNED, es); var r := ProxyMachine.Run(acts).value.r;
            if w.phase.Running? && w.ip == a then exists g :: Isolation.HeldExactly(r, a, w.port, g)
            else Isolation.NotHeld(r, a)
  {
    hide Isolation.Isolated, Reconciles;
    PresentStage(lives, es, a);
    Isolation.InstanceIsolation(acts, a);
  }

  // ---- The reap of a standalone server ----

  /** The workers that have served one address, the present one last, and what is still to come of the
      calls they have decided on. */
  datatype Succession = Succession(lives: seq<Life>, es: seq<Answers>, later: seq<Event>)

  function Present(w: Succession): Worker { Reconciles(SPAWNED, w.es) }

  /** The address's workers may be anywhere in their calls; nothing went wrong for it below. */
  ghost predicate Underway(acts: seq<ProxyMachine.Action>, a: Addr, w: Succession)
    requires ProxyMachine.Run(acts).Some?
  {
    && Isolation.DeletesSucceed(acts, a) && Isolation.NeverDiscarded(acts, a)
    && CallsSoFar(w.lives, Present(w), a) == Isolation.Log(acts, a) + w.later
  }

  predicate RunsOn(w: Worker, a: Addr, port: Port)
  {
    w.phase.Running? && w.ip == a && w.port == port
  }

  /** Where a server is on a port for the proxy: its stage once its calls are made says what its worker's
      fields say. */
  lemma StageOfPresent(acts: seq<ProxyMachine.Action>, a: Addr, w: Succession, port: Port)
    requires ProxyMachine.Run(acts).Some? && Underway(acts, a, w)
    ensures Isolation.StageAt(acts, a) != Bad
    ensures w.later == [] ==> (Isolation.OnPort(Isolation.StageAt(acts, a), port) <==> RunsOn(Present(w), a, port))
  {
    hide Reconciles, ProxyMachine.Run, CallsSoFar;
    PresentStage(w.lives, w.es, a);
    BadIsForever(Down, Isolation.Log(acts, a), w.later);
    assert Isolation.Log(acts, a) + [] == Isolation.Log(acts, a);
  }

  lemma ReapedIsDown(es: seq<Answers>, e: Answers)
    requires e.read.RowGone?
    ensures !Reconciles(SPAWNED, es + [e]).phase.Running?
  {
    assert (es + [e])[..|es + [e]| - 1] == es;
    AlwaysSettled(es);
    BringDownSettles(Reconciles(SPAWNED, es), e);
  }

  /** The Unmanage of a reap comes after the worker's own bring-down. It finds its pool empty, and so
      is harmless, if and only if no other server is registered on that port by then or is in the
      middle of registering there, wherever the other workers are in their calls. */
  lemma ReapFindsEmptyPool(acts: seq<ProxyMachine.Action>, ws: Addr -> Succession, a: Addr, es: seq<Answers>, e: Answers)
    requires ProxyMachine.Run(acts).Some? && ProxyMachine.Run(acts).value.adds < U32
    requires forall x :: Underway(acts, x, ws(x))
    requires ws(a).es == es + [e] && ws(a).later == [] && e.read.RowGone?
    ensures var port := Present(ws(a)).port;
            ProxyMachine.EmptyPool(ProxyMachine.Run(acts).value.r, port)
            <==> forall x :: x != a ==> !Isolation.OnPort(Isolation.StageAt(acts, x), port)
  {
    hide BringDown, Reconciles, ProxyMachine.Run, Isolation.OnPort, Isolation.StageAt;
    ReapedIsDown(es, e);
    var port := Present(ws(a)).port;
    forall x
      ensures Isolation.DeletesSucceed(acts, x) && Isolation.NeverDiscarded(acts, x) && Isolation.StageAt(acts, x) != Bad
    {
      assert Underway(acts, x, ws(x));
      StageOfPresent(acts, x, ws(x), port);
    }
    assert Underway(acts, a, ws(a));
    StageOfPresent(acts, a, ws(a), port);
    Isolation.PoolEmptyExactly(acts, port);
  }
}
