/** Instance isolation: if the calls made for an address come in protocol order, no conntrack flow
    to that address outlives the container it was opened to, in any interleaving with packets,
    sweeps, other workers' operations and container deaths. */
module Isolation {
  import opened Wrappers
  import opened RouterState
  import opened ProxyMachine
  import opened CallProtocol

  /** What an action is to the worker of address `a`. */
  function EventOf(s: System, act: Action, a: Addr): Option<Event>
    requires Enabled(s, act)
  {
    match act
    case BeginFlush(ip) => if ip == a then Some(Begin(Flush)) else None
    case BeginStart(ip) => if ip == a then Some(Begin(Start)) else None
    case BeginAdd(port, ip) => if ip == a then Some(Begin(Add(port))) else None
    case BeginRemove(port, ip, maybe) => if ip == a then Some(Begin(Remove(port, maybe))) else None
    case BeginStop(ip) => if ip == a then Some(Begin(Stop)) else None
    case DumpFlows(ok) => if s.op.ip == a && !ok then Some(End(Flush, false)) else None
    case EndFlush => if s.op.ip == a then Some(End(Flush, true)) else None
    case EndStart(ip, ok, _) => if ip == a then Some(End(Start, ok)) else None
    case InstallElement(ok) => if s.op.ip == a && ok then Some(End(Add(s.op.port), true)) else None
    case RollBack => if s.op.ip == a then Some(End(Add(s.op.port), false)) else None
    case DeleteElement(_) =>
      if s.op.DelRemoved? && s.op.ip == a && !(s.op.maybeUnbind && s.op.empty)
      then Some(End(Remove(s.op.port, s.op.maybeUnbind), true)) else None
    case DoUnbind => if s.op.ip == a then Some(End(Remove(s.op.port, true), true)) else None
    case EndStop(ip, _) => if ip == a then Some(End(Stop, true)) else None
    case _ => None
  }

  /** A kernel delete made for `a` failed: of its @pool element, or of a flow to it that is still there. */
  predicate FailedDelete(s: System, act: Action, a: Addr)
    requires Enabled(s, act)
  {
    match act
    case DeleteElement(ok) => s.op.ip == a && !ok
    case FlushFlow(f, ok) => s.op.ip == a && f in s.flows && f.udp && f.reply == a && !ok
    case _ => false
  }

  /** An outside Unmanage that discards a pool with `a` in it. */
  ghost predicate Discards(s: System, act: Action, a: Addr)
  {
    act.UnmanagePort? && exists g :: At(s.r, act.port, a, g)
  }

  /** The calls made for `a` along a run, in order. */
  function Log(acts: seq<Action>, a: Addr): seq<Event>
    requires Run(acts).Some?
  {
    if acts == [] then []
    else
      var pre := acts[..|acts| - 1];
      var e := EventOf(Run(pre).value, acts[|acts| - 1], a);
      if e.Some? then Log(pre, a) + [e.value] else Log(pre, a)
  }

  function StageAt(acts: seq<Action>, a: Addr): Stage
    requires Run(acts).Some?
  {
    After(Down, Log(acts, a))
  }

  predicate DeletesSucceed(acts: seq<Action>, a: Addr)
    requires Run(acts).Some?
  {
    acts == [] ||
    var pre := acts[..|acts| - 1];
    DeletesSucceed(pre, a) && !FailedDelete(Run(pre).value, acts[|acts| - 1], a)
  }

  /** No outside Unmanage ever discarded a pool that held `a`. */
  ghost predicate NeverDiscarded(acts: seq<Action>, a: Addr)
    requires Run(acts).Some?
  {
    acts == [] ||
    var pre := acts[..|acts| - 1];
    NeverDiscarded(pre, a) && !Discards(Run(pre).value, acts[|acts| - 1], a)
  }

  // ---- Invariant ----

  ghost predicate Isolated(s: System, a: Addr)
  {
    forall f :: f in s.flows && f.udp && f.reply == a && a in s.containers ==>
      f.during == Some(s.containers[a])
  }

  ghost predicate NotHeld(r: Routing, a: Addr)
  {
    forall port, g :: !At(r, port, a, g)
  }

  /** The router holds `a` on `port`, and on no other port. */
  ghost predicate HeldOnlyOn(r: Routing, a: Addr, port: Port)
  {
    && (exists g :: At(r, port, a, g))
    && (forall q, g :: At(r, q, a, g) ==> q == port)
  }

  /** The router holds `a` once in all, on `port` under generation `gen`. */
  ghost predicate HeldExactly(r: Routing, a: Addr, port: Port, gen: nat)
  {
    forall q, g :: At(r, q, a, g) <==> q == port && g == gen
  }

  ghost predicate Quiet(s: System, a: Addr)
  {
    forall f :: f in s.flows && f.udp ==> f.reply != a
  }

  ghost predicate NothingStale(s: System, a: Addr)
  {
    forall m :: LeftBehind(s, m) && m in s.given ==> s.given[m] != a
  }

  ghost predicate OpMatches(s: System, st: Stage, a: Addr)
  {
    if s.op.Idle? || s.op.ip != a then
      !(st.Busy? && (st.call.Flush? || st.call.Add? || st.call.Remove?))
    else
      match s.op
      case DelStale(_, _, _, _) => false
      case Install(port, _, _) => st.Busy? && st.call == Add(port)
      case Rollback(port, _, _) => st.Busy? && st.call == Add(port)
      case DelRemoved(port, _, _, maybe, _) => st.Busy? && st.call == Remove(port, maybe)
      case Unbind(port, _) => st.Busy? && st.call == Remove(port, true)
      case Dump(_) => st.Busy? && st.call.Flush?
      case Flushing(_, todo) =>
        && st.Busy? && st.call.Flush?
        && (forall f :: f in s.flows && f.udp && f.reply == a ==> f in todo)
  }

  ghost predicate RouterMatches(s: System, st: Stage, a: Addr)
  {
    match st
    case Serving(port) => HeldOnlyOn(s.r, a, port)
    case Busy(_, Add(port)) => HeldOnlyOn(s.r, a, port)
    case _ => NotHeld(s.r, a)
  }

  ghost predicate QuietWhenDue(s: System, st: Stage, a: Addr)
  {
    st.Flushed? || st.Started? || (st.Busy? && st.call.Start?) ==> Quiet(s, a)
  }

  ghost predicate InOrder(s: System, st: Stage, a: Addr)
  {
    && Isolated(s, a) && NothingStale(s, a)
    && OpMatches(s, st, a) && RouterMatches(s, st, a) && QuietWhenDue(s, st, a)
  }

  /** While the router does not hold `a`, no kernel element points at it either, except the one a
      running removal is about to delete. */
  lemma NoElement(s: System, a: Addr)
    requires Inv(s) && s.adds < U32 && NotHeld(s.r, a) && NothingStale(s, a)
    requires s.op.DelStale? || s.op.DelRemoved? ==> s.op.ip != a
    ensures forall m :: m in s.kernel ==> s.kernel[m] != a
  {
    forall m | m in s.kernel
      ensures s.kernel[m] != a
    {
      assert Live(s.r, m) ==> s.given[m] != a;
      assert s.kernel[m] == a ==> Expected(s, m);
    }
  }

  /** An action that may happen next: enabled, with its kernel deletes for `a` succeeding and no pool
      with `a` discarded from outside, and in protocol order if it is a call for `a`. */
  ghost predicate Due(s: System, st: Stage, act: Action, a: Addr)
  {
    && Inv(s) && InOrder(s, st, a) && Enabled(s, act) && Step(s, act).adds < U32
    && !FailedDelete(s, act, a) && !Discards(s, act, a)
    && StageAfter(s, st, act, a) != Bad
  }

  function StageAfter(s: System, st: Stage, act: Action, a: Addr): Stage
    requires Enabled(s, act)
  {
    var e := EventOf(s, act, a);
    if e.Some? then Next(st, e.value) else st
  }

  ghost predicate StaysInOrder(s: System, st: Stage, act: Action, a: Addr)
    requires Enabled(s, act)
  {
    InOrder(Step(s, act), StageAfter(s, st, act, a), a)
  }

  /** A packet's execution opens a flow only to the container running there now. */
  lemma ExecuteStep(s: System, st: Stage, a: Addr, i: nat)
    requires Due(s, st, Execute(i), a)
    ensures StaysInOrder(s, st, Execute(i), a)
  {
    if RouterMatches(s, st, a) && NotHeld(s.r, a) && !(s.op.DelRemoved? && s.op.ip == a) {
      NoElement(s, a);
    }
  }

  lemma RouterStep(s: System, act: Action, a: Addr)
    requires Inv(s) && Enabled(s, act) && s.adds < U32
    requires !act.BeginAdd? && !act.BeginRemove? && !act.RollBack? && !Discards(s, act, a)
    ensures forall q, g :: At(Step(s, act).r, q, a, g) <==> At(s.r, q, a, g)
  {
    if act.UnmanagePort? { UnmanageMembership(s.r, act.port); } else { StepHoldings(s, act); }
  }

  lemma AddStep(s: System, st: Stage, a: Addr, port: Port, ip: Addr)
    requires Due(s, st, BeginAdd(port, ip), a)
    ensures StaysInOrder(s, st, BeginAdd(port, ip), a)
  {
    hide KernelMatches, OpConsistent, Remembered, Live, NothingStale, AddBackend;
    AddBackendMembership(s.r, port, ip);
    var s' := Step(s, BeginAdd(port, ip));
    AddLeavesNothing(s, a, port, ip);
    if ip == a {
      assert At(s'.r, port, a, s'.r.gen);
    } else {
      assert forall q, g :: At(s'.r, q, a, g) <==> At(s.r, q, a, g);
    }
    hide Inv;
  }

  lemma AddLeavesNothing(s: System, a: Addr, port: Port, ip: Addr)
    requires Inv(s) && s.adds + 1 < U32 && Enabled(s, BeginAdd(port, ip)) && NothingStale(s, a)
    ensures NothingStale(Step(s, BeginAdd(port, ip)), a)
  {
    AddLive(s, port, ip);
    hide AddBackend, Live, WellFormed, Expected;
    var s' := Step(s, BeginAdd(port, ip));
    forall m | LeftBehind(s', m)
      ensures m in s.given && s'.given[m] == s.given[m]
    {
      assert LeftBehind(s, m);
    }
  }

  lemma RemoveStep(s: System, st: Stage, a: Addr, port: Port, ip: Addr, maybe: bool)
    requires Due(s, st, BeginRemove(port, ip, maybe), a)
    ensures StaysInOrder(s, st, BeginRemove(port, ip, maybe), a)
  {
    RemoveBackendMembership(s.r, port, ip);
    if ip != a {
      assert forall q, g :: At(Step(s, BeginRemove(port, ip, maybe)).r, q, a, g) <==> At(s.r, q, a, g);
    }
  }

  lemma RollBackStep(s: System, st: Stage, a: Addr)
    requires Due(s, st, RollBack, a)
    ensures StaysInOrder(s, st, RollBack, a)
  {
    RemoveBackendMembership(s.r, s.op.port, s.op.ip);
    if s.op.ip != a {
      assert forall q, g :: At(Step(s, RollBack).r, q, a, g) <==> At(s.r, q, a, g);
    }
  }

  lemma DeleteStep(s: System, st: Stage, a: Addr, ok: bool)
    requires Due(s, st, DeleteElement(ok), a)
    ensures StaysInOrder(s, st, DeleteElement(ok), a)
  {
    hide Live, Expected, At, WellFormed, Remembered;
    var s' := Step(s, DeleteElement(ok));
    assert s'.r == s.r && s'.flows == s.flows && s'.containers == s.containers && s'.given == s.given;
    assert NothingStale(s', a) by {
      var gone := if s.op.DelStale? then Some(s.op.oldGen) else s.op.found;
      assert s'.stale == s.stale || (!ok && gone.Some? && MarkOf(gone.value) == gone.value
                                     && s'.stale == s.stale + {gone.value} && s.given[gone.value] == s.op.ip);
    }
    assert Isolated(s', a);
    if s.op.ip != a {
      assert OpMatches(s', st, a);
    }
  }

  /** Steps that touch neither the running operation nor who is held, and open no udp flow. */
  lemma Frame(s: System, s': System, st: Stage, a: Addr)
    requires InOrder(s, st, a)
    requires forall q, g :: At(s'.r, q, a, g) <==> At(s.r, q, a, g)
    requires s'.op == s.op && s'.stale == s.stale && s'.orphaned == s.orphaned && s'.given == s.given
    requires forall f :: f in s'.flows && f.udp ==> f in s.flows
    requires a in s'.containers ==> a in s.containers && s'.containers[a] == s.containers[a]
    ensures InOrder(s', st, a)
  {
  }

  predicate EndsOp(act: Action) { act.InstallElement? || act.DoUnbind? }

  lemma InstallLeavesNothing(s: System, st: Stage, a: Addr, ok: bool)
    requires Due(s, st, InstallElement(ok), a)
    ensures NothingStale(Step(s, InstallElement(ok)), a)
  {
    hide Live, Expected, Remembered;
    var s' := Step(s, InstallElement(ok));
    assert s'.orphaned == s.orphaned || (s'.orphaned == s.orphaned + {s.op.newGen} && s.op.ip != a);
  }

  lemma EndStep(s: System, st: Stage, act: Action, a: Addr)
    requires Due(s, st, act, a) && EndsOp(act)
    ensures StaysInOrder(s, st, act, a)
  {
    RouterStep(s, act, a);
    if act.InstallElement? { InstallLeavesNothing(s, st, a, act.ok); }
    hide Inv, NothingStale, LeftBehind, At, Unmanage;
    var s' := Step(s, act);
    assert s'.containers == s.containers && s'.stale == s.stale && s'.given == s.given && s'.flows == s.flows;
    assert act.DoUnbind? ==> s'.orphaned == s.orphaned && NothingStale(s', a) by { SameLeft(s, s', a); }
  }

  lemma SameLeft(s: System, s': System, a: Addr)
    requires NothingStale(s, a)
    ensures s'.stale == s.stale && s'.orphaned == s.orphaned && s'.given == s.given ==> NothingStale(s', a)
  {
  }

  predicate FlushesFlows(act: Action)
  {
    act.BeginFlush? || act.DumpFlows? || act.FlushFlow? || act.EndFlush?
  }

  lemma FlushStep(s: System, st: Stage, act: Action, a: Addr)
    requires Due(s, st, act, a) && FlushesFlows(act)
    ensures StaysInOrder(s, st, act, a)
  {
    hide Inv, At;
    var s' := Step(s, act);
    var st' := StageAfter(s, st, act, a);
    assert s'.r == s.r && s'.containers == s.containers && s'.given == s.given;
    assert s'.stale == s.stale && s'.orphaned == s.orphaned;
    assert forall f :: f in s'.flows ==> f in s.flows;
    assert OpMatches(s', st', a);
  }

  lemma WorkerStep(s: System, st: Stage, act: Action, a: Addr)
    requires Due(s, st, act, a)
    requires act.BeginStart? || act.BeginStop? || act.EndStart? || act.EndStop?
    ensures StaysInOrder(s, st, act, a)
  {
    hide Inv;
    if act.ip != a {
      Frame(s, Step(s, act), st, a);
    }
  }

  lemma OtherStep(s: System, st: Stage, act: Action, a: Addr)
    requires Due(s, st, act, a)
    requires !act.BeginAdd? && !act.BeginRemove? && !act.RollBack? && !act.DeleteElement? && !act.Execute?
    requires !act.UnmanagePort? && !EndsOp(act) && !FlushesFlows(act) && !act.BeginStart? && !act.BeginStop? && !act.EndStart? && !act.EndStop?
    ensures StaysInOrder(s, st, act, a)
  {
    hide InOrder;
    RouterStep(s, act, a);
    Frame(s, Step(s, act), st, a);
  }

  lemma UnmanageStep(s: System, st: Stage, a: Addr, port: Port)
    requires Due(s, st, UnmanagePort(port), a)
    ensures StaysInOrder(s, st, UnmanagePort(port), a)
  {
    var s' := Step(s, UnmanagePort(port));
    RouterStep(s, UnmanagePort(port), a);
    UnmanageLive(s, port);
    assert NothingStale(s', a) by {
      assert forall m, x :: At(s.r, port, x, m) ==> x != a && m in s.given && s.given[m] == x;
    }
    hide Inv, At;
  }

  lemma IsolationStep(s: System, st: Stage, act: Action, a: Addr)
    requires Due(s, st, act, a)
    ensures StaysInOrder(s, st, act, a)
  {
    hide *;
    if EndsOp(act) {
      EndStep(s, st, act, a);
    } else if FlushesFlows(act) {
      FlushStep(s, st, act, a);
    } else {
      match act
      case BeginAdd(port, ip) => AddStep(s, st, a, port, ip);
      case BeginRemove(port, ip, maybe) => RemoveStep(s, st, a, port, ip, maybe);
      case RollBack => RollBackStep(s, st, a);
      case DeleteElement(ok) => DeleteStep(s, st, a, ok);
      case Execute(i) => ExecuteStep(s, st, a, i);
      case UnmanagePort(port) => UnmanageStep(s, st, a, port);
      case BeginStart(_) => WorkerStep(s, st, act, a);
      case EndStart(_, _, _) => WorkerStep(s, st, act, a);
      case BeginStop(_) => WorkerStep(s, st, act, a);
      case EndStop(_, _) => WorkerStep(s, st, act, a);
      case _ => OtherStep(s, st, act, a);
    }
  }

  lemma StartsInOrder(a: Addr)
    ensures InOrder(START, Down, a)
  {
  }

  lemma AddsGrow(s: System, act: Action)
    requires Enabled(s, act)
    ensures s.adds <= Step(s, act).adds
  {
  }

  lemma {:induction false} IsolationRun(acts: seq<Action>, a: Addr)
    requires Run(acts).Some? && Run(acts).value.adds < U32
    requires DeletesSucceed(acts, a) && NeverDiscarded(acts, a) && StageAt(acts, a) != Bad
    ensures InOrder(Run(acts).value, StageAt(acts, a), a)
  {
    hide InOrder, Inv, Step;
    if acts == [] {
      StartsInOrder(a);
    } else {
      var pre := acts[..|acts| - 1];
      var s := Run(pre).value;
      var act := acts[|acts| - 1];
      InvRun(pre);
      var e := EventOf(s, act, a);
      if e.Some? {
        assert Log(acts, a)[..|Log(acts, a)| - 1] == Log(pre, a);
      }
      AddsGrow(s, act);
      IsolationRun(pre, a);
      IsolationStep(s, StageAt(pre, a), act, a);
    }
  }

  /** Calls in protocol order, kernel deletes that succeed, and no pool with `a` discarded from
      outside are enough: every flow to `a` was opened while the container now running at `a` was
      running, and the router holds `a` exactly while its backend is registered, once, on that port. */
  lemma InstanceIsolation(acts: seq<Action>, a: Addr)
    requires Run(acts).Some? && Run(acts).value.adds < U32
    requires DeletesSucceed(acts, a) && NeverDiscarded(acts, a) && StageAt(acts, a) != Bad
    ensures var s := Run(acts).value; var st := StageAt(acts, a);
            && Isolated(s, a)
            && (st.Serving? ==> exists g :: HeldExactly(s.r, a, st.port, g))
            && (!st.Serving? && !st.Busy? ==> NotHeld(s.r, a))
  {
    IsolationRun(acts, a);
    InvRun(acts);
    var s := Run(acts).value;
    var st := StageAt(acts, a);
    if st.Serving? {
      var g :| At(s.r, st.port, a, g);
      forall q, h
        ensures At(s.r, q, a, h) <==> q == st.port && h == g
      {
        if At(s.r, q, a, h) {
          AddrOnceInPool(s.r, st.port, a, g, h);
        }
      }
      assert HeldExactly(s.r, a, st.port, g);
    }
  }

  // ---- Who is on a port ----

  /** The backend is registered on the port, or its registration there is under way. */
  predicate OnPort(st: Stage, port: Port)
  {
    st == Serving(port) || (st.Busy? && st.call == Add(port))
  }

  /** Every address keeps to the order of calls, and nothing went wrong for it below. */
  ghost predicate AllInOrder(acts: seq<Action>)
    requires Run(acts).Some?
  {
    forall x :: DeletesSucceed(acts, x) && NeverDiscarded(acts, x) && StageAt(acts, x) != Bad
  }

  /** At every moment, in the middle of any operation too, a pool is empty exactly when no backend is
      registered on its port or being registered there. */
  lemma PoolEmptyExactly(acts: seq<Action>, port: Port)
    requires Run(acts).Some? && Run(acts).value.adds < U32 && AllInOrder(acts)
    ensures EmptyPool(Run(acts).value.r, port) <==> forall x :: !OnPort(StageAt(acts, x), port)
  {
    var r := Run(acts).value.r;
    forall x
      ensures OnPort(StageAt(acts, x), port) <==> exists g :: At(r, port, x, g)
    {
      IsolationRun(acts, x);
      RouterSaysStage(Run(acts).value, StageAt(acts, x), x, port);
    }
    hide DeletesSucceed, NeverDiscarded, StageAt, OnPort, Run;
    if !EmptyPool(r, port) {
      var b := r.pools[port].backends[0];
      assert b == Backend(b.ip, b.gen) && At(r, port, b.ip, b.gen);
      assert OnPort(StageAt(acts, b.ip), port);
    }
  }

  lemma RouterSaysStage(s: System, st: Stage, x: Addr, port: Port)
    requires InOrder(s, st, x)
    ensures OnPort(st, port) <==> exists g :: At(s.r, port, x, g)
  {
  }
}
