/** `orchestration/proxy/proxy.go` and `conntrack.go`: the entrypoints as methods of the proxy
    object. Each holds `opMu` throughout, and is proved to do what its sub-steps in ProxyMachine do
    when no packet comes between them. Netlink outcomes are parameters. */
module Proxy {
  import opened Wrappers
  import opened RouterState
  import opened ProxyMachine
  import R = Router

  lemma RunSnoc(s: System, acts: seq<Action>, a: Action)
    requires RunFrom(s, acts).Some? && Enabled(RunFrom(s, acts).value, a)
    ensures RunFrom(s, acts + [a]) == Some(Step(RunFrom(s, acts).value, a))
  {
    assert (acts + [a])[..|acts + [a]| - 1] == acts;
  }

  /** The sub-steps of AddBackend: a replaced backend's stale element is deleted first, and a failed
      install takes the backend out of its pool again. */
  function AddActions(s: System, port: Port, ip: Addr, delOk: bool, addOk: bool): seq<Action>
  {
    [BeginAdd(port, ip)]
    + (if AddBackend(s.r, port, ip).replaced then [DeleteElement(delOk)] else [])
    + [InstallElement(addOk)]
    + (if addOk then [] else [RollBack])
  }

  /** What AddBackend leaves when no packet comes in between. */
  function AddRouting(s: System, port: Port, ip: Addr, addOk: bool): Routing
  {
    var d := AddBackend(s.r, port, ip);
    if addOk then d.r else RemoveBackend(d.r, port, ip).r
  }

  function AddKernel(s: System, port: Port, ip: Addr, delOk: bool, addOk: bool): map<nat, Addr>
  {
    var d := AddBackend(s.r, port, ip);
    var kernel := if d.replaced && delOk then s.kernel - {MarkOf(d.oldGen)} else s.kernel;
    if addOk then kernel[MarkOf(d.newGen) := ip] else kernel
  }

  lemma StepBegin(s: System, port: Port, ip: Addr)
    requires s.op == Idle
    ensures var d := AddBackend(s.r, port, ip); var t := Step(s, BeginAdd(port, ip));
            && t.r == d.r && t.kernel == s.kernel
            && t.op == if d.replaced then DelStale(port, ip, d.newGen, d.oldGen) else Install(port, ip, d.newGen)
  {
    hide AddBackend;
  }

  lemma StepDelete(s: System, ok: bool)
    requires s.op.DelStale?
    ensures var t := Step(s, DeleteElement(ok));
            && t.r == s.r && t.op == Install(s.op.port, s.op.ip, s.op.newGen)
            && t.kernel == if ok then s.kernel - {MarkOf(s.op.oldGen)} else s.kernel
  {
    hide At, MarkOf;
  }

  lemma StepInstall(s: System, ok: bool)
    requires s.op.Install?
    ensures var t := Step(s, InstallElement(ok));
            && t.r == s.r && t.op == (if ok then Idle else Rollback(s.op.port, s.op.ip, s.op.newGen))
            && t.kernel == if ok then s.kernel[MarkOf(s.op.newGen) := s.op.ip] else s.kernel
  {
    hide At, MarkOf;
  }

  lemma StepRollBack(s: System)
    requires s.op.Rollback?
    ensures var t := Step(s, RollBack);
            t.r == RemoveBackend(s.r, s.op.port, s.op.ip).r && t.op == Idle && t.kernel == s.kernel
  {
    hide RemoveBackend;
  }

  lemma AddReachesInstall(s: System, port: Port, ip: Addr, delOk: bool) returns (acts: seq<Action>)
    requires s.op == Idle
    ensures acts == [BeginAdd(port, ip)] + if AddBackend(s.r, port, ip).replaced then [DeleteElement(delOk)] else []
    ensures var t := RunFrom(s, acts); var d := AddBackend(s.r, port, ip);
            && t.Some? && t.value.op == Install(port, ip, d.newGen) && t.value.r == d.r
            && t.value.kernel == if d.replaced && delOk then s.kernel - {MarkOf(d.oldGen)} else s.kernel
  {
    BeginRuns(s, port, ip);
    hide Step, AddBackend, RunFrom, MarkOf;
    StepBegin(s, port, ip);
    acts := [BeginAdd(port, ip)];
    if AddBackend(s.r, port, ip).replaced {
      var t := RunFrom(s, acts).value;
      RunSnoc(s, acts, DeleteElement(delOk));
      StepDelete(t, delOk);
      acts := acts + [DeleteElement(delOk)];
    }
  }

  lemma BeginRuns(s: System, port: Port, ip: Addr)
    requires s.op == Idle
    ensures RunFrom(s, [BeginAdd(port, ip)]) == Some(Step(s, BeginAdd(port, ip)))
  {
    hide Step;
    RunSnoc(s, [], BeginAdd(port, ip));
    assert [] + [BeginAdd(port, ip)] == [BeginAdd(port, ip)];
  }

  /** The sub-steps of AddBackend, taken one after another. */
  lemma AddRuns(s: System, port: Port, ip: Addr, delOk: bool, addOk: bool)
    requires s.op == Idle
    ensures Reaches(s, AddActions(s, port, ip, delOk, addOk), AddRouting(s, port, ip, addOk),
                    AddKernel(s, port, ip, delOk, addOk))
  {
    hide Step, AddBackend, RemoveBackend, RunFrom, MarkOf;
    var acts := AddReachesInstall(s, port, ip, delOk);
    var t := RunFrom(s, acts).value;
    RunSnoc(s, acts, InstallElement(addOk));
    StepInstall(t, addOk);
    if addOk {
      assert AddActions(s, port, ip, delOk, addOk) == acts + [InstallElement(addOk)];
    } else {
      var u := RunFrom(s, acts + [InstallElement(addOk)]).value;
      RunSnoc(s, acts + [InstallElement(addOk)], RollBack);
      StepRollBack(u);
      assert AddActions(s, port, ip, delOk, addOk) == acts + [InstallElement(addOk)] + [RollBack];
    }
  }

  function RemoveActions(s: System, port: Port, ip: Addr, maybeUnbind: bool, delOk: bool): seq<Action>
  {
    [BeginRemove(port, ip, maybeUnbind), DeleteElement(delOk)]
    + (if maybeUnbind && RemoveBackend(s.r, port, ip).empty then [DoUnbind] else [])
  }

  predicate Reaches(s: System, acts: seq<Action>, r: Routing, kernel: map<nat, Addr>)
  {
    var t := RunFrom(s, acts);
    t.Some? && t.value.op == Idle && t.value.r == r && t.value.kernel == kernel
  }

  /** What a flush that is not interrupted leaves: everything but the matching flows it could delete. */
  function Surviving(flows: set<Flow>, ip: Addr, deletable: Flow -> bool): set<Flow>
  {
    set f | f in flows && !(f.udp && f.reply == ip && deletable(f))
  }

  class Proxy {
    const router: R.Router
    var kernel: map<nat, Addr>  // the nft map @pool
    var flows: set<Flow>        // the conntrack table

    ghost predicate Shows(s: System)
      reads this, router
    {
      s.op == Idle && s.r == router.State() && s.kernel == kernel && s.flows == flows
    }

    constructor ()
      ensures fresh(router) && Shows(START)
    {
      router := new R.Router();
      kernel, flows := map[], {};
    }

    method AddPoolElement(mark: nat, ip: Addr, ok: bool)
      modifies this`kernel
      ensures kernel == if ok then old(kernel)[mark := ip] else old(kernel)
    {
      if ok {
        kernel := kernel[mark := ip];
      }
    }

    method DelPoolElement(mark: nat, ok: bool)
      modifies this`kernel
      ensures kernel == if ok then old(kernel) - {mark} else old(kernel)
    {
      if ok {
        kernel := kernel - {mark};
      }
    }

    method AddBackend(port: Port, ip: Addr, delOk: bool, addOk: bool, ghost s: System) returns (ok: bool)
      requires Shows(s)
      modifies this`kernel, router
      ensures ok == addOk
      ensures Reaches(s, AddActions(s, port, ip, delOk, addOk), router.State(), kernel)
    {
      hide RouterState.AddBackend, RouterState.RemoveBackend, AddActions, Reaches, MarkOf, Inc64;
      AddRuns(s, port, ip, delOk, addOk);
      var newGen, oldGen, replaced := router.AddBackend(port, ip);
      if replaced {
        DelPoolElement(MarkOf(oldGen), delOk);
      }
      AddPoolElement(MarkOf(newGen), ip, addOk);
      if !addOk {
        var _, _, _ := router.RemoveBackend(port, ip);
      }
      return addOk;
    }

    /** The shared body of the two removals, up to its unlock. */
    method RemoveBackendLocked(port: Port, ip: Addr, maybeUnbind: bool, delOk: bool, ghost s: System)
      returns (empty: bool)
      requires Shows(s)
      modifies this`kernel, router`pools
      ensures empty == RouterState.RemoveBackend(s.r, port, ip).empty
      ensures router.State() == RouterState.RemoveBackend(s.r, port, ip).r
      ensures var t := RunFrom(s, [BeginRemove(port, ip, maybeUnbind), DeleteElement(delOk)]);
              && t.Some? && t.value.r == router.State() && t.value.kernel == kernel
              && t.value.op == if maybeUnbind && empty then Unbind(port, ip) else Idle
    {
      RunSnoc(s, [], BeginRemove(port, ip, maybeUnbind));
      RunSnoc(s, [BeginRemove(port, ip, maybeUnbind)], DeleteElement(delOk));
      assert [BeginRemove(port, ip, maybeUnbind)] + [DeleteElement(delOk)]
          == [BeginRemove(port, ip, maybeUnbind), DeleteElement(delOk)];
      var gen, ok, e := router.RemoveBackend(port, ip);
      if ok {
        DelPoolElement(MarkOf(gen), delOk);
      }
      empty := e;
    }

    method RemoveBackendDoNotUnbind(port: Port, ip: Addr, delOk: bool, ghost s: System)
      requires Shows(s)
      modifies this`kernel, router`pools
      ensures Reaches(s, RemoveActions(s, port, ip, false, delOk), router.State(), kernel)
    {
      var _ := RemoveBackendLocked(port, ip, false, delOk, s);
      assert RemoveActions(s, port, ip, false, delOk) == [BeginRemove(port, ip, false), DeleteElement(delOk)];
    }

    method RemoveBackendMaybeUnbind(port: Port, ip: Addr, delOk: bool, ghost s: System)
      requires Shows(s)
      modifies this`kernel, router`pools
      ensures Reaches(s, RemoveActions(s, port, ip, true, delOk), router.State(), kernel)
    {
      var empty := RemoveBackendLocked(port, ip, true, delOk, s);
      ghost var acts := [BeginRemove(port, ip, true), DeleteElement(delOk)];
      if empty {
        router.Unmanage(port);
        RunSnoc(s, acts, DoUnbind);
      }
      assert RemoveActions(s, port, ip, true, delOk) == if empty then acts + [DoUnbind] else acts;
    }

    /** Takes no opMu and deletes no element. */
    method Unmanage(port: Port)
      modifies router`pools
      ensures router.State() == RouterState.Unmanage(old(router.State()), port)
    {
      router.Unmanage(port);
    }

    method FlushConntrack(ip: Addr, dumpOk: bool, deletable: Flow -> bool) returns (ok: bool)
      modifies this`flows
      ensures ok == dumpOk
      ensures flows == if dumpOk then Surviving(old(flows), ip, deletable) else old(flows)
    {
      if !dumpOk {
        return false;
      }
      ghost var was := flows;
      var todo := flows;
      while todo != {}
        invariant todo <= was
        invariant flows == Surviving(was - todo, ip, deletable) + todo
        decreases |todo|
      {
        var f :| f in todo;
        todo := todo - {f};
        if f.udp && f.reply == ip && deletable(f) {
          flows := flows - {f};
        }
      }
      return true;
    }
  }

  // ---- The flush as machine steps ----

  function FlushSteps(order: seq<Flow>, deletable: Flow -> bool): seq<Action>
  {
    seq(|order|, i requires 0 <= i < |order| => FlushFlow(order[i], deletable(order[i])))
  }

  lemma {:induction false} FlushStepsRun(s: System, ip: Addr, order: seq<Flow>, deletable: Flow -> bool)
    requires s.op == Flushing(ip, s.flows) && (forall f :: f in order ==> f in s.flows)
    requires forall i, j :: 0 <= i < j < |order| ==> order[i] != order[j]
    ensures var t := RunFrom(s, FlushSteps(order, deletable));
            && t.Some?
            && t.value.flows == Surviving(s.flows, ip, f => f in order && deletable(f))
            && t.value.op == Flushing(ip, s.flows - set f | f in order)
  {
    if order != [] {
      var n := |order| - 1;
      FlushStepsRun(s, ip, order[..n], deletable);
      assert FlushSteps(order, deletable)
          == FlushSteps(order[..n], deletable) + [FlushFlow(order[n], deletable(order[n]))];
      RunSnoc(s, FlushSteps(order[..n], deletable), FlushFlow(order[n], deletable(order[n])));
      assert order == order[..n] + [order[n]];
      assert order[n] !in order[..n];
    }
  }

  /** In whatever order the dumped flows are visited, the uninterrupted steps leave what the method
      FlushConntrack leaves. */
  lemma FlushIsItsSteps(s: System, ip: Addr, order: seq<Flow>, deletable: Flow -> bool)
    requires s.op == Flushing(ip, s.flows) && (forall f :: f in order <==> f in s.flows)
    requires forall i, j :: 0 <= i < j < |order| ==> order[i] != order[j]
    ensures var t := RunFrom(s, FlushSteps(order, deletable) + [EndFlush]);
            t.Some? && t.value.op == Idle && t.value.flows == Surviving(s.flows, ip, deletable)
  {
    FlushStepsRun(s, ip, order, deletable);
    RunSnoc(s, FlushSteps(order, deletable), EndFlush);
  }

  /** An uninterrupted flush takes exactly the udp flows replying from the address whose delete succeeds. */
  lemma FlushTakesExactly(s: System, ip: Addr, order: seq<Flow>, deletable: Flow -> bool, f: Flow)
    requires s.op == Flushing(ip, s.flows) && (forall g :: g in order <==> g in s.flows)
    requires forall i, j :: 0 <= i < j < |order| ==> order[i] != order[j]
    ensures RunFrom(s, FlushSteps(order, deletable) + [EndFlush]).Some?
    ensures f in RunFrom(s, FlushSteps(order, deletable) + [EndFlush]).value.flows <==>
              f in s.flows && (!f.udp || f.reply != ip || !deletable(f))
  {
    FlushIsItsSteps(s, ip, order, deletable);
    hide RunFrom, FlushSteps;
  }

  // ---- What a removal does to its port ----

  /** RemoveBackendDoNotUnbind leaves the port as managed as it was, with an empty pool if need be;
      RemoveBackendMaybeUnbind leaves it managed exactly if another backend is there. */
  lemma RemovalUnbindsDrained(s: System, port: Port, ip: Addr, maybeUnbind: bool, delOk: bool)
    requires s.op == Idle && WellFormed(s.r)
    ensures var t := RunFrom(s, RemoveActions(s, port, ip, maybeUnbind, delOk));
            && t.Some?
            && (forall g :: !At(t.value.r, port, ip, g))
            && (port in t.value.r.pools <==>
                  port in s.r.pools && (maybeUnbind ==> exists x, g :: x != ip && At(s.r, port, x, g)))
  {
    RemoveBackendMembership(s.r, port, ip);
    var d := RemoveBackend(s.r, port, ip);
    var begun, deleted := [BeginRemove(port, ip, maybeUnbind)], [BeginRemove(port, ip, maybeUnbind), DeleteElement(delOk)];
    RunSnoc(s, [], BeginRemove(port, ip, maybeUnbind));
    RunSnoc(s, begun, DeleteElement(delOk));
    assert [] + begun == begun && begun + [DeleteElement(delOk)] == deleted;
    var u := RunFrom(s, deleted).value;
    assert u.r == d.r && u.op == if maybeUnbind && d.empty then Unbind(port, ip) else Idle;
    hide RunFrom, RemoveBackend, Step;
    if maybeUnbind && d.empty {
      RunSnoc(s, deleted, DoUnbind);
      Unbinds(u);
      UnmanageMembership(d.r, port);
      assert RemoveActions(s, port, ip, maybeUnbind, delOk) == deleted + [DoUnbind];
    } else {
      assert RemoveActions(s, port, ip, maybeUnbind, delOk) == deleted;
    }
    NotEmptyHolds(d.r, port);
  }

  lemma Unbinds(s: System)
    requires s.op.Unbind?
    ensures Step(s, DoUnbind).r == Unmanage(s.r, s.op.port)
  {
  }

  lemma NotEmptyHolds(r: Routing, port: Port)
    ensures port in r.pools ==> (r.pools[port].backends != [] <==> exists x, g :: At(r, port, x, g))
  {
    if port in r.pools && r.pools[port].backends != [] {
      var b := r.pools[port].backends[0];
      assert b == Backend(b.ip, b.gen) && At(r, port, b.ip, b.gen);
    }
  }
}
