/** The proxy as a step machine. `opMu` serializes the backend operations, the router mutex
    serializes packets and sweeps, and the kernel acts on its own, so one step here is one critical
    section of the router, one netlink call, or one event of the environment; every interleaving of
    them is a run. Sources: `orchestration/proxy/proxy.go`, `conntrack.go`, `handler.go`, `nftables.go`. */
module ProxyMachine {
  import opened Wrappers
  import opened RouterState

  type Instance = nat

  const SECOND: Time := 1_000_000_000
  const SESSION_TTL: Time := 10 * 60 * SECOND

  /** A conntrack entry. `during` is history: the container running at `reply` when it was made. */
  datatype Flow = Flow(client: Client, port: Port, udp: bool, reply: Addr, during: Option<Instance>)

  /** A dnat verdict of `route`: the mark put on the packet, and (history) what it stood for. */
  datatype Stamp = Stamp(client: Client, port: Port, mark: nat, gen: nat, addr: Addr, time: Time)

  /** The operation holding `opMu`, at the point between two of its sub-steps. */
  datatype Op =
    | Idle
    | DelStale(port: Port, ip: Addr, newGen: nat, oldGen: nat)
    | Install(port: Port, ip: Addr, newGen: nat)
    | Rollback(port: Port, ip: Addr, newGen: nat)
    | DelRemoved(port: Port, ip: Addr, found: Option<nat>, maybeUnbind: bool, empty: bool)
    | Unbind(port: Port, ip: Addr)
    | Dump(ip: Addr)
    | Flushing(ip: Addr, todo: set<Flow>)

  /** `adds`, `given`, `stale`, `orphaned` and `stamps` are history: how many adds were made, which
      address each generation was given to, which element deletes failed, which elements lost their
      backend to an outside Unmanage, which packets were stamped. */
  datatype System = System(
    r: Routing, kernel: map<nat, Addr>, op: Op,
    flows: set<Flow>, containers: map<Addr, Instance>, nextInstance: Instance, clock: Time,
    adds: nat, given: map<nat, Addr>, stale: set<nat>, orphaned: set<nat>, stamps: seq<Stamp>)

  datatype Leftover = Kept | Gone | Leaked

  datatype Action =
    // environment and packets
    | Tick(now: Time)
    | Packet(client: Client, port: Port, now: Time)
    | SweepTick(now: Time)
    | Execute(i: nat)
    | Expire(f: Flow)
    | OtherFlow(f: Flow)
    | Die(ip: Addr)
    // backend operations, under opMu
    | BeginAdd(port: Port, ip: Addr)
    | BeginRemove(port: Port, ip: Addr, maybeUnbind: bool)
    | DeleteElement(ok: bool)
    | InstallElement(ok: bool)
    | RollBack
    | DoUnbind
    | BeginFlush(ip: Addr)
    | DumpFlows(ok: bool)
    | FlushFlow(f: Flow, ok: bool)
    | EndFlush
    // not under opMu
    | UnmanagePort(port: Port)
    | BeginStart(ip: Addr)
    | EndStart(ip: Addr, ok: bool, left: Leftover)
    | BeginStop(ip: Addr)
    | EndStop(ip: Addr, gone: bool)

  const START := System(EMPTY, map[], Idle, {}, map[], 0, 0, 0, map[], {}, {}, [])

  predicate EmptyPool(r: Routing, port: Port)
  {
    port !in r.pools || r.pools[port].backends == []
  }

  predicate Enabled(s: System, a: Action)
  {
    match a
    case Tick(now) => s.clock <= now
    case Packet(_, _, now) => s.clock <= now
    case SweepTick(now) => now <= s.clock
    case Execute(i) => i < |s.stamps|
    case OtherFlow(f) => !f.udp
    case BeginAdd(_, _) => s.op == Idle
    case BeginRemove(_, _, _) => s.op == Idle
    case DeleteElement(_) => s.op.DelStale? || s.op.DelRemoved?
    case InstallElement(_) => s.op.Install?
    case RollBack => s.op.Rollback?
    case DoUnbind => s.op.Unbind?
    case BeginFlush(_) => s.op == Idle
    case DumpFlows(_) => s.op.Dump?
    case FlushFlow(f, _) => s.op.Flushing? && f in s.op.todo
    case EndFlush => s.op.Flushing? && s.op.todo == {}
    case _ => true
  }

  function Step(s: System, a: Action): System
    requires Enabled(s, a)
  {
    match a
    case Tick(now) => s.(clock := now)
    case Packet(client, port, now) =>
      var t := Route(s.r, client, port, now);
      if t.verdict.Dnat? then
        var e := t.r.sessions[client];
        var stamp := Stamp(client, port, t.verdict.mark, e.gen, e.backend, now);
        s.(r := t.r, clock := now, stamps := s.stamps + [stamp])
      else
        s.(r := t.r, clock := now)
    case SweepTick(now) => s.(r := Sweep(s.r, SESSION_TTL, now))
    case Execute(i) =>
      var t := s.stamps[i];
      if t.mark != 0 && t.mark in s.kernel then
        var ip := s.kernel[t.mark];
        s.(flows := s.flows + {Flow(t.client, t.port, true, ip, RunningAt(s, ip))})
      else
        s
    case Expire(f) => s.(flows := s.flows - {f})
    case OtherFlow(f) => s.(flows := s.flows + {f})
    case Die(ip) => s.(containers := s.containers - {ip})
    case BeginAdd(port, ip) =>
      var d := AddBackend(s.r, port, ip);
      s.(r := d.r, adds := s.adds + 1, given := s.given[d.newGen := ip],
         op := if d.replaced then DelStale(port, ip, d.newGen, d.oldGen) else Install(port, ip, d.newGen))
    case BeginRemove(port, ip, maybeUnbind) =>
      var d := RemoveBackend(s.r, port, ip);
      s.(r := d.r,
         op := DelRemoved(port, ip, if d.ok then Some(d.gen) else None, maybeUnbind, d.empty))
    case DeleteElement(ok) =>
      if s.op.DelStale? then
        DeleteMark(s, MarkOf(s.op.oldGen), ok).(op := Install(s.op.port, s.op.ip, s.op.newGen))
      else
        var s' := if s.op.found.Some? then DeleteMark(s, MarkOf(s.op.found.value), ok) else s;
        s'.(op := if s.op.maybeUnbind && s.op.empty then Unbind(s.op.port, s.op.ip) else Idle)
    case InstallElement(ok) =>
      if ok then
        var late := !At(s.r, s.op.port, s.op.ip, s.op.newGen);
        s.(kernel := s.kernel[MarkOf(s.op.newGen) := s.op.ip], op := Idle,
           orphaned := if late then s.orphaned + {MarkOf(s.op.newGen)} else s.orphaned)
      else s.(op := Rollback(s.op.port, s.op.ip, s.op.newGen))
    case RollBack => s.(r := RemoveBackend(s.r, s.op.port, s.op.ip).r, op := Idle)
    case DoUnbind => s.(r := Unmanage(s.r, s.op.port), op := Idle)
    case BeginFlush(ip) => s.(op := Dump(ip))
    case DumpFlows(ok) => s.(op := if ok then Flushing(s.op.ip, s.flows) else Idle)
    case FlushFlow(f, ok) =>
      s.(flows := if f.udp && f.reply == s.op.ip && ok then s.flows - {f} else s.flows,
         op := Flushing(s.op.ip, s.op.todo - {f}))
    case EndFlush => s.(op := Idle)
    case UnmanagePort(port) => s.(r := Unmanage(s.r, port), orphaned := s.orphaned + Discarded(s, port))
    case BeginStart(_) => s
    case EndStart(ip, ok, left) =>
      if ok || left.Leaked? then
        s.(containers := s.containers[ip := s.nextInstance], nextInstance := s.nextInstance + 1)
      else if left.Gone? then s.(containers := s.containers - {ip})
      else s
    case BeginStop(_) => s
    case EndStop(ip, gone) => if gone then s.(containers := s.containers - {ip}) else s
  }

  function RunningAt(s: System, ip: Addr): Option<Instance>
  {
    if ip in s.containers then Some(s.containers[ip]) else None
  }

  /** A netlink delete of one @pool element; a failing one leaves the element behind. */
  function DeleteMark(s: System, mark: nat, ok: bool): System
  {
    if ok then s.(kernel := s.kernel - {mark})
    else if mark in s.kernel then s.(stale := s.stale + {mark})
    else s
  }

  /** The elements of the backends that an outside Unmanage of `port` would discard. */
  function Discarded(s: System, port: Port): set<nat>
  {
    if port !in s.r.pools then {}
    else set b | b in s.r.pools[port].backends && MarkOf(b.gen) in s.kernel :: MarkOf(b.gen)
  }

  /** The state after a sequence of actions, or None if one of them was not enabled. */
  function RunFrom(s: System, acts: seq<Action>): Option<System>
  {
    if acts == [] then Some(s)
    else
      var before := RunFrom(s, acts[..|acts| - 1]);
      var a := acts[|acts| - 1];
      if before.Some? && Enabled(before.value, a) then Some(Step(before.value, a)) else None
  }

  function Run(acts: seq<Action>): Option<System> { RunFrom(START, acts) }

  // ---- Invariant ----

  ghost predicate Live(r: Routing, gen: nat)
  {
    exists port, ip :: At(r, port, ip, gen)
  }

  /** Marks the kernel map must hold at this point of the running operation. */
  ghost predicate Expected(s: System, m: nat)
  {
    match s.op
    case DelStale(_, _, newGen, oldGen) => (Live(s.r, m) && m != newGen) || m == oldGen
    case Install(_, _, newGen) => Live(s.r, m) && m != newGen
    case Rollback(_, _, newGen) => Live(s.r, m) && m != newGen
    case DelRemoved(_, _, found, _, _) => Live(s.r, m) || found == Some(m)
    case _ => Live(s.r, m)
  }

  ghost predicate Numbered(s: System)
  {
    && s.r.gen == s.adds
    && (forall g :: g in s.given ==> 1 <= g <= s.adds)
    && (forall port, ip, g :: At(s.r, port, ip, g) ==> g in s.given && s.given[g] == ip)
    && (forall p, ip, q, ip', g :: At(s.r, p, ip, g) && At(s.r, q, ip', g) ==> p == q)
  }

  ghost predicate KernelMatches(s: System)
  {
    && (forall m :: m in s.kernel <==> Expected(s, m) || LeftBehind(s, m))
    && (forall m :: m in s.kernel ==> m in s.given && s.kernel[m] == s.given[m])
    && (forall m :: LeftBehind(s, m) ==> !Expected(s, m) && m in s.given && !Live(s.r, m))
  }

  /** Elements nobody will delete: their delete failed, or their pool was discarded from outside. */
  predicate LeftBehind(s: System, m: nat)
  {
    m in s.stale || m in s.orphaned
  }

  /** The backend being added: it is where the operation put it, unless an outside Unmanage has
      discarded it already, and it has no element yet. */
  ghost predicate BeingAdded(s: System, port: Port, ip: Addr, g: nat)
  {
    && g in s.given && s.given[g] == ip && g !in s.kernel
    && (forall q, x :: At(s.r, q, x, g) ==> q == port && x == ip)
    && (forall h :: At(s.r, port, ip, h) ==> h == g)
  }

  ghost predicate OpConsistent(s: System)
  {
    match s.op
    case DelStale(port, ip, newGen, oldGen) =>
      && BeingAdded(s, port, ip, newGen) && !Live(s.r, oldGen)
      && oldGen in s.given && s.given[oldGen] == ip
    case Install(port, ip, newGen) => BeingAdded(s, port, ip, newGen)
    case Rollback(port, ip, newGen) => BeingAdded(s, port, ip, newGen)
    case DelRemoved(port, ip, found, _, empty) =>
      && (empty ==> EmptyPool(s.r, port))
      && (found.Some? ==> found.value in s.given && s.given[found.value] == ip && !Live(s.r, found.value))
    case Unbind(port, _) => EmptyPool(s.r, port)
    case _ => true
  }

  ghost predicate Remembered(s: System)
  {
    && (forall c :: c in s.r.sessions ==>
          var e := s.r.sessions[c]; e.gen in s.given && s.given[e.gen] == e.backend)
    && (forall i :: 0 <= i < |s.stamps| ==>
          var t := s.stamps[i]; t.gen in s.given && s.given[t.gen] == t.addr && t.mark == t.gen)
  }

  ghost predicate Inv(s: System)
  {
    && WellFormed(s.r)
    && (s.adds < U32 ==> Numbered(s) && KernelMatches(s) && OpConsistent(s) && Remembered(s))
  }

  ghost predicate SameHoldings(r: Routing, r': Routing)
  {
    forall q, x, g :: At(r', q, x, g) <==> At(r, q, x, g)
  }

  lemma SameLive(r: Routing, r': Routing)
    requires SameHoldings(r, r')
    ensures forall m :: Live(r', m) <==> Live(r, m)
  {
    forall m
      ensures Live(r', m) <==> Live(r, m)
    {
      if Live(r, m) {
        var q, x :| At(r, q, x, m);
        assert At(r', q, x, m);
      }
    }
  }

  /** Only adds, removes, rollbacks and outside Unmanages change who is held where. */
  lemma StepHoldings(s: System, a: Action)
    requires WellFormed(s.r) && Enabled(s, a)
    requires !a.BeginAdd? && !a.BeginRemove? && !a.RollBack? && !a.UnmanagePort?
    ensures var s' := Step(s, a);
            && WellFormed(s'.r) && s'.r.gen == s.r.gen && s'.given == s.given && s'.adds == s.adds
            && (OpConsistent(s) ==> SameHoldings(s.r, s'.r))
            && (forall port :: EmptyPool(s.r, port) ==> EmptyPool(s'.r, port))
  {
    match a
    case Packet(client, port, now) => RouteVerdict(s.r, client, port, now);
    case SweepTick(now) => SweepMembership(s.r, SESSION_TTL, now);
    case DoUnbind => UnmanageMembership(s.r, s.op.port);
    case _ =>
  }

  lemma NumberedFrame(s: System, s': System)
    requires Numbered(s) && SameHoldings(s.r, s'.r)
    requires s'.r.gen == s.r.gen && s'.adds == s.adds && s'.given == s.given
    ensures Numbered(s')
  {
  }

  lemma KernelFrame(s: System, s': System)
    requires KernelMatches(s) && SameHoldings(s.r, s'.r)
    requires s'.kernel == s.kernel && s'.given == s.given && s'.stale == s.stale && s'.orphaned == s.orphaned
    requires s'.op == s.op || !(s.op.DelStale? || s.op.Install? || s.op.Rollback? || s.op.DelRemoved?
                                || s'.op.DelStale? || s'.op.Install? || s'.op.Rollback? || s'.op.DelRemoved?)
    ensures KernelMatches(s')
  {
    SameLive(s.r, s'.r);
    assert forall m :: Expected(s', m) <==> Expected(s, m);
  }

  lemma OpFrame(s: System, s': System)
    requires OpConsistent(s) && SameHoldings(s.r, s'.r)
    requires s'.op == s.op && s'.given == s.given && s'.kernel == s.kernel
    requires forall port :: EmptyPool(s.r, port) ==> EmptyPool(s'.r, port)
    ensures OpConsistent(s')
  {
    SameLive(s.r, s'.r);
  }

  /** What an addition by the router does to the set of live generations. */
  lemma AddLive(s: System, port: Port, ip: Addr)
    requires WellFormed(s.r) && Numbered(s) && s.adds + 1 < U32
    ensures var d := AddBackend(s.r, port, ip);
            && d.newGen == s.adds + 1 && d.newGen !in s.given && !Live(s.r, d.newGen)
            && (d.replaced ==> Live(s.r, d.oldGen) && d.oldGen in s.given && s.given[d.oldGen] == ip)
            && forall m :: Live(d.r, m) <==> m == d.newGen || (Live(s.r, m) && !(d.replaced && m == d.oldGen))
  {
    AddBackendMembership(s.r, port, ip);
    hide AddBackend;
    var d := AddBackend(s.r, port, ip);
    assert At(d.r, port, ip, d.newGen);
    forall m
      ensures Live(d.r, m) <==> m == d.newGen || (Live(s.r, m) && !(d.replaced && m == d.oldGen))
    {
      if Live(s.r, m) {
        var q, x :| At(s.r, q, x, m);
        if q == port && x == ip {
          AddrOnceInPool(s.r, port, ip, m, d.oldGen);
        } else {
          assert At(d.r, q, x, m);
        }
      }
      if Live(d.r, m) && m != d.newGen {
        var q, x :| At(d.r, q, x, m);
        assert At(s.r, q, x, m);
      }
    }
  }

  lemma AddNumbered(s: System, port: Port, ip: Addr)
    requires WellFormed(s.r) && Numbered(s) && Enabled(s, BeginAdd(port, ip)) && s.adds + 1 < U32
    requires KernelMatches(s)
    ensures var s' := Step(s, BeginAdd(port, ip));
            Numbered(s') && BeingAdded(s', port, ip, AddBackend(s.r, port, ip).newGen)
  {
    AddBackendMembership(s.r, port, ip);
    AddLive(s, port, ip);
    hide AddBackend, WellFormed, Live;
  }

  lemma AddKernel(s: System, port: Port, ip: Addr)
    requires WellFormed(s.r) && Numbered(s) && Enabled(s, BeginAdd(port, ip)) && s.adds + 1 < U32
    requires KernelMatches(s)
    ensures KernelMatches(Step(s, BeginAdd(port, ip)))
  {
    AddLive(s, port, ip);
    hide AddBackend, WellFormed, Live, Numbered;
  }

  lemma InvBeginAdd(s: System, port: Port, ip: Addr)
    requires Inv(s) && Enabled(s, BeginAdd(port, ip))
    ensures Inv(Step(s, BeginAdd(port, ip)))
  {
    AddBackendMembership(s.r, port, ip);
    hide AddBackend;
    if s.adds + 1 < U32 {
      AddLive(s, port, ip);
      AddNumbered(s, port, ip);
      AddKernel(s, port, ip);
      hide WellFormed, Live, Numbered, KernelMatches, BeingAdded;
    }
  }

  lemma AddrOnceInPool(r: Routing, port: Port, ip: Addr, g: nat, h: nat)
    requires WellFormed(r) && At(r, port, ip, g) && At(r, port, ip, h)
    ensures g == h
  {
    var bs := r.pools[port].backends;
    var i :| 0 <= i < |bs| && bs[i] == Backend(ip, g);
    var j :| 0 <= j < |bs| && bs[j] == Backend(ip, h);
  }

  /** What a removal by the router does to the set of live generations. */
  lemma RemoveLive(s: System, port: Port, ip: Addr)
    requires WellFormed(s.r) && Numbered(s)
    ensures var d := RemoveBackend(s.r, port, ip);
            forall m :: Live(d.r, m) <==> Live(s.r, m) && !(d.ok && m == d.gen)
  {
    RemoveBackendMembership(s.r, port, ip);
    var d := RemoveBackend(s.r, port, ip);
    forall m
      ensures Live(d.r, m) <==> Live(s.r, m) && !(d.ok && m == d.gen)
    {
      if Live(s.r, m) {
        var q, x :| At(s.r, q, x, m);
        if q == port && x == ip {
          AddrOnceInPool(s.r, port, ip, m, d.gen);
        } else {
          assert At(d.r, q, x, m);
        }
      }
      if Live(d.r, m) {
        var q, x :| At(d.r, q, x, m);
        assert At(s.r, q, x, m);
      }
    }
  }

  lemma InvBeginRemove(s: System, port: Port, ip: Addr, maybeUnbind: bool)
    requires Inv(s) && Enabled(s, BeginRemove(port, ip, maybeUnbind))
    ensures Inv(Step(s, BeginRemove(port, ip, maybeUnbind)))
  {
    RemoveBackendMembership(s.r, port, ip);
    if s.adds < U32 {
      RemoveLive(s, port, ip);
    }
  }

  lemma InvRollBack(s: System)
    requires Inv(s) && Enabled(s, RollBack)
    ensures Inv(Step(s, RollBack))
  {
    RemoveBackendMembership(s.r, s.op.port, s.op.ip);
    if s.adds < U32 {
      RemoveLive(s, s.op.port, s.op.ip);
    }
  }

  lemma InvDeleteStale(s: System, ok: bool)
    requires Inv(s) && s.op.DelStale?
    ensures Inv(Step(s, DeleteElement(ok)))
  {
    hide At, WellFormed;
    if s.adds < U32 {
      var s' := Step(s, DeleteElement(ok));
      NumberedFrame(s, s');
      assert s.op.oldGen in s.kernel;
      assert KernelMatches(s');
    }
  }

  lemma InvDeleteRemoved(s: System, ok: bool)
    requires Inv(s) && s.op.DelRemoved?
    ensures Inv(Step(s, DeleteElement(ok)))
  {
    hide At, WellFormed, Live, BeingAdded;
    if s.adds < U32 {
      NumberedFrame(s, Step(s, DeleteElement(ok)));
      hide Numbered;
      DeleteRemovedKernel(s, ok);
      hide KernelMatches, Expected;
    }
  }

  lemma DeleteRemovedKernel(s: System, ok: bool)
    requires s.op.DelRemoved? && KernelMatches(s) && OpConsistent(s) && Numbered(s) && s.adds < U32
    ensures KernelMatches(Step(s, DeleteElement(ok)))
  {
    hide At, Live, BeingAdded, EmptyPool;
    assert s.op.found.Some? ==> Expected(s, s.op.found.value);
  }

  lemma InvInstall(s: System, ok: bool)
    requires Inv(s) && s.op.Install?
    ensures Inv(Step(s, InstallElement(ok)))
  {
    if s.adds < U32 {
      var s' := Step(s, InstallElement(ok));
      NumberedFrame(s, s');
      assert Live(s.r, s.op.newGen) <==> At(s.r, s.op.port, s.op.ip, s.op.newGen);
      assert KernelMatches(s');
    }
  }

  /** What an outside Unmanage does to the set of live generations, and to their elements. */
  lemma UnmanageLive(s: System, port: Port)
    requires WellFormed(s.r) && Numbered(s) && s.adds < U32
    ensures var s' := Step(s, UnmanagePort(port));
            && (forall m :: Live(s'.r, m) <==> Live(s.r, m) && !Pools(s.r, port, m))
            && (forall m :: m in s'.orphaned <==> m in s.orphaned || (Pools(s.r, port, m) && m in s.kernel))
  {
    UnmanageMembership(s.r, port);
    var s' := Step(s, UnmanagePort(port));
    forall m
      ensures Live(s'.r, m) <==> Live(s.r, m) && !Pools(s.r, port, m)
    {
      if Live(s.r, m) && !Pools(s.r, port, m) {
        var q, x :| At(s.r, q, x, m);
        assert At(s'.r, q, x, m);
      }
      if Live(s'.r, m) {
        var q, x :| At(s'.r, q, x, m);
        assert At(s.r, q, x, m);
      }
    }
    forall m
      ensures m in Discarded(s, port) <==> Pools(s.r, port, m) && m in s.kernel
    {
      if m in Discarded(s, port) {
        var b :| b in s.r.pools[port].backends && MarkOf(b.gen) in s.kernel && m == MarkOf(b.gen);
        assert b == Backend(b.ip, b.gen) && At(s.r, port, b.ip, b.gen);
      }
      if Pools(s.r, port, m) && m in s.kernel {
        var x :| At(s.r, port, x, m);
        assert Backend(x, m) in s.r.pools[port].backends && MarkOf(Backend(x, m).gen) == m;
      }
    }
  }

  /** Some backend on `port` has generation `gen`. */
  ghost predicate Pools(r: Routing, port: Port, gen: nat) { exists x :: At(r, port, x, gen) }

  lemma InvUnmanage(s: System, port: Port)
    requires Inv(s)
    ensures Inv(Step(s, UnmanagePort(port)))
  {
    UnmanageMembership(s.r, port);
    if s.adds < U32 {
      UnmanageLive(s, port);
      UnmanageOp(s, port);
      UnmanageKernel(s, port);
    }
  }

  lemma UnmanageOp(s: System, port: Port)
    requires WellFormed(s.r) && Numbered(s) && OpConsistent(s) && s.adds < U32
    ensures OpConsistent(Step(s, UnmanagePort(port))) && Numbered(Step(s, UnmanagePort(port)))
  {
    UnmanageMembership(s.r, port);
    UnmanageLive(s, port);
  }

  lemma UnmanageKernel(s: System, port: Port)
    requires WellFormed(s.r) && Numbered(s) && OpConsistent(s) && KernelMatches(s) && s.adds < U32
    ensures KernelMatches(Step(s, UnmanagePort(port)))
  {
    UnmanageLive(s, port);
    hide WellFormed, Numbered;
    assert forall m :: Pools(s.r, port, m) ==> Live(s.r, m);
  }

  lemma InvPacket(s: System, client: Client, port: Port, now: Time)
    requires Inv(s) && Enabled(s, Packet(client, port, now))
    ensures Inv(Step(s, Packet(client, port, now)))
  {
    StepHoldings(s, Packet(client, port, now));
    if s.adds < U32 {
      var s' := Step(s, Packet(client, port, now));
      NumberedFrame(s, s');
      KernelFrame(s, s');
      OpFrame(s, s');
      PacketRemembered(s, client, port, now);
    }
  }

  /** A forwarded packet's session names a backend its pool holds. */
  lemma ForwardedSession(r: Routing, client: Client, port: Port, now: Time)
    requires WellFormed(r) && Route(r, client, port, now).verdict.Dnat?
    ensures var t := Route(r, client, port, now);
            && client in t.r.sessions
            && var e := t.r.sessions[client];
            && At(r, port, e.backend, e.gen) && t.verdict.mark == MarkOf(e.gen)
            && t.r.sessions == r.sessions[client := e]
  {
    RouteVerdict(r, client, port, now);
  }

  lemma PacketRemembered(s: System, client: Client, port: Port, now: Time)
    requires WellFormed(s.r) && Numbered(s) && Remembered(s) && s.adds < U32
    requires Enabled(s, Packet(client, port, now))
    ensures Remembered(Step(s, Packet(client, port, now)))
  {
    var t := Route(s.r, client, port, now);
    if t.verdict.Dnat? {
      ForwardedSession(s.r, client, port, now);
      var e := t.r.sessions[client];
      assert MarkOf(e.gen) == e.gen;
    } else {
      RouteVerdict(s.r, client, port, now);
      assert t.r == s.r;
    }
  }

  /** Every other step leaves the holdings, the kernel map and the numbering alone. */
  lemma InvOther(s: System, a: Action)
    requires Inv(s) && Enabled(s, a)
    requires !a.BeginAdd? && !a.BeginRemove? && !a.RollBack? && !a.Packet?
    requires !a.DeleteElement? && !a.InstallElement? && !a.UnmanagePort?
    ensures Inv(Step(s, a))
  {
    StepHoldings(s, a);
    if s.adds < U32 {
      var s' := Step(s, a);
      NumberedFrame(s, s');
      KernelFrame(s, s');
      if s'.op == s.op {
        OpFrame(s, s');
      }
      assert Remembered(s');
    }
  }

  lemma InvStep(s: System, a: Action)
    requires Inv(s) && Enabled(s, a)
    ensures Inv(Step(s, a))
  {
    match a
    case BeginAdd(port, ip) => InvBeginAdd(s, port, ip);
    case BeginRemove(port, ip, maybeUnbind) => InvBeginRemove(s, port, ip, maybeUnbind);
    case RollBack => InvRollBack(s);
    case DeleteElement(ok) => if s.op.DelStale? { InvDeleteStale(s, ok); } else { InvDeleteRemoved(s, ok); }
    case InstallElement(ok) => InvInstall(s, ok);
    case UnmanagePort(port) => InvUnmanage(s, port);
    case Packet(client, port, now) => InvPacket(s, client, port, now);
    case _ => InvOther(s, a);
  }

  lemma {:induction false} InvRun(acts: seq<Action>)
    requires Run(acts).Some?
    ensures Inv(Run(acts).value)
  {
    if acts == [] {
    } else {
      InvRun(acts[..|acts| - 1]);
      InvStep(Run(acts[..|acts| - 1]).value, acts[|acts| - 1]);
    }
  }
}
