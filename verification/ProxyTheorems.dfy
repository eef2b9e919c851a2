/** What the proxy keeps over whole runs, for every interleaving of packets, sweeps, kernel
    executions and backend operations, with netlink calls that may fail. */
module ProxyTheorems {
  import opened Wrappers
  import opened RouterState
  import opened ProxyMachine

  // ---- A stamped packet reaches the backend it was stamped for, or nobody ----

  lemma StampNeverMisdirected(acts: seq<Action>, i: nat)
    requires Run(acts).Some? && Run(acts).value.adds < U32
    requires i < |Run(acts).value.stamps|
    ensures var s := Run(acts).value;
            && s.stamps[i].mark != 0
            && (s.stamps[i].mark in s.kernel ==> s.kernel[s.stamps[i].mark] == s.stamps[i].addr)
  {
    InvRun(acts);
  }

  /** Why the bound: marks of the first n generations are usable and distinct exactly below 2^32. */
  lemma MarksUsableExactly(n: nat)
    ensures (forall g, h :: 1 <= g <= n && 1 <= h <= n ==>
               MarkOf(g) != 0 && (MarkOf(g) == MarkOf(h) ==> g == h))
            <==> n < U32
  {
    if n < U32 {
      assert forall g :: 1 <= g <= n ==> MarkOf(g) == g;
    } else {
      assert MarkOf(U32) == 0;
    }
  }

  // ---- Quiescent agreement ----

  ghost predicate Quiescent(s: System)
  {
    s.op.Idle? || s.op.Dump? || s.op.Flushing?
  }

  ghost predicate Maps(s: System, mark: nat, ip: Addr) { mark in s.kernel && s.kernel[mark] == ip }
  ghost predicate Pooled(s: System, gen: nat, ip: Addr) { exists port :: At(s.r, port, ip, gen) }
  ghost predicate Undeleted(s: System, mark: nat, ip: Addr)
  {
    mark in s.stale && mark in s.given && s.given[mark] == ip
  }

  /** The kernel map is exactly { mark(gen) -> ip } over all pooled backends. */
  ghost predicate Agrees(s: System)
  {
    forall m, ip :: Maps(s, m, ip) <==> Pooled(s, m, ip)
  }

  /** An element whose backend an outside Unmanage discarded. */
  ghost predicate Orphaned(s: System, mark: nat, ip: Addr)
  {
    mark in s.orphaned && mark in s.given && s.given[mark] == ip
  }

  lemma AgreementFromInv(s: System)
    requires Inv(s) && s.adds < U32 && Quiescent(s)
    ensures forall m, ip :: Maps(s, m, ip) <==> Pooled(s, m, ip) || Undeleted(s, m, ip) || Orphaned(s, m, ip)
    ensures Agrees(s) <==> s.stale == {} && s.orphaned == {}
  {
    forall m, ip
      ensures Maps(s, m, ip) <==> Pooled(s, m, ip) || Undeleted(s, m, ip) || Orphaned(s, m, ip)
    {
      if Maps(s, m, ip) && !LeftBehind(s, m) {
        assert Live(s.r, m);
        var port, x :| At(s.r, port, x, m);
        assert x == ip;
      }
      if Pooled(s, m, ip) {
        assert Live(s.r, m);
      }
    }
    if s.stale + s.orphaned != {} {
      var m :| m in s.stale + s.orphaned;
      assert LeftBehind(s, m);
      assert Maps(s, m, s.kernel[m]) && !Live(s.r, m);
      assert !Pooled(s, m, s.kernel[m]);
    }
  }

  /** Between operations the kernel map is the pooled backends plus the elements whose delete failed
      and those whose pool was discarded from outside, so it agrees with the router exactly when
      neither has happened. */
  lemma QuiescentAgreement(acts: seq<Action>)
    requires Run(acts).Some? && Run(acts).value.adds < U32 && Quiescent(Run(acts).value)
    ensures var s := Run(acts).value;
            && (forall m, ip :: Maps(s, m, ip) <==> Pooled(s, m, ip) || Undeleted(s, m, ip) || Orphaned(s, m, ip))
            && (Agrees(s) <==> s.stale == {} && s.orphaned == {})
  {
    InvRun(acts);
    AgreementFromInv(Run(acts).value);
  }

  lemma {:induction false} NoFailedDeletes(acts: seq<Action>)
    requires Run(acts).Some? && DeleteElement(false) !in acts
    ensures Run(acts).value.stale == {}
  {
    if acts != [] {
      assert acts[|acts| - 1] in acts;
      NoFailedDeletes(acts[..|acts| - 1]);
    }
  }

  /** Every outside Unmanage of the run found its pool absent or empty. */
  predicate UnmanagesEmpty(acts: seq<Action>)
    requires Run(acts).Some?
  {
    acts == [] ||
    var pre, a := acts[..|acts| - 1], acts[|acts| - 1];
    UnmanagesEmpty(pre) && (a.UnmanagePort? ==> EmptyPool(Run(pre).value.r, a.port))
  }

  lemma {:induction false} NothingOrphaned(acts: seq<Action>)
    requires Run(acts).Some? && Run(acts).value.adds < U32 && UnmanagesEmpty(acts)
    ensures Run(acts).value.orphaned == {}
    ensures Run(acts).value.op.DelStale? || Run(acts).value.op.Install? || Run(acts).value.op.Rollback? ==>
              var op := Run(acts).value.op; At(Run(acts).value.r, op.port, op.ip, op.newGen)
  {
    hide Inv, Numbered, KernelMatches, OpConsistent, Remembered;
    if acts != [] {
      var pre, a := acts[..|acts| - 1], acts[|acts| - 1];
      var s := Run(pre).value;
      AddsMonotone(s, a);
      NothingOrphaned(pre);
      InvRun(pre);
      StillPooled(s, a);
    }
  }

  lemma AddsMonotone(s: System, a: Action)
    requires Enabled(s, a)
    ensures s.adds <= Step(s, a).adds
  {
  }

  /** The backend being added stays pooled until its operation ends, and leaves nothing orphaned. */
  lemma StillPooled(s: System, a: Action)
    requires Inv(s) && Enabled(s, a) && s.orphaned == {} && s.adds < U32
    requires a.UnmanagePort? ==> EmptyPool(s.r, a.port)
    requires s.op.DelStale? || s.op.Install? || s.op.Rollback? ==> At(s.r, s.op.port, s.op.ip, s.op.newGen)
    ensures var s' := Step(s, a);
            && s'.orphaned == {}
            && (s'.op.DelStale? || s'.op.Install? || s'.op.Rollback? ==> At(s'.r, s'.op.port, s'.op.ip, s'.op.newGen))
  {
    hide KernelMatches, Remembered, Numbered, WellFormed, AddBackend, RemoveBackend, At, MarkOf, EmptyPool;
    match a
    case BeginAdd(port, ip) => AddBackendMembership(s.r, port, ip);
    case BeginRemove(port, ip, _) =>
    case RollBack =>
    case UnmanagePort(port) => NoneDiscarded(s, port);
    case _ => OtherStillPooled(s, a);
  }

  lemma OtherStillPooled(s: System, a: Action)
    requires WellFormed(s.r) && OpConsistent(s) && Enabled(s, a) && s.orphaned == {}
    requires !a.BeginAdd? && !a.BeginRemove? && !a.RollBack? && !a.UnmanagePort?
    requires s.op.DelStale? || s.op.Install? || s.op.Rollback? ==> At(s.r, s.op.port, s.op.ip, s.op.newGen)
    ensures var s' := Step(s, a);
            && s'.orphaned == {}
            && (s'.op.DelStale? || s'.op.Install? || s'.op.Rollback? ==> At(s'.r, s'.op.port, s'.op.ip, s'.op.newGen))
  {
    StepHoldings(s, a);
    hide OpConsistent, WellFormed, AddBackend, RemoveBackend, Route, Sweep, Unmanage, At, MarkOf;
  }

  lemma NoneDiscarded(s: System, port: Port)
    requires EmptyPool(s.r, port)
    ensures Discarded(s, port) == {} && SameHoldings(s.r, Unmanage(s.r, port))
  {
  }

  /** With netlink deletes succeeding and outside Unmanages only of empty pools, agreement holds
      whenever no operation is running; adds may still fail, since they roll back. */
  lemma AgreementWhenDeletesSucceed(acts: seq<Action>)
    requires Run(acts).Some? && Run(acts).value.adds < U32 && Quiescent(Run(acts).value)
    requires DeleteElement(false) !in acts && UnmanagesEmpty(acts)
    ensures Agrees(Run(acts).value)
  {
    NoFailedDeletes(acts);
    NothingOrphaned(acts);
    QuiescentAgreement(acts);
  }

  /** RemoveBackendMaybeUnbind discards its port's pool only while that pool is empty, although the
      router mutex is released between the removal and the unmanage. */
  lemma UnbindDiscardsNobody(acts: seq<Action>)
    requires Run(acts).Some? && Run(acts).value.adds < U32 && Run(acts).value.op.Unbind?
    ensures var s := Run(acts).value; var s' := Step(s, DoUnbind);
            && EmptyPool(s.r, s.op.port) && s.op.port !in s'.r.pools
            && SameHoldings(s.r, s'.r)
  {
    InvRun(acts);
    var s := Run(acts).value;
    StepHoldings(s, DoUnbind);
  }

  /** The running operation carried to its end, with its remaining netlink calls succeeding. */
  function Finished(s: System): System
  {
    match s.op
    case DelStale(_, _, _, _) => Step(Step(s, DeleteElement(true)), InstallElement(true))
    case Install(_, _, _) => Step(s, InstallElement(true))
    case Rollback(_, _, _) => Step(s, RollBack)
    case DelRemoved(_, _, _, _, _) =>
      var t := Step(s, DeleteElement(true));
      if t.op.Unbind? then Step(t, DoUnbind) else t
    case Unbind(_, _) => Step(s, DoUnbind)
    case _ => s
  }

  /** The backend that an AddBackend under way will still install. */
  ghost predicate StillWanted(s: System)
  {
    s.op.DelStale? || s.op.Install? ==> At(s.r, s.op.port, s.op.ip, s.op.newGen)
  }

  /** A pool that holds only the backend a failed AddBackend is about to take out again. */
  ghost predicate OnlyRollingBack(s: System, port: Port)
  {
    s.op.Rollback? && s.op.port == port && forall x, g :: At(s.r, port, x, g) ==> g == s.op.newGen
  }

  lemma FinishedInv(s: System)
    requires Inv(s)
    ensures Inv(Finished(s)) && Quiescent(Finished(s)) && Finished(s).adds == s.adds
  {
    hide Inv;
    match s.op
    case DelStale(_, _, _, _) =>
      InvStep(s, DeleteElement(true));
      InvStep(Step(s, DeleteElement(true)), InstallElement(true));
    case Install(_, _, _) => InvStep(s, InstallElement(true));
    case Rollback(_, _, _) => InvStep(s, RollBack);
    case DelRemoved(_, _, _, _, _) =>
      InvStep(s, DeleteElement(true));
      var t := Step(s, DeleteElement(true));
      if t.op.Unbind? { InvStep(t, DoUnbind); }
    case Unbind(_, _) => InvStep(s, DoUnbind);
    case _ =>
  }

  lemma DeleteLeaves(s: System)
    requires s.op.DelStale? || s.op.DelRemoved?
    ensures var t := Step(s, DeleteElement(true));
            && t.r == s.r && t.stale == s.stale && t.orphaned == s.orphaned
            && (s.op.DelStale? ==> t.op == Install(s.op.port, s.op.ip, s.op.newGen))
  {
    hide MarkOf;
  }

  lemma InstallLeaves(s: System)
    requires s.op.Install?
    ensures var t := Step(s, InstallElement(true));
            && t.stale == s.stale
            && (t.orphaned == {} <==> s.orphaned == {} && At(s.r, s.op.port, s.op.ip, s.op.newGen))
  {
    hide At, MarkOf;
  }

  lemma EndLeaves(s: System, a: Action)
    requires Enabled(s, a) && (a.RollBack? || a.DoUnbind?)
    ensures Step(s, a).stale == s.stale && Step(s, a).orphaned == s.orphaned
  {
    hide RemoveBackend, Unmanage;
  }

  lemma FinishedLeaves(s: System)
    ensures Finished(s).stale == s.stale
    ensures Finished(s).orphaned == {} <==> s.orphaned == {} && StillWanted(s)
  {
    hide At, Step;
    match s.op
    case DelStale(_, _, _, _) =>
      DeleteLeaves(s);
      InstallLeaves(Step(s, DeleteElement(true)));
    case Install(_, _, _) => InstallLeaves(s);
    case Rollback(_, _, _) => EndLeaves(s, RollBack);
    case DelRemoved(_, _, _, _, _) =>
      DeleteLeaves(s);
      var t := Step(s, DeleteElement(true));
      if t.op.Unbind? { EndLeaves(t, DoUnbind); }
    case Unbind(_, _) => EndLeaves(s, DoUnbind);
    case _ =>
  }

  /** An operation under way ends in agreement exactly when nothing has been left behind so far and the
      backend it is adding, if any, is still pooled. */
  lemma EndsAgreed(s: System)
    requires Inv(s) && s.adds < U32
    ensures Agrees(Finished(s)) <==> s.stale == {} && s.orphaned == {} && StillWanted(s)
  {
    FinishedInv(s);
    FinishedLeaves(s);
    AgreementFromInv(Finished(s));
  }

  /** Unmanage from outside takes no opMu and deletes no element. At every moment, in the middle of any
      operation too, it keeps agreement exactly when the pool it discards is absent or empty, or holds
      only the backend that a failed AddBackend is about to take out again. */
  lemma UnmanageExact(acts: seq<Action>, port: Port)
    requires Run(acts).Some? && Run(acts).value.adds < U32 && Agrees(Finished(Run(acts).value))
    ensures var s := Run(acts).value;
            Agrees(Finished(Step(s, UnmanagePort(port)))) <==> EmptyPool(s.r, port) || OnlyRollingBack(s, port)
  {
    hide Finished, Agrees;
    InvRun(acts);
    var s := Run(acts).value;
    InvStep(s, UnmanagePort(port));
    EndsAgreed(s);
    EndsAgreed(Step(s, UnmanagePort(port)));
    DiscardExact(s, port);
  }

  lemma DiscardExact(s: System, port: Port)
    requires Inv(s) && s.adds < U32 && s.stale == {} && s.orphaned == {} && StillWanted(s)
    ensures var s' := Step(s, UnmanagePort(port));
            s'.orphaned == {} && StillWanted(s') <==> EmptyPool(s.r, port) || OnlyRollingBack(s, port)
  {
    UnmanageMembership(s.r, port);
    UnmanageLive(s, port);
    var s' := Step(s, UnmanagePort(port));
    if !EmptyPool(s.r, port) {
      var b := s.r.pools[port].backends[0];
      assert b == Backend(b.ip, b.gen) && At(s.r, port, b.ip, b.gen);
      forall x, g | At(s.r, port, x, g)
        ensures Live(s.r, g) && Pools(s.r, port, g)
      {
      }
    }
  }

  // ---- Which ports are managed ----

  /** The step stops managing `port`: an outside Unmanage of it, or the unbind of an operation on it. */
  predicate Releases(s: System, a: Action, port: Port)
    requires Enabled(s, a)
  {
    (a.UnmanagePort? && a.port == port) || (a.DoUnbind? && s.op.port == port)
  }

  /** Since its latest add, the port has not been released. */
  predicate AddedSince(acts: seq<Action>, port: Port)
    requires Run(acts).Some?
  {
    acts != [] &&
    var pre, a := acts[..|acts| - 1], acts[|acts| - 1];
    if a.BeginAdd? && a.port == port then true
    else if Releases(Run(pre).value, a, port) then false
    else AddedSince(pre, port)
  }

  lemma ManagedStep(s: System, a: Action, port: Port)
    requires WellFormed(s.r) && Enabled(s, a)
    ensures port in Step(s, a).r.pools <==>
              (a.BeginAdd? && a.port == port) || (port in s.r.pools && !Releases(s, a, port))
  {
    hide At, MarkOf, Discarded, AddBackend, RemoveBackend, Unmanage, Route;
    match a
    case BeginAdd(q, ip) => AddBackendMembership(s.r, q, ip);
    case BeginRemove(q, ip, _) => RemoveBackendMembership(s.r, q, ip);
    case RollBack => RemoveBackendMembership(s.r, s.op.port, s.op.ip);
    case UnmanagePort(q) => UnmanageMembership(s.r, q);
    case DoUnbind => UnmanageMembership(s.r, s.op.port);
    case Packet(client, q, now) => RouteVerdict(s.r, client, q, now);
    case _ => OtherManaged(s, a);
  }

  lemma OtherManaged(s: System, a: Action)
    requires Enabled(s, a)
    requires !a.BeginAdd? && !a.BeginRemove? && !a.RollBack? && !a.UnmanagePort? && !a.DoUnbind? && !a.Packet?
    ensures Step(s, a).r.pools == s.r.pools
  {
    hide At, MarkOf, Discarded, RunningAt;
  }

  /** A port is managed exactly from an add on it until it is itself released; nothing that happens to
      other ports, and no removal that empties its pool, changes that. So its packets pass unmodified
      exactly when it has never been added or has been released since. */
  lemma {:induction false} ManagedExactly(acts: seq<Action>, port: Port, client: Client, now: Time)
    requires Run(acts).Some?
    ensures port in Run(acts).value.r.pools <==> AddedSince(acts, port)
    ensures Route(Run(acts).value.r, client, port, now).verdict == Accept <==> !AddedSince(acts, port)
  {
    hide Step, Enabled, Releases, WellFormed;
    InvRun(acts);
    if acts != [] {
      var pre := acts[..|acts| - 1];
      InvRun(pre);
      ManagedExactly(pre, port, client, now);
      ManagedStep(Run(pre).value, acts[|acts| - 1], port);
    }
    RouteVerdict(Run(acts).value.r, client, port, now);
  }

  // ---- What a flush takes ----

  /** A flow leaves the table only by expiring, or by the flush of the very address it replies from, if it
      is a udp flow and its delete succeeds. */
  lemma OnlyItsFlushTakes(s: System, a: Action, f: Flow)
    requires Enabled(s, a) && f in s.flows
    ensures f !in Step(s, a).flows <==>
              a == Expire(f) || (a == FlushFlow(f, true) && f.udp && f.reply == s.op.ip)
  {
    hide At, MarkOf, Discarded, AddBackend, RemoveBackend, Route, Sweep, Unmanage;
  }

  // ---- Generations: once gone, gone for good ----

  /** Generations are the adds so far, below 2^64 without repetition. */
  ghost predicate Counted(s: System)
  {
    && WellFormed(s.r) && s.r.gen == s.adds
    && forall q, x, g: nat :: At(s.r, q, x, g) ==> g <= s.adds
  }

  /** No step but an add brings anybody into a pool. */
  lemma OnlyAddsAdd(s: System, a: Action)
    requires WellFormed(s.r) && Enabled(s, a) && !a.BeginAdd?
    ensures var s' := Step(s, a);
            && WellFormed(s'.r) && s'.r.gen == s.r.gen && s'.adds == s.adds
            && forall q, x, g :: At(s'.r, q, x, g) ==> At(s.r, q, x, g)
  {
    match a
    case BeginRemove(port, ip, _) => RemoveBackendMembership(s.r, port, ip);
    case RollBack => RemoveBackendMembership(s.r, s.op.port, s.op.ip);
    case UnmanagePort(port) => UnmanageMembership(s.r, port);
    case DoUnbind => UnmanageMembership(s.r, s.op.port);
    case _ => StepHoldings(s, a); hide At, AddBackend, RemoveBackend, Unmanage, Route, Sweep;
  }

  lemma RetiredStep(s: System, a: Action, g: nat)
    requires Counted(s) && Enabled(s, a) && Step(s, a).adds < U64
    ensures Counted(Step(s, a)) && s.adds <= Step(s, a).adds
    ensures g <= s.r.gen && !Live(s.r, g) ==> g <= Step(s, a).r.gen && !Live(Step(s, a).r, g)
  {
    hide AddBackend, RemoveBackend, At;
    if a.BeginAdd? {
      AddBackendMembership(s.r, a.port, a.ip);
    } else {
      OnlyAddsAdd(s, a);
      hide Step, Enabled;
    }
  }

  lemma {:induction false} CountedRun(acts: seq<Action>)
    requires Run(acts).Some? && Run(acts).value.adds < U64
    ensures Counted(Run(acts).value)
  {
    hide Step, Counted;
    if acts == [] {
      CountedStart();
    } else {
      AddsMonotone(Run(acts[..|acts| - 1]).value, acts[|acts| - 1]);
      CountedRun(acts[..|acts| - 1]);
      RetiredStep(Run(acts[..|acts| - 1]).value, acts[|acts| - 1], 0);
    }
  }

  lemma CountedStart()
    ensures Counted(START)
  {
  }

  lemma {:induction false} RetiredForGood(acts: seq<Action>, k: nat, g: nat)
    requires k <= |acts| && Run(acts).Some? && Run(acts).value.adds < U64
    requires Run(acts[..k]).Some? && g <= Run(acts[..k]).value.r.gen && !Live(Run(acts[..k]).value.r, g)
    ensures g <= Run(acts).value.r.gen && !Live(Run(acts).value.r, g)
    decreases |acts|
  {
    hide Step, Counted, Live;
    if k == |acts| {
      assert acts[..k] == acts;
    } else {
      var pre := acts[..|acts| - 1];
      assert pre[..k] == acts[..k];
      AddsMonotone(Run(pre).value, acts[|acts| - 1]);
      CountedRun(pre);
      RetiredForGood(pre, k, g);
      RetiredStep(Run(pre).value, acts[|acts| - 1], g);
    }
  }

  /** A client whose backend left its pool at any earlier moment is dropped on every managed port
      for as long as its session lasts. */
  lemma OrphansDropped(acts: seq<Action>, k: nat, client: Client, port: Port, now: Time)
    requires k <= |acts| && Run(acts).Some? && Run(acts).value.adds < U64 && Run(acts[..k]).Some?
    requires client in Run(acts).value.r.sessions && port in Run(acts).value.r.pools
    requires var g := Run(acts).value.r.sessions[client].gen;
             g <= Run(acts[..k]).value.r.gen && !Live(Run(acts[..k]).value.r, g)
    ensures Route(Run(acts).value.r, client, port, now).verdict == Drop
  {
    CountedRun(acts);
    var s := Run(acts).value;
    var e := s.r.sessions[client];
    RetiredForGood(acts, k, e.gen);
    RouteVerdict(s.r, client, port, now);
    assert At(s.r, port, e.backend, e.gen) ==> Live(s.r, e.gen);
  }

  // ---- Stickiness ----

  /** A stamp against the current sessions: its client still has the session it was stamped under,
      or the client's last activity under another one, or now, is more than the TTL after it. */
  ghost predicate Settled(t: Stamp, sessions: map<Client, Session>, clock: Time)
  {
    && t.time <= clock && t.mark == MarkOf(t.gen)
    && if t.client in sessions then
         var e := sessions[t.client];
         (e.gen == t.gen && t.time <= e.lastSeen <= clock) || clock >= e.lastSeen > t.time + SESSION_TTL
       else
         clock - t.time > SESSION_TTL
  }

  ghost predicate TtlApart(t: Stamp, u: Stamp)
  {
    t.client == u.client && t.gen != u.gen ==> u.time - t.time > SESSION_TTL
  }

  ghost predicate Sticky(s: System)
  {
    && (forall i :: 0 <= i < |s.stamps| ==> Settled(s.stamps[i], s.r.sessions, s.clock))
    && (forall i, j :: 0 <= i < j < |s.stamps| ==> TtlApart(s.stamps[i], s.stamps[j]))
  }

  lemma SettledSweep(t: Stamp, r: Routing, clock: Time, now: Time)
    requires Settled(t, r.sessions, clock) && now <= clock
    ensures Settled(t, Sweep(r, SESSION_TTL, now).sessions, clock)
  {
  }

  lemma SettledPacket(t: Stamp, r: Routing, clock: Time, client: Client, port: Port, now: Time)
    requires WellFormed(r) && Settled(t, r.sessions, clock) && clock <= now
    ensures var d := Route(r, client, port, now);
            && Settled(t, d.r.sessions, now)
            && (d.verdict.Dnat? && t.client == client && d.r.sessions[client].gen != t.gen ==>
                  now - t.time > SESSION_TTL)
  {
    RouteVerdict(r, client, port, now);
  }

  lemma StickyPacket(s: System, client: Client, port: Port, now: Time)
    requires WellFormed(s.r) && Sticky(s) && Enabled(s, Packet(client, port, now))
    ensures Sticky(Step(s, Packet(client, port, now)))
  {
    hide Route, WellFormed;
    RouteVerdict(s.r, client, port, now);
    forall i | 0 <= i < |s.stamps| {
      SettledPacket(s.stamps[i], s.r, s.clock, client, port, now);
    }
  }

  lemma StickyStep(s: System, a: Action)
    requires WellFormed(s.r) && Sticky(s) && Enabled(s, a)
    ensures Sticky(Step(s, a))
  {
    hide Route, Sweep, At, AddBackend, RemoveBackend, Settled, TtlApart;
    var s' := Step(s, a);
    match a
    case Packet(client, port, now) => StickyPacket(s, client, port, now);
    case SweepTick(now) =>
      forall i | 0 <= i < |s.stamps| {
        SettledSweep(s.stamps[i], s.r, s.clock, now);
      }
    case Tick(now) =>
      forall i | 0 <= i < |s.stamps| {
        SettledTick(s.stamps[i], s.r, s.clock, now);
      }
    case _ =>
      OtherKeepsSessions(s, a);
  }

  lemma SettledTick(t: Stamp, r: Routing, clock: Time, now: Time)
    requires Settled(t, r.sessions, clock) && clock <= now
    ensures Settled(t, r.sessions, now)
  {
  }

  lemma OtherKeepsSessions(s: System, a: Action)
    requires Enabled(s, a) && !a.Packet? && !a.SweepTick? && !a.Tick?
    ensures var s' := Step(s, a); s'.r.sessions == s.r.sessions && s'.stamps == s.stamps && s'.clock == s.clock
  {
    hide At, MarkOf;
  }

  lemma {:induction false} StickyRun(acts: seq<Action>)
    requires Run(acts).Some?
    ensures Sticky(Run(acts).value)
  {
    if acts != [] {
      var pre := acts[..|acts| - 1];
      InvRun(pre);
      StickyRun(pre);
      StickyStep(Run(pre).value, acts[|acts| - 1]);
    }
  }

  /** Two dnat verdicts for one client carry different marks only when more than the session TTL
      passed between them. No bound on the number of adds is needed. */
  lemma SwitchingTakesTtl(acts: seq<Action>, i: nat, j: nat)
    requires Run(acts).Some? && i < j < |Run(acts).value.stamps|
    requires var st := Run(acts).value.stamps; st[i].client == st[j].client && st[i].mark != st[j].mark
    ensures var st := Run(acts).value.stamps; st[j].time - st[i].time > 600 * SECOND
  {
    StickyRun(acts);
    var st := Run(acts).value.stamps;
    assert TtlApart(st[i], st[j]);
  }

  // ---- When a session is forgotten ----

  /** The time of a client's latest dnat verdict. */
  function LastStamp(stamps: seq<Stamp>, client: Client): Option<Time>
  {
    if stamps == [] then None
    else
      var t := stamps[|stamps| - 1];
      if t.client == client then Some(t.time) else LastStamp(stamps[..|stamps| - 1], client)
  }

  ghost predicate SessionsStamped(s: System)
  {
    forall c :: c in s.r.sessions ==> LastStamp(s.stamps, c) == Some(s.r.sessions[c].lastSeen)
  }

  lemma PacketStamps(s: System, client: Client, port: Port, now: Time)
    requires WellFormed(s.r) && SessionsStamped(s) && Enabled(s, Packet(client, port, now))
    ensures SessionsStamped(Step(s, Packet(client, port, now)))
  {
    RouteVerdict(s.r, client, port, now);
    hide Route, WellFormed;
    var t := Step(s, Packet(client, port, now));
    if t.stamps != s.stamps {
      assert t.stamps[..|t.stamps| - 1] == s.stamps;
    }
  }

  lemma {:induction false} StampedRun(acts: seq<Action>)
    requires Run(acts).Some?
    ensures SessionsStamped(Run(acts).value)
  {
    hide Step, Enabled, SessionsStamped;
    if acts == [] {
      StampedStart();
    } else {
      var pre, a := acts[..|acts| - 1], acts[|acts| - 1];
      var s := Run(pre).value;
      InvRun(pre);
      StampedRun(pre);
      match a
      case Packet(client, port, now) => PacketStamps(s, client, port, now);
      case SweepTick(now) => SweepStamps(s, now);
      case _ => OtherStamps(s, a);
    }
  }

  lemma StampedStart()
    ensures SessionsStamped(START)
  {
  }

  lemma SweepStamps(s: System, now: Time)
    requires SessionsStamped(s) && Enabled(s, SweepTick(now))
    ensures SessionsStamped(Step(s, SweepTick(now)))
  {
  }

  lemma OtherStamps(s: System, a: Action)
    requires SessionsStamped(s) && Enabled(s, a) && !a.Packet? && !a.SweepTick?
    ensures SessionsStamped(Step(s, a))
  {
    hide At, MarkOf, AddBackend, RemoveBackend, DeleteMark, Discarded;
    if !a.Tick? { OtherKeepsSessions(s, a); }
  }

  /** A sweep forgets a client exactly when its latest dnat verdict is older than the TTL, whatever
      conntrack flows it has: only packets that open a flow reach the router. */
  lemma SweepForgetsExactly(acts: seq<Action>, client: Client, now: Time)
    requires Run(acts).Some? && now <= Run(acts).value.clock && client in Run(acts).value.r.sessions
    ensures var s := Run(acts).value; var last := LastStamp(s.stamps, client);
            && last.Some?
            && (client !in Step(s, SweepTick(now)).r.sessions <==> now - last.value > SESSION_TTL)
  {
    StampedRun(acts);
  }

  // ---- Round-robin fairness ----

  ghost predicate AdmitsNewClient(s: System, a: Action, port: Port)
  {
    a.Packet? && a.port == port && a.client !in s.r.sessions && !EmptyPool(s.r, port)
  }

  /** The backends given to new clients of `port` along a run segment, in order. */
  ghost function Picks(s: System, acts: seq<Action>, port: Port): seq<Backend>
    requires RunFrom(s, acts).Some?
  {
    if acts == [] then []
    else
      var pre := acts[..|acts| - 1];
      var a := acts[|acts| - 1];
      var before := RunFrom(s, pre).value;
      Picks(s, pre, port) +
        if AdmitsNewClient(before, a, port) then
          var e := Step(before, a).r.sessions[a.client];
          [Backend(e.backend, e.gen)]
        else []
  }

  ghost predicate BackendsFixed(s: System, acts: seq<Action>, port: Port)
    requires RunFrom(s, acts).Some? && port in s.r.pools
  {
    forall k :: 0 <= k <= |acts| ==>
      var t := RunFrom(s, acts[..k]);
      t.Some? && port in t.value.r.pools && t.value.r.pools[port].backends == s.r.pools[port].backends
  }

  /** The j-th backend of the cycle that starts at a pool's cursor. */
  function Turn(p: Pool, j: nat): Backend
    requires p.backends != []
  {
    p.backends[(p.rr + j) % |p.backends|]
  }

  lemma PacketPick(s: System, client: Client, dest: Port, now: Time, port: Port)
    requires !EmptyPool(s.r, port)
    ensures var t := Route(s.r, client, dest, now); var p := s.r.pools[port];
            && port in t.r.pools
            && if dest == port && client !in s.r.sessions then
                 && t.r.pools[port].rr == Inc64(p.rr) && t.verdict.Dnat? && client in t.r.sessions
                 && Backend(t.r.sessions[client].backend, t.r.sessions[client].gen) == Turn(p, 0)
               else t.r.pools[port].rr == p.rr
  {
  }

  lemma CursorKept(r: Routing, dest: Port, ip: Addr, port: Port)
    requires port in r.pools
    ensures port in AddBackend(r, dest, ip).r.pools && AddBackend(r, dest, ip).r.pools[port].rr == r.pools[port].rr
    ensures port in RemoveBackend(r, dest, ip).r.pools
            && RemoveBackend(r, dest, ip).r.pools[port].rr == r.pools[port].rr
  {
  }

  lemma PicksStep(s: System, a: Action, port: Port)
    requires Enabled(s, a) && !EmptyPool(s.r, port) && port in Step(s, a).r.pools
    ensures var s' := Step(s, a); var p := s.r.pools[port];
            if AdmitsNewClient(s, a, port) then
              && s'.r.pools[port].rr == Inc64(p.rr)
              && a.client in s'.r.sessions
              && Backend(s'.r.sessions[a.client].backend, s'.r.sessions[a.client].gen) == Turn(p, 0)
            else s'.r.pools[port].rr == p.rr
  {
    hide Route, AddBackend, RemoveBackend, Inc64, Turn, At, MarkOf, Discarded;
    match a
    case Packet(client, dest, now) => PacketPick(s, client, dest, now, port);
    case BeginAdd(dest, ip) => CursorKept(s.r, dest, ip, port);
    case BeginRemove(dest, ip, _) => CursorKept(s.r, dest, ip, port);
    case RollBack => CursorKept(s.r, s.op.port, s.op.ip, port);
    case _ => OtherKeepsCursor(s, a, port);
  }

  lemma OtherKeepsCursor(s: System, a: Action, port: Port)
    requires Enabled(s, a) && !a.Packet? && !a.BeginAdd? && !a.BeginRemove? && !a.RollBack?
    requires port in s.r.pools && port in Step(s, a).r.pools
    ensures Step(s, a).r.pools[port] == s.r.pools[port]
  {
    hide At, MarkOf, Discarded, RunningAt;
  }

  lemma {:induction false} PicksCycle(s: System, acts: seq<Action>, port: Port)
    requires port in s.r.pools && s.r.pools[port].backends != [] && RunFrom(s, acts).Some?
    requires BackendsFixed(s, acts, port)
    requires s.r.pools[port].rr + |Picks(s, acts, port)| < U64
    ensures var p := s.r.pools[port]; var picks := Picks(s, acts, port);
            && port in RunFrom(s, acts).value.r.pools
            && RunFrom(s, acts).value.r.pools[port].rr == p.rr + |picks|
            && forall j :: 0 <= j < |picks| ==> picks[j] == Turn(p, j)
  {
    hide Step, Enabled, Turn, AdmitsNewClient;
    assert acts[..|acts|] == acts;
    if acts != [] {
      var pre := acts[..|acts| - 1];
      var p := s.r.pools[port];
      assert forall k :: 0 <= k <= |pre| ==> pre[..k] == acts[..k];
      assert RunFrom(s, acts[..|pre|]).Some?;
      PicksCycle(s, pre, port);
      var before := RunFrom(s, pre).value;
      PicksStep(before, acts[|acts| - 1], port);
      TurnShift(p, before.r.pools[port], |Picks(s, pre, port)|);
    }
  }

  lemma TurnShift(p: Pool, q: Pool, k: nat)
    requires p.backends == q.backends != [] && q.rr == p.rr + k
    ensures Turn(q, 0) == Turn(p, k)
  {
  }

  ghost function Count<T>(xs: seq<T>, x: T): nat
  {
    if xs == [] then 0 else Count(xs[..|xs| - 1], x) + if xs[|xs| - 1] == x then 1 else 0
  }

  function Div(x: int, n: nat): int
    requires n > 0
  {
    x / n
  }

  /** x crosses into residue class i between x-1-i and x-i, and nowhere else. */
  lemma DivStep(x: int, i: int, n: int)
    requires 0 <= i < n
    ensures Div(x - i, n) - Div(x - 1 - i, n) == if x % n == i then 1 else 0
  {
    var q, r := x / n, x % n;
    assert x == q * n + r;
    assert (q - 1) * n == q * n - n;
    if r == i {
      DivIs(x - i, n, q, 0);
      DivIs(x - 1 - i, n, q - 1, n - 1);
    } else if r > i {
      DivIs(x - i, n, q, r - i);
      DivIs(x - 1 - i, n, q, r - 1 - i);
    } else {
      DivIs(x - i, n, q - 1, n + r - i);
      DivIs(x - 1 - i, n, q - 1, n + r - 1 - i);
    }
  }

  lemma MulSign(d: int, n: int)
    requires n > 0
    ensures d > 0 ==> d * n >= n
    ensures d < 0 ==> d * n <= -n
  {
  }

  lemma DivIs(x: int, n: int, q: int, r: int)
    requires n > 0 && x == q * n + r && 0 <= r < n
    ensures Div(x, n) == q
  {
    var d := x / n - q;
    assert x == (x / n) * n + x % n;
    assert d * n == (x / n) * n - q * n;
    MulSign(d, n);
  }

  lemma {:induction false} CycleCount(p: Pool, picks: seq<Backend>, i: nat)
    requires i < |p.backends| && DistinctAddrs(p.backends)
    requires forall j :: 0 <= j < |picks| ==> picks[j] == Turn(p, j)
    ensures Count(picks, p.backends[i])
            == Div(p.rr + |picks| - 1 - i, |p.backends|) - Div(p.rr - 1 - i, |p.backends|)
  {
    hide Div, Turn;
    if picks != [] {
      var k := |picks| - 1;
      CycleCount(p, picks[..k], i);
      TurnIs(p, k, i);
      DivStep(p.rr + k, i, |p.backends|);
    }
  }

  lemma TurnIs(p: Pool, k: nat, i: nat)
    requires i < |p.backends| && DistinctAddrs(p.backends)
    ensures Turn(p, k) == p.backends[i] <==> (p.rr + k) % |p.backends| == i
  {
  }

  lemma DivSpread(a: int, k: nat, n: int)
    requires n > 0
    ensures Div(k, n) <= Div(a + k, n) - Div(a, n) <= Div(k + n - 1, n)
  {
    var qa, ra, qk, rk := a / n, a % n, k / n, k % n;
    assert a == qa * n + ra && k == qk * n + rk;
    assert (qa + qk) * n == qa * n + qk * n;
    assert (qa + qk + 1) * n == qa * n + qk * n + n;
    assert (qk + 1) * n == qk * n + n;
    if ra + rk < n { DivIs(a + k, n, qa + qk, ra + rk); } else { DivIs(a + k, n, qa + qk + 1, ra + rk - n); }
    if rk == 0 { DivIs(k + n - 1, n, qk, n - 1); } else { DivIs(k + n - 1, n, qk + 1, rk - 1); }
  }

  /** A pool whose cursor hands out its backends in turn deals them out evenly. */
  lemma FairCount(p: Pool, picks: seq<Backend>, b: Backend)
    requires DistinctAddrs(p.backends) && b in p.backends
    requires forall j :: 0 <= j < |picks| ==> picks[j] == Turn(p, j)
    ensures var n := |p.backends|; Div(|picks|, n) <= Count(picks, b) <= Div(|picks| + n - 1, n)
  {
    hide Div, Turn, Count;
    var i :| 0 <= i < |p.backends| && p.backends[i] == b;
    CycleCount(p, picks, i);
    DivSpread(p.rr - 1 - i, |picks|, |p.backends|);
    assert p.rr - 1 - i + |picks| == p.rr + |picks| - 1 - i;
  }

  /** While a pool's backends stay put, k new clients are dealt out so that each of the n backends
      gets floor(k/n) or ceil(k/n), whatever else happens in between. */
  lemma RoundRobinFair(s: System, acts: seq<Action>, port: Port, b: Backend)
    requires WellFormed(s.r) && port in s.r.pools && b in s.r.pools[port].backends
    requires RunFrom(s, acts).Some? && BackendsFixed(s, acts, port)
    requires s.r.pools[port].rr + |Picks(s, acts, port)| < U64
    ensures var picks := Picks(s, acts, port); var n := |s.r.pools[port].backends|;
            |picks| / n <= Count(picks, b) <= (|picks| + n - 1) / n
  {
    hide Turn, Count, Picks, RunFrom, BackendsFixed;
    PicksCycle(s, acts, port);
    FairCount(s.r.pools[port], Picks(s, acts, port), b);
  }
}
