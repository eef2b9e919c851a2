/** The per-server controller of `orchestration/fleet/worker.go` as functions on its state. What
    the outside world answers during one reconcile is an Answers record; the calls the worker makes
    are appended to a log, in the vocabulary of CallProtocol. */
module WorkerState {
  import opened Wrappers
  import opened RouterState
  import opened CallProtocol

  type Instance = nat

  const SECOND: Time := 1_000_000_000
  const BACKOFF_BASE: Time := 2 * SECOND
  const BACKOFF_MAX: Time := 120 * SECOND
  const INT64_MAX: int := 0x7FFF_FFFF_FFFF_FFFF

  datatype Phase = Pending | Starting | Running | Stopping | Stopped | Crashed

  /** The effective spec of a server. Hours <= 0 mean no limit. */
  datatype Effective = Effective(ip: Addr, running: bool, port: Port, standalone: bool,
                                 restartHrs: real, stopHrs: real)

  datatype Read = RowGone | Unreadable | Spec(eff: Effective)

  /** Everything one reconcile learns: the spec, whether the container answers, the outcome of each
      call, and the times at which a crash is noted, limits are checked, and a bring-up ends. */
  datatype Answers = Answers(
    read: Read, alive: bool,
    flushOk: bool, loadOk: bool, start: Option<Instance>, addOk: bool,
    drainOk: bool, persistOk: bool,
    crashTime: Time, checkTime: Time, doneTime: Time)

  datatype Entry = Entry(addr: Addr, event: Event)

  /** `log`, `timers`, `unmanaged` and `stopsAt` record what the worker did; `stopsAt` holds where in
      the log each write of desired state "stopped" came. `nudged` records that it woke itself. */
  datatype Worker = Worker(
    phase: Phase, inst: Option<Instance>, ip: Addr, port: Port, standalone: bool,
    startedAt: Time, crashCount: nat, crashedAt: Time, nudged: bool, cancelled: bool,
    log: seq<Entry>, timers: seq<Time>, unmanaged: seq<Port>, stopsAt: seq<nat>)

  const SPAWNED := Worker(Pending, None, 0, 0, false, 0, 0, 0, false, false, [], [], [], [])

  // ---- Backoff ----

  function Pow2(n: nat): (p: nat)
    ensures p >= 1
  {
    if n == 0 then 1 else 2 * Pow2(n - 1)
  }

  /** int64 wrap-around. */
  function Wrap64(x: int): int
  {
    var u := x % U64;
    if u > INT64_MAX then u - U64 else u
  }

  function Backoff(n: int): Time
  {
    var m := if n < 1 then 1 else n;
    if m > 30 then BACKOFF_MAX
    else
      var d := Wrap64(BACKOFF_BASE * Pow2(m - 1));
      if d > BACKOFF_MAX || d <= 0 then BACKOFF_MAX else d
  }

  function Hours(h: real): Time { (h * 3_600_000_000_000.0).Floor }

  // ---- The lifecycle methods ----

  function Calls(a: Addr, c: Call, ok: bool): seq<Entry>
  {
    [Entry(a, Begin(c)), Entry(a, End(c, ok))]
  }

  function Called(w: Worker, a: Addr, c: Call, ok: bool): Worker
  {
    w.(log := w.log + Calls(a, c, ok))
  }

  function MarkCrashed(w: Worker, now: Time): Worker
  {
    w.(phase := Crashed, crashCount := w.crashCount + 1, crashedAt := now,
       timers := w.timers + [now + Backoff(w.crashCount + 1)])
  }

  function MarkRunning(w: Worker, inst: Option<Instance>, eff: Effective, now: Time): Worker
  {
    w.(phase := Running, inst := inst, ip := eff.ip, port := eff.port, startedAt := now, crashCount := 0)
  }

  function TeardownLive(w: Worker, e: Answers): Worker
  {
    if w.inst.None? then w
    else
      var removed := Called(w.(inst := None), w.ip, Remove(w.port, false), true);
      Called(Called(removed, w.ip, Flush, e.drainOk), w.ip, Stop, true)
  }

  function BringDown(w: Worker, e: Answers): Worker
  {
    if !w.phase.Running? && !w.phase.Stopping? then w
    else TeardownLive(w.(phase := Stopping), e).(phase := Stopped)
  }

  function BringUp(w: Worker, eff: Effective, e: Answers): Worker
  {
    var flushed := Called(w.(phase := Starting), eff.ip, Flush, e.flushOk);
    if !e.flushOk || !e.loadOk then MarkCrashed(flushed, e.doneTime)
    else
      var started := Called(flushed, eff.ip, Start, e.start.Some?);
      if e.start.None? then MarkCrashed(started, e.doneTime)
      else
        var added := Called(started, eff.ip, Add(eff.port), e.addOk);
        if !e.addOk then MarkCrashed(Called(added, eff.ip, Stop, true), e.doneTime)
        else MarkRunning(added, e.start, eff, e.doneTime)
  }

  function Rebind(w: Worker, port: Port, e: Answers): Worker
  {
    var moved := Called(Called(w, w.ip, Remove(w.port, true), true), w.ip, Add(port), e.addOk);
    if e.addOk then moved.(port := port) else MarkCrashed(moved, e.checkTime)
  }

  function CheckLifecycle(w: Worker, eff: Effective, e: Answers): Worker
  {
    var age := e.checkTime - w.startedAt;
    if eff.stopHrs > 0.0 && age >= Hours(eff.stopHrs) then
      if e.persistOk then BringDown(w.(stopsAt := w.stopsAt + [|w.log|]), e) else w
    else if eff.restartHrs > 0.0 && age >= Hours(eff.restartHrs) then
      BringDown(w, e).(nudged := true)
    else w
  }

  function Reap(w: Worker, e: Answers): Worker
  {
    var d := BringDown(w, e);
    d.(cancelled := true,
       unmanaged := if d.standalone && d.port != 0 then d.unmanaged + [d.port] else d.unmanaged)
  }

  predicate BackingOff(w: Worker, now: Time)
  {
    now - w.crashedAt < Backoff(w.crashCount)
  }

  function NoteCrash(w: Worker, e: Answers): Worker
  {
    if w.phase.Running? && !(w.inst.Some? && e.alive) then MarkCrashed(TeardownLive(w, e), e.crashTime) else w
  }

  function Reconcile(w: Worker, e: Answers): Worker
  {
    match e.read
    case RowGone => Reap(w, e)
    case Unreadable => w
    case Spec(eff) =>
      var n := NoteCrash(w.(standalone := eff.standalone), e);
      if eff.running then
        match n.phase
        case Running => CheckLifecycle(if n.port != eff.port then Rebind(n, eff.port, e) else n, eff, e)
        case Crashed => if BackingOff(n, e.checkTime) then n else BringUp(n, eff, e)
        case Stopped => BringUp(n, eff, e)
        case Pending => BringUp(n, eff, e)
        case _ => n
      else
        match n.phase
        case Running => BringDown(n, e)
        case Stopping => BringDown(n, e)
        case Pending => n.(phase := Stopped)
        case Crashed => n.(phase := Stopped)
        case _ => n
  }

  /** The reconciles of one worker, in order. */
  function Reconciles(w: Worker, es: seq<Answers>): Worker
  {
    if es == [] then w else Reconcile(Reconciles(w, es[..|es| - 1]), es[|es| - 1])
  }
}
