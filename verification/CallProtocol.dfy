/** The order in which a worker may call the proxy and docker on behalf of one address, as the
    comments on AddBackend and RemoveBackend demand it (`orchestration/proxy/proxy.go`):
    flush -> start -> add, and remove -> flush -> stop; a rebind is remove -> add with nothing between. */
module CallProtocol {
  import opened RouterState

  datatype Call = Flush | Start | Add(port: Port) | Remove(port: Port, maybeUnbind: bool) | Stop

  datatype Event = Begin(call: Call) | End(call: Call, ok: bool)

  datatype Stage =
    | Down                          // no backend; flows of an earlier container may linger
    | Flushed                       // a flush succeeded and nothing happened since
    | Started                       // a container was started after that flush
    | Serving(port: Port)              // the backend is registered
    | Detached                      // taken off a port by a rebind
    | Busy(before: Stage, call: Call)
    | Bad                           // some call came out of order

  predicate Allowed(s: Stage, c: Call)
  {
    match c
    case Flush => s.Down? || s.Flushed?
    case Start => s.Flushed?
    case Add(_) => s.Started? || s.Detached?
    case Remove(port, _) => s == Serving(port)
    case Stop => s.Down? || s.Flushed?
  }

  function Finished(c: Call, ok: bool): Stage
  {
    match c
    case Flush => if ok then Flushed else Down
    case Start => if ok then Started else Down
    case Add(port) => if ok then Serving(port) else Down
    case Remove(_, maybeUnbind) => if maybeUnbind then Detached else Down
    case Stop => Down
  }

  function Next(s: Stage, e: Event): Stage
  {
    match e
    case Begin(c) => if Allowed(s, c) then Busy(s, c) else Bad
    case End(c, ok) => if s.Busy? && s.call == c then Finished(c, ok) else Bad
  }

  function After(s: Stage, log: seq<Event>): Stage
  {
    if log == [] then s else Next(After(s, log[..|log| - 1]), log[|log| - 1])
  }

  lemma {:induction false} AfterConcat(s: Stage, a: seq<Event>, b: seq<Event>)
    ensures After(s, a + b) == After(After(s, a), b)
  {
    if b == [] {
      assert a + b == a;
    } else {
      assert (a + b)[..|a + b| - 1] == a + b[..|b| - 1];
      AfterConcat(s, a, b[..|b| - 1]);
    }
  }

  /** A log that is in order has only in-order prefixes. */
  lemma {:induction false} BadIsForever(s: Stage, a: seq<Event>, b: seq<Event>)
    ensures After(s, a) == Bad ==> After(s, a + b) == Bad
  {
    AfterConcat(s, a, b);
    if b != [] {
      assert (a + b)[..|a + b| - 1] == a + b[..|b| - 1];
      AfterConcat(s, a, b[..|b| - 1]);
      BadIsForever(s, a, b[..|b| - 1]);
    }
  }
}
