/** `orchestration/proxy/router.go`: the router object itself. Each method runs under the router's
    mutex, so it is one step of RouterState, and is proved to compute exactly that step. */
module Router {
  import opened RouterState

  class Router {
    var pools: map<Port, Pool>
    var sessions: map<Client, Session>
    var gen: nat

    ghost function State(): Routing
      reads this
    {
      Routing(pools, sessions, gen)
    }

    constructor ()
      ensures State() == EMPTY
    {
      pools, sessions, gen := map[], map[], 0;
    }

    /** The scan every operation uses to locate a backend in a pool. */
    static method Find(backends: seq<Backend>, ip: Addr) returns (i: nat)
      ensures i == IndexOf(backends, ip)
    {
      i := 0;
      while i < |backends|
        invariant i <= |backends|
        invariant IndexOf(backends, ip) == i + IndexOf(backends[i..], ip)
      {
        if backends[i].ip == ip {
          return;
        }
        assert backends[i..][1..] == backends[i + 1..];
        i := i + 1;
      }
    }

    method AddBackend(port: Port, ip: Addr) returns (newGen: nat, oldGen: nat, replaced: bool)
      modifies this
      ensures RouterState.AddBackend(old(State()), port, ip) == Added(State(), newGen, oldGen, replaced)
    {
      gen := Inc64(gen);
      if port !in pools {
        pools := pools[port := Pool([], 0)];
      }
      var p := pools[port];
      var i := Find(p.backends, ip);
      if i < |p.backends| {
        oldGen := p.backends[i].gen;
        pools := pools[port := p.(backends := p.backends[i := Backend(ip, gen)])];
        return gen, oldGen, true;
      }
      pools := pools[port := p.(backends := p.backends + [Backend(ip, gen)])];
      return gen, 0, false;
    }

    method RemoveBackend(port: Port, ip: Addr) returns (g: nat, ok: bool, empty: bool)
      modifies this`pools
      ensures RouterState.RemoveBackend(old(State()), port, ip) == Removed(State(), g, ok, empty)
    {
      if port !in pools {
        return 0, false, false;
      }
      var p := pools[port];
      var i := Find(p.backends, ip);
      if i < |p.backends| {
        g := p.backends[i].gen;
        var rest := p.backends[..i] + p.backends[i + 1..];
        pools := pools[port := p.(backends := rest)];
        return g, true, |rest| == 0;
      }
      return 0, false, |p.backends| == 0;
    }

    method Unmanage(port: Port)
      modifies this`pools
      ensures State() == RouterState.Unmanage(old(State()), port)
    {
      pools := pools - {port};
    }

    method Route(client: Client, port: Port, now: Time) returns (verdict: Verdict)
      modifies this`pools, this`sessions
      ensures RouterState.Route(old(State()), client, port, now) == Routed(State(), verdict)
    {
      if port !in pools {
        return Accept;
      }
      var p := pools[port];
      if client in sessions {
        var s := sessions[client];
        var i := Find(p.backends, s.backend);
        if i < |p.backends| && p.backends[i].gen == s.gen {
          sessions := sessions[client := s.(lastSeen := now)];
          return Dnat(MarkOf(s.gen));
        }
        return Drop;
      }
      if |p.backends| == 0 {
        return Drop;
      }
      var b := p.backends[p.rr % |p.backends|];
      pools := pools[port := p.(rr := Inc64(p.rr))];
      sessions := sessions[client := Session(b.ip, b.gen, now)];
      return Dnat(MarkOf(b.gen));
    }

    method Sweep(ttl: Time, now: Time)
      modifies this`sessions
      ensures State() == RouterState.Sweep(old(State()), ttl, now)
    {
      ghost var was := sessions;
      var todo := sessions.Keys;
      while todo != {}
        invariant todo <= was.Keys
        invariant sessions == map c | c in was && (c in todo || now - was[c].lastSeen <= ttl) :: was[c]
        decreases |todo|
      {
        var c :| c in todo;
        if now - sessions[c].lastSeen > ttl {
          sessions := sessions - {c};
        }
        todo := todo - {c};
      }
    }
  }
}
