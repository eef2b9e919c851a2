/** The routing state of `orchestration/proxy/router.go` as a value, and each router operation as
    a function on it. The class in Router.dfy updates the same state in place and is proved equal
    to these functions; ProxyMachine.dfy interleaves them. */
module RouterState {
  type Addr = nat
  type Port = p: nat | p < 0x1_0000
  type Time = int  // nanoseconds
  datatype Client = Client(addr: Addr, port: Port)

  datatype Backend = Backend(ip: Addr, gen: nat)
  datatype Pool = Pool(backends: seq<Backend>, rr: nat)
  datatype Session = Session(backend: Addr, gen: nat, lastSeen: Time)
  datatype Verdict = Accept | Dnat(mark: nat) | Drop

  datatype Routing = Routing(pools: map<Port, Pool>, sessions: map<Client, Session>, gen: nat)

  const U32: nat := 0x1_0000_0000
  const U64: nat := 0x1_0000_0000_0000_0000

  const EMPTY := Routing(map[], map[], 0)

  // The generation counter and the cursor are uint64; a mark is the generation truncated to uint32.
  function Inc64(x: nat): nat { (x + 1) % U64 }
  function MarkOf(gen: nat): nat { gen % U32 }

  /** Index of the first backend at `ip`, or |bs| when there is none. */
  function IndexOf(bs: seq<Backend>, ip: Addr): (i: nat)
    ensures i <= |bs|
    ensures i < |bs| ==> bs[i].ip == ip
    ensures forall j :: 0 <= j < i ==> bs[j].ip != ip
  {
    if bs == [] || bs[0].ip == ip then 0 else 1 + IndexOf(bs[1..], ip)
  }

  datatype Added = Added(r: Routing, newGen: nat, oldGen: nat, replaced: bool)
  datatype Removed = Removed(r: Routing, gen: nat, ok: bool, empty: bool)
  datatype Routed = Routed(r: Routing, verdict: Verdict)

  function AddBackend(r: Routing, port: Port, ip: Addr): Added
  {
    var g := Inc64(r.gen);
    var p := if port in r.pools then r.pools[port] else Pool([], 0);
    var i := IndexOf(p.backends, ip);
    if i < |p.backends| then
      var bs := p.backends[i := Backend(ip, g)];
      Added(r.(gen := g, pools := r.pools[port := p.(backends := bs)]), g, p.backends[i].gen, true)
    else
      var bs := p.backends + [Backend(ip, g)];
      Added(r.(gen := g, pools := r.pools[port := p.(backends := bs)]), g, 0, false)
  }

  function RemoveBackend(r: Routing, port: Port, ip: Addr): Removed
  {
    if port !in r.pools then Removed(r, 0, false, false)
    else
      var p := r.pools[port];
      var i := IndexOf(p.backends, ip);
      if i < |p.backends| then
        var bs := p.backends[..i] + p.backends[i + 1..];
        Removed(r.(pools := r.pools[port := p.(backends := bs)]), p.backends[i].gen, true, bs == [])
      else
        Removed(r, 0, false, p.backends == [])
  }

  function Unmanage(r: Routing, port: Port): Routing
  {
    r.(pools := r.pools - {port})
  }

  function Route(r: Routing, client: Client, port: Port, now: Time): Routed
  {
    if port !in r.pools then Routed(r, Accept)
    else
      var p := r.pools[port];
      if client in r.sessions then
        var s := r.sessions[client];
        var i := IndexOf(p.backends, s.backend);
        if i < |p.backends| && p.backends[i].gen == s.gen then
          Routed(r.(sessions := r.sessions[client := s.(lastSeen := now)]), Dnat(MarkOf(s.gen)))
        else
          Routed(r, Drop)
      else if p.backends == [] then Routed(r, Drop)
      else
        var b := p.backends[p.rr % |p.backends|];
        Routed(r.(pools := r.pools[port := p.(rr := Inc64(p.rr))],
                  sessions := r.sessions[client := Session(b.ip, b.gen, now)]),
               Dnat(MarkOf(b.gen)))
  }

  function Sweep(r: Routing, ttl: Time, now: Time): Routing
  {
    r.(sessions := map c | c in r.sessions && now - r.sessions[c].lastSeen <= ttl :: r.sessions[c])
  }

  // ---- What the operations mean for membership ----

  /** Some pool on `port` holds `ip` under generation `gen`. */
  predicate At(r: Routing, port: Port, ip: Addr, gen: nat)
  {
    port in r.pools && Backend(ip, gen) in r.pools[port].backends
  }

  ghost predicate DistinctAddrs(bs: seq<Backend>)
  {
    forall i, j :: 0 <= i < j < |bs| ==> bs[i].ip != bs[j].ip
  }

  /** Every pool holds an address at most once. */
  ghost predicate WellFormed(r: Routing)
  {
    forall port :: port in r.pools ==> DistinctAddrs(r.pools[port].backends)
  }

  ghost predicate SamePools(r: Routing, r': Routing)
  {
    && r.pools.Keys == r'.pools.Keys
    && forall port :: port in r.pools ==> r.pools[port].backends == r'.pools[port].backends
  }

  lemma ReplaceMembers(bs: seq<Backend>, i: nat, b: Backend)
    requires DistinctAddrs(bs) && i < |bs| && bs[i].ip == b.ip
    ensures DistinctAddrs(bs[i := b])
    ensures forall c :: c in bs[i := b] <==> if c.ip == b.ip then c == b else c in bs
  {
    var bs' := bs[i := b];
    forall c
      ensures c in bs' <==> if c.ip == b.ip then c == b else c in bs
    {
      assert bs'[i] == b;
      if c in bs && c.ip != b.ip {
        var j :| 0 <= j < |bs| && bs[j] == c;
        assert bs'[j] == c;
      }
    }
  }

  lemma RemoveMembers(bs: seq<Backend>, i: nat)
    requires DistinctAddrs(bs) && i < |bs|
    ensures DistinctAddrs(bs[..i] + bs[i + 1..])
    ensures forall c :: c in bs[..i] + bs[i + 1..] <==> c in bs && c.ip != bs[i].ip
  {
    var bs' := bs[..i] + bs[i + 1..];
    forall c
      ensures c in bs' <==> c in bs && c.ip != bs[i].ip
    {
      if c in bs && c.ip != bs[i].ip {
        var j :| 0 <= j < |bs| && bs[j] == c;
        assert bs'[if j < i then j else j - 1] == c;
      }
      if c in bs' {
        var j :| 0 <= j < |bs'| && bs'[j] == c;
        assert bs[if j < i then j else j + 1] == c;
      }
    }
  }

  /** An add makes (port, ip, fresh generation) the only holding of ip on port and moves nothing else:
      other ports, the cursor and the places of the backends already there are as they were. */
  lemma AddBackendMembership(r: Routing, port: Port, ip: Addr)
    requires WellFormed(r)
    ensures var a := AddBackend(r, port, ip);
            && WellFormed(a.r)
            && a.r.sessions == r.sessions && a.r.gen == a.newGen == Inc64(r.gen)
            && a.r.pools.Keys == r.pools.Keys + {port} && OtherPortsAsWere(r, a.r, port)
            && a.r.pools[port].rr == (if port in r.pools then r.pools[port].rr else 0)
            && (port in r.pools ==> forall i :: 0 <= i < |r.pools[port].backends| ==>
                  i < |a.r.pools[port].backends| && a.r.pools[port].backends[i].ip == r.pools[port].backends[i].ip)
            && (a.replaced <==> exists g :: At(r, port, ip, g))
            && (a.replaced ==> At(r, port, ip, a.oldGen))
            && forall q, x, g :: At(a.r, q, x, g) <==>
                 if q == port && x == ip then g == a.newGen else At(r, q, x, g)
  {
    var a := AddBackend(r, port, ip);
    var bs := if port in r.pools then r.pools[port].backends else [];
    var i := IndexOf(bs, ip);
    if i < |bs| {
      assert bs[i] == Backend(ip, a.oldGen);
      assert At(r, port, ip, a.oldGen);
      ReplaceMembers(bs, i, Backend(ip, a.newGen));
    } else {
      assert forall g :: Backend(ip, g) !in bs;
    }
  }

  /** A removal takes exactly (port, ip) out, and reports what it took and whether the pool is empty. */
  lemma RemoveBackendMembership(r: Routing, port: Port, ip: Addr)
    requires WellFormed(r)
    ensures var d := RemoveBackend(r, port, ip);
            && WellFormed(d.r)
            && d.r.sessions == r.sessions && d.r.gen == r.gen && d.r.pools.Keys == r.pools.Keys
            && OtherPortsAsWere(r, d.r, port) && (port in r.pools ==> d.r.pools[port].rr == r.pools[port].rr)
            && (d.ok <==> exists g :: At(r, port, ip, g))
            && (d.ok ==> At(r, port, ip, d.gen))
            && (d.empty <==> port in d.r.pools && d.r.pools[port].backends == [])
            && forall q, x, g :: At(d.r, q, x, g) <==> At(r, q, x, g) && !(q == port && x == ip)
  {
    var d := RemoveBackend(r, port, ip);
    if port in r.pools {
      var bs := r.pools[port].backends;
      var i := IndexOf(bs, ip);
      if i < |bs| {
        assert bs[i] == Backend(ip, d.gen);
        assert At(r, port, ip, d.gen);
        RemoveMembers(bs, i);
      }
    }
  }

  /** Every other port keeps the pool it has, and stays without one if it has none; an empty pool is
      not the same as none. */
  ghost predicate OtherPortsAsWere(r: Routing, r': Routing, port: Port)
  {
    forall q :: q != port ==> (q in r'.pools <==> q in r.pools) && (q in r.pools ==> r'.pools[q] == r.pools[q])
  }

  /** The port stops being managed, and no other port's management or pool changes. */
  lemma UnmanageMembership(r: Routing, port: Port)
    requires WellFormed(r)
    ensures var u := Unmanage(r, port);
            && WellFormed(u) && u.sessions == r.sessions && u.gen == r.gen
            && port !in u.pools && OtherPortsAsWere(r, u, port)
            && forall q, x, g :: At(u, q, x, g) <==> At(r, q, x, g) && q != port
  {
  }

  /** The fate of a packet, independently of how `route` searches: a client with a session is
      forwarded exactly when its port's pool still holds that very (address, generation); a new
      client exactly when the pool holds anything; drops leave the whole state alone. */
  lemma RouteVerdict(r: Routing, client: Client, port: Port, now: Time)
    requires WellFormed(r)
    ensures var t := Route(r, client, port, now);
            && SamePools(r, t.r) && WellFormed(t.r) && t.r.gen == r.gen
            && (t.verdict.Accept? <==> port !in r.pools)
            && (client in r.sessions && port in r.pools ==>
                  (t.verdict.Dnat? <==> At(r, port, r.sessions[client].backend, r.sessions[client].gen)))
            && (client !in r.sessions && port in r.pools ==>
                  (t.verdict.Dnat? <==> exists x, g :: At(r, port, x, g)))
            && (!t.verdict.Dnat? ==> t.r == r)
            && (t.verdict.Dnat? ==>
                  && client in t.r.sessions
                  && var s := t.r.sessions[client];
                  && At(r, port, s.backend, s.gen) && t.verdict.mark == MarkOf(s.gen) && s.lastSeen == now
                  && t.r.sessions == r.sessions[client := s]
                  && (client in r.sessions ==>
                        s.backend == r.sessions[client].backend && s.gen == r.sessions[client].gen))
            && forall q, x, g :: At(t.r, q, x, g) <==> At(r, q, x, g)
  {
    var t := Route(r, client, port, now);
    if port in r.pools {
      var bs := r.pools[port].backends;
      if client in r.sessions {
        var s := r.sessions[client];
        var i := IndexOf(bs, s.backend);
        if Backend(s.backend, s.gen) in bs {
          var j :| 0 <= j < |bs| && bs[j] == Backend(s.backend, s.gen);
          assert i == j;
        }
      } else if bs != [] {
        var b := bs[r.pools[port].rr % |bs|];
        assert b == Backend(b.ip, b.gen);
        assert At(r, port, b.ip, b.gen);
      }
    }
  }

  lemma SweepMembership(r: Routing, ttl: Time, now: Time)
    requires WellFormed(r)
    ensures var w := Sweep(r, ttl, now);
            && w.pools == r.pools && w.gen == r.gen && WellFormed(w)
            && forall q, x, g :: At(w, q, x, g) <==> At(r, q, x, g)
  {
  }
}
