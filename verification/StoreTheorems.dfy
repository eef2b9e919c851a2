/** What the tables keep over every serial sequence of API requests. */
module StoreTheorems {
  import opened Wrappers
  import opened Overlay
  import opened TableState

  // ---- Invariant ----

  ghost predicate PortsUnshared(t: Tables)
  {
    && (forall a, b :: a in t.servers && b in t.servers && a != b && t.servers[a].port.Some? ==>
          t.servers[a].port != t.servers[b].port)
    && (forall a, b :: a in t.clusters && b in t.clusters && a != b ==> t.clusters[a].port != t.clusters[b].port)
    && (forall s, c :: s in t.servers && c in t.clusters ==> t.servers[s].port != Some(t.clusters[c].port))
  }

  ghost predicate ServersPlaced(t: Tables)
  {
    && (forall s :: s in t.servers ==>
          && t.servers[s].port.None? != t.servers[s].cluster.None?
          && (t.servers[s].cluster.Some? ==> t.servers[s].cluster.value in t.clusters)
          && IP_MIN <= t.servers[s].ip <= IP_MAX
          && (t.servers[s].desired == "running" || t.servers[s].desired == "stopped"))
    && (forall a, b :: a in t.servers && b in t.servers && a != b ==> t.servers[a].ip != t.servers[b].ip)
  }

  predicate Owned(t: Tables, at: ScopeId)
  {
    match at.scope
    case Global => true
    case Cluster => at.name in t.clusters
    case Server => at.name in t.servers
  }

  ghost predicate AssignmentsOwned(t: Tables, a: Assignments)
  {
    && (forall m :: m in a.marks ==> Owned(t, m))
    && (forall r :: r in a.rows ==> Owned(t, r.at) && r.at in a.marks && r.item in a.known)
  }

  ghost predicate Consistent(t: Tables)
  {
    && PortsUnshared(t) && ServersPlaced(t)
    && (forall id :: id in t.env ==> Owned(t, ScopeId(id.scope, id.scopeName)))
    && AssignmentsOwned(t, t.plugins) && AssignmentsOwned(t, t.configs)
  }

  // ---- Lowest free address ----

  lemma {:induction false} FirstFreeIsLowest(t: Tables, from: nat)
    requires from <= IP_MAX + 1
    ensures var ip := FirstFree(t, from);
            && (ip.Some? ==> from <= ip.value <= IP_MAX && !IpTaken(t, ip.value, {})
                             && forall k :: from <= k < ip.value ==> IpTaken(t, k, {}))
            && (ip.None? <==> forall k :: from <= k <= IP_MAX ==> IpTaken(t, k, {}))
    decreases IP_MAX + 1 - from
  {
    if from <= IP_MAX && IpTaken(t, from, {}) {
      FirstFreeIsLowest(t, from + 1);
    }
  }

  // ---- Assignments ----

  predicate NoRepeats(items: seq<string>)
  {
    forall i, j :: 0 <= i < j < |items| ==> items[i] != items[j]
  }

  /** The insert loop succeeds exactly for known items without repeats, and adds exactly those. */
  lemma {:induction false} InsertRowsAdds(a: Assignments, at: ScopeId, items: seq<string>)
    requires forall r :: r in a.rows ==> r.at != at
    ensures var b := InsertRows(a, at, items);
            && (b.Some? <==> NoRepeats(items) && forall x :: x in items ==> x in a.known)
            && (b.Some? ==> b.value.known == a.known && b.value.marks == a.marks
                            && forall r :: r in b.value.rows <==> r in a.rows || (r.at == at && r.item in items))
  {
    if items != [] {
      var n := |items| - 1;
      InsertRowsAdds(a, at, items[..n]);
      assert items == items[..n] + [items[n]];
      if NoRepeats(items) {
        assert NoRepeats(items[..n]);
        assert items[n] !in items[..n];
      }
      if NoRepeats(items[..n]) && items[n] !in items[..n] {
        assert NoRepeats(items);
      }
    }
  }

  /** Setting a scope replaces exactly that scope's rows and marks it. */
  lemma SetItemsReplaces(a: Assignments, at: ScopeId, items: seq<string>)
    ensures var b := SetItems(a, at, items);
            && (b.Some? <==> NoRepeats(items) && forall x :: x in items ==> x in a.known)
            && (b.Some? ==> b.value.known == a.known && b.value.marks == a.marks + {at}
                            && forall r :: r in b.value.rows <==>
                                 if r.at == at then r.item in items else r in a.rows)
  {
    InsertRowsAdds(ClearRows(a.(marks := a.marks + {at}), at), at, items);
  }

  predicate Assignable(a: Assignments, items: Option<seq<string>>)
  {
    items.Some? ==> NoRepeats(items.value) && forall x :: x in items.value ==> x in a.known
  }

  /** `b` is `a` with the scope's set replaced, if one is given. */
  ghost predicate Replaced(a: Assignments, b: Assignments, at: ScopeId, items: Option<seq<string>>)
  {
    if items.None? then b == a
    else
      && b.known == a.known && b.marks == a.marks + {at}
      && forall r :: r in b.rows <==> if r.at == at then r.item in items.value else r in a.rows
  }

  /** Overrides are written exactly when all their items exist and are listed once. */
  lemma OverridesReplace(t: Tables, at: ScopeId, o: Overrides)
    ensures var u := AddOverrides(t, at, o);
            && (u.Some? <==> Assignable(t.plugins, o.plugins) && Assignable(t.configs, o.configs))
            && (u.Some? ==>
                  && u.value.servers == t.servers && u.value.clusters == t.clusters
                  && u.value.env == SetEnvs(t.env, at, o.env)
                  && Replaced(t.plugins, u.value.plugins, at, o.plugins)
                  && Replaced(t.configs, u.value.configs, at, o.configs))
  {
    hide SetItems, SetEnvs, NoRepeats;
    if o.plugins.Some? { SetItemsReplaces(t.plugins, at, o.plugins.value); }
    if o.configs.Some? { SetItemsReplaces(t.configs, at, o.configs.value); }
  }

  // ---- Every request keeps the tables consistent ----

  lemma ReplacedKeeps(t: Tables, a: Assignments, b: Assignments, at: ScopeId, items: Option<seq<string>>)
    requires AssignmentsOwned(t, a) && Owned(t, at) && Replaced(a, b, at, items) && Assignable(a, items)
    ensures AssignmentsOwned(t, b)
  {
    hide Owned, NoRepeats;
  }

  lemma SetEnvsKeep(t: Tables, at: ScopeId, vars: map<string, string>)
    requires Owned(t, at) && forall id :: id in t.env ==> Owned(t, ScopeId(id.scope, id.scopeName))
    ensures forall id :: id in SetEnvs(t.env, at, vars) ==> Owned(t, ScopeId(id.scope, id.scopeName))
  {
    hide Owned;
  }

  lemma OverridesKeep(t: Tables, at: ScopeId, o: Overrides)
    requires Consistent(t) && Owned(t, at) && AddOverrides(t, at, o).Some?
    ensures Consistent(AddOverrides(t, at, o).value)
  {
    hide AddOverrides, Assignable, Replaced, SetEnvs, PortsUnshared, ServersPlaced;
    OverridesReplace(t, at, o);
    var u := AddOverrides(t, at, o).value;
    SetEnvsKeep(t, at, o.env);
    ReplacedKeeps(t, t.plugins, u.plugins, at, o.plugins);
    ReplacedKeeps(t, t.configs, u.configs, at, o.configs);
    FromParts(t, u);
  }

  lemma SameServers(t: Tables, u: Tables)
    requires PortsUnshared(t) && ServersPlaced(t) && u.servers == t.servers && u.clusters == t.clusters
    ensures PortsUnshared(u) && ServersPlaced(u)
  {
  }

  /** A new row makes no scoped row homeless. */
  lemma MoreOwners(t: Tables, u: Tables)
    requires Consistent(t) && PortsUnshared(u) && ServersPlaced(u)
    requires t.servers.Keys <= u.servers.Keys && t.clusters.Keys <= u.clusters.Keys
    requires u.env == t.env && u.plugins == t.plugins && u.configs == t.configs
    ensures Consistent(u)
  {
  }

  lemma ServerRowKeeps(t: Tables, name: string, row: ServerRow)
    requires Consistent(t) && ServerRowAllowed(t, name, row) && IP_MIN <= row.ip <= IP_MAX
    ensures Consistent(t.(servers := t.servers[name := row]))
  {
    MoreOwners(t, t.(servers := t.servers[name := row]));
  }

  lemma ClusterRowKeeps(t: Tables, name: string, row: ClusterRow)
    requires Consistent(t) && ClusterRowAllowed(t, name, row)
    ensures Consistent(t.(clusters := t.clusters[name := row]))
  {
    MoreOwners(t, t.(clusters := t.clusters[name := row]));
  }

  lemma DropKeeps(t: Tables, u: Tables, at: ScopeId)
    requires Consistent(t) && u.env == t.env && u.plugins == t.plugins && u.configs == t.configs
    requires PortsUnshared(u) && ServersPlaced(u)
    requires forall other :: Owned(t, other) && other != at ==> Owned(u, other)
    ensures Consistent(DropScope(u, at))
  {
  }

  lemma GlobalItemsKeep(t: Tables, items: seq<string>)
    requires Consistent(t)
    ensures var a := SetItems(t.plugins, ScopeId(Global, ""), items);
            a.Some? ==> Consistent(t.(plugins := a.value))
    ensures var a := SetItems(t.configs, ScopeId(Global, ""), items);
            a.Some? ==> Consistent(t.(configs := a.value))
  {
    hide SetItems, Replaced, AssignmentsOwned, PortsUnshared, ServersPlaced, NoRepeats;
    var at := ScopeId(Global, "");
    GlobalSetReplaces(t.plugins, items);
    GlobalSetReplaces(t.configs, items);
    var p, c := SetItems(t.plugins, at, items), SetItems(t.configs, at, items);
    if p.Some? {
      ReplacedKeeps(t, t.plugins, p.value, at, Some(items));
      FromParts(t, t.(plugins := p.value));
    }
    if c.Some? {
      ReplacedKeeps(t, t.configs, c.value, at, Some(items));
      FromParts(t, t.(configs := c.value));
    }
  }

  lemma GlobalSetReplaces(a: Assignments, items: seq<string>)
    ensures var b := SetItems(a, ScopeId(Global, ""), items);
            b.Some? ==> Replaced(a, b.value, ScopeId(Global, ""), Some(items)) && Assignable(a, Some(items))
  {
    SetItemsReplaces(a, ScopeId(Global, ""), items);
  }

  lemma ServerRequestKeeps(t: Tables, q: Request)
    requires Consistent(t) && Handle(t, q).Some?
    requires q.CreateServerReq? || q.UpdateServerReq? || q.SetDesired? || q.DeleteServerReq?
    ensures Consistent(Handle(t, q).value)
  {
    hide Consistent, ServerRowAllowed, AddOverrides, FirstFree, DropScope, IpTaken;
    match q
    case CreateServerReq(name, row, o) =>
      FirstFreeIsLowest(t, IP_MIN);
      var full := row.(ip := FirstFree(t, IP_MIN).value, desired := if row.desired == "" then "running" else row.desired);
      ServerRowKeeps(t, name, full);
      OverridesKeep(InsertServer(t, name, full).value, ScopeId(Server, name), o);
    case UpdateServerReq(name, newPort, row) =>
      IpInRange(t, name);
      ServerRowKeeps(t, name, Overlaid(t.servers[name], newPort, row).value);
    case SetDesired(name, running) =>
      if name in t.servers {
        DesiredKeeps(t, name, if running then "running" else "stopped");
      }
    case DeleteServerReq(name) => DeleteServerKeeps(t, name);
  }

  lemma IpInRange(t: Tables, name: string)
    requires Consistent(t)
    ensures name in t.servers ==> IP_MIN <= t.servers[name].ip <= IP_MAX
  {
  }

  lemma DesiredKeeps(t: Tables, name: string, desired: string)
    requires Consistent(t) && name in t.servers && (desired == "running" || desired == "stopped")
    ensures Consistent(t.(servers := t.servers[name := t.servers[name].(desired := desired)]))
  {
    MoreOwners(t, t.(servers := t.servers[name := t.servers[name].(desired := desired)]));
  }

  lemma DeleteServerKeeps(t: Tables, name: string)
    requires Consistent(t)
    ensures Consistent(DeleteServer(t, name))
  {
    DropKeeps(t, t.(servers := t.servers - {name}), ScopeId(Server, name));
  }

  lemma DeleteClusterKeeps(t: Tables, name: string)
    requires Consistent(t) && DeleteCluster(t, name).Some?
    ensures Consistent(DeleteCluster(t, name).value)
  {
    DropKeeps(t, t.(clusters := t.clusters - {name}), ScopeId(Cluster, name));
  }

  /** Changing only scoped rows: ownership is judged by the unchanged servers and clusters. */
  lemma FromParts(t: Tables, u: Tables)
    requires Consistent(t) && u.servers == t.servers && u.clusters == t.clusters
    requires forall id :: id in u.env ==> Owned(t, ScopeId(id.scope, id.scopeName))
    requires AssignmentsOwned(t, u.plugins) && AssignmentsOwned(t, u.configs)
    ensures Consistent(u)
  {
    SameServers(t, u);
    assert forall at :: Owned(u, at) <==> Owned(t, at);
    hide Owned, PortsUnshared, ServersPlaced;
  }

  lemma KnownKeeps(t: Tables, a: Assignments, item: string)
    requires AssignmentsOwned(t, a)
    ensures AssignmentsOwned(t, a.(known := a.known + {item}))
    ensures DeleteKnown(a, item).Some? ==> AssignmentsOwned(t, DeleteKnown(a, item).value)
  {
    hide Owned;
  }

  lemma CatalogKeeps(t: Tables, item: string)
    requires Consistent(t)
    ensures Consistent(t.(plugins := t.plugins.(known := t.plugins.known + {item})))
    ensures Consistent(t.(configs := t.configs.(known := t.configs.known + {item})))
    ensures DeleteKnown(t.plugins, item).Some? ==> Consistent(t.(plugins := DeleteKnown(t.plugins, item).value))
    ensures DeleteKnown(t.configs, item).Some? ==> Consistent(t.(configs := DeleteKnown(t.configs, item).value))
  {
    hide DeleteKnown, AssignmentsOwned, PortsUnshared, ServersPlaced, Owned;
    var p, c := t.plugins, t.configs;
    KnownKeeps(t, p, item);
    KnownKeeps(t, c, item);
    FromParts(t, t.(plugins := p.(known := p.known + {item})));
    FromParts(t, t.(configs := c.(known := c.known + {item})));
    if DeleteKnown(p, item).Some? { FromParts(t, t.(plugins := DeleteKnown(p, item).value)); }
    if DeleteKnown(c, item).Some? { FromParts(t, t.(configs := DeleteKnown(c, item).value)); }
  }

  lemma GlobalEnvKeeps(t: Tables, key: string, value: string, scopeName: string)
    requires Consistent(t)
    ensures Consistent(t.(env := t.env[EnvKey(key, Global, scopeName) := value]))
    ensures Consistent(t.(env := t.env - {EnvKey(key, Global, scopeName)}))
  {
    hide AssignmentsOwned, PortsUnshared, ServersPlaced;
    assert Owned(t, ScopeId(Global, scopeName));
    FromParts(t, t.(env := t.env[EnvKey(key, Global, scopeName) := value]));
    FromParts(t, t.(env := t.env - {EnvKey(key, Global, scopeName)}));
  }

  lemma ClusterRequestKeeps(t: Tables, q: Request)
    requires Consistent(t) && Handle(t, q).Some?
    requires q.CreateClusterReq? || q.UpdateClusterReq? || q.DeleteClusterReq?
    ensures Consistent(Handle(t, q).value)
  {
    hide Consistent, ClusterRowAllowed, AddOverrides, DropScope;
    match q
    case CreateClusterReq(name, body, o) =>
      ClusterRowKeeps(t, name, NewCluster(body));
      OverridesKeep(InsertCluster(t, name, NewCluster(body)).value, ScopeId(Cluster, name), o);
    case UpdateClusterReq(name, body) => ClusterRowKeeps(t, name, OverlaidCluster(t.clusters[name], body));
    case DeleteClusterReq(name) => DeleteClusterKeeps(t, name);
  }

  lemma RequestKeeps(t: Tables, q: Request)
    requires Consistent(t) && Handle(t, q).Some?
    ensures Consistent(Handle(t, q).value)
  {
    hide Consistent, CreateServer, DeleteServer, CreateCluster, DeleteCluster, UpdateServer, UpdateCluster;
    hide SetItems, DeleteKnown, FirstFree;
    match q
    case CreateServerReq(_, _, _) => ServerRequestKeeps(t, q);
    case UpdateServerReq(_, _, _) => ServerRequestKeeps(t, q);
    case SetDesired(_, _) => ServerRequestKeeps(t, q);
    case DeleteServerReq(_) => ServerRequestKeeps(t, q);
    case CreateClusterReq(_, _, _) => ClusterRequestKeeps(t, q);
    case UpdateClusterReq(_, _) => ClusterRequestKeeps(t, q);
    case DeleteClusterReq(_) => ClusterRequestKeeps(t, q);
    case SetGlobalPlugins(items) => GlobalItemsKeep(t, items);
    case SetGlobalConfigs(items) => GlobalItemsKeep(t, items);
    case SetGlobalEnv(key, value, scopeName) => GlobalEnvKeeps(t, key, value, scopeName);
    case DeleteGlobalEnv(key, scopeName) => GlobalEnvKeeps(t, key, "", scopeName);
    case PutManifest(item) => CatalogKeeps(t, item);
    case PutConfig(item) => CatalogKeeps(t, item);
    case DeleteManifest(item) => CatalogKeeps(t, item);
    case DeleteConfig(item) => CatalogKeeps(t, item);
  }

  /** Over any serial run of requests: no port has two owners, every server has exactly one of port
      and cluster, an address of its own and a valid desired state, and every scoped row names an
      existing owner. */
  lemma {:induction false} AlwaysConsistent(t: Tables, qs: seq<Request>)
    requires Consistent(t)
    ensures Consistent(Served(t, qs))
  {
    if qs != [] {
      var before := Served(t, qs[..|qs| - 1]);
      AlwaysConsistent(t, qs[..|qs| - 1]);
      if Handle(before, qs[|qs| - 1]).Some? {
        RequestKeeps(before, qs[|qs| - 1]);
      }
    }
  }

  /** In particular from freshly migrated tables on. */
  lemma ConsistentFromStart(qs: seq<Request>)
    ensures Consistent(Served(MIGRATED, qs))
  {
    AlwaysConsistent(MIGRATED, qs);
  }

  // ---- Ports as the proxy sees them ----

  predicate SameCluster(t: Tables, a: string, b: string)
  {
    a in t.servers && b in t.servers && t.servers[a].cluster.Some? && t.servers[a].cluster == t.servers[b].cluster
  }

  /** Every existing server resolves to a port, and two servers share one exactly when they are
      members of the same cluster. */
  lemma PortsFollowClusters(t: Tables, a: string, b: string)
    requires Consistent(t) && a in t.servers && b in t.servers && a != b
    ensures OwnPort(t, a).Some? && OwnPort(t, b).Some?
    ensures OwnPort(t, a) == OwnPort(t, b) <==> SameCluster(t, a, b)
  {
    hide AssignmentsOwned;
  }

  /** Of the ports in range, the truncation of `p` to 16 bits is that of `p` alone exactly when `p` is
      in range itself. */
  lemma TruncationExact(p: int)
    ensures (forall q :: 0 <= q <= 65535 && Truncated(q) == Truncated(p) ==> q == p) <==> 0 <= p <= 65535
  {
    if !(0 <= p <= 65535) {
      assert Truncated(Truncated(p)) == Truncated(p);
    }
  }

  /** Two different servers that are not members of one cluster get the same port at the proxy. */
  predicate Collide(t: Tables, a: string, b: string)
  {
    && a in t.servers && b in t.servers && a != b && !SameCluster(t, a, b)
    && ProxyPort(t, a).Some? && ProxyPort(t, a) == ProxyPort(t, b)
  }

  /** The same holds of the 16-bit ports the proxy gets, for ports up to 65535. */
  lemma ProxyPortsFollowClusters(t: Tables, a: string, b: string)
    requires Consistent(t) && a in t.servers && b in t.servers && a != b
    ensures 0 <= OwnPort(t, a).value <= 65535 && 0 <= OwnPort(t, b).value <= 65535 ==>
              (ProxyPort(t, a) == ProxyPort(t, b) <==> SameCluster(t, a, b))
  {
    PortsFollowClusters(t, a, b);
  }

  const NO_OVERRIDES := Overrides(None, None, map[])

  function Plain(port: Option<int>, cluster: Option<string>): ServerRow
  {
    ServerRow(0, port, cluster, None, None, None, "")
  }

  predicate InRange(port: Option<int>) { port.Some? && 0 <= port.value <= 65535 }

  /** A standalone server on a port out of range can never be kept apart: it collides with a server
      there is, or with one on a port in range that a single create request adds, under any new name,
      while an address is free. */
  lemma OutOfRangeCollides(t: Tables, a: string, p: int, name: string)
    requires Consistent(t) && a in t.servers && t.servers[a].port == Some(p) && !(0 <= p <= 65535)
    requires name != "" && name !in t.servers && exists k :: IP_MIN <= k <= IP_MAX && !IpTaken(t, k, {})
    ensures (exists b :: Collide(t, a, b))
            || exists row :: var u := Handle(t, CreateServerReq(name, row, NO_OVERRIDES));
                 u.Some? && InRange(OwnPort(u.value, name)) && Collide(u.value, a, name)
  {
    hide Consistent, IpTaken, Handle;
    var q := Truncated(p);
    if b :| b in t.servers && t.servers[b].port == Some(q) {
      TakenByServer(t, a, b, q);
      assert Collide(t, a, b);
    } else if c :| c in t.clusters && t.clusters[c].port == q {
      CreateCollides(t, a, p, name, Plain(None, Some(c)));
    } else {
      CreateCollides(t, a, p, name, Plain(Some(q), None));
    }
  }

  lemma TakenByServer(t: Tables, a: string, b: string, q: int)
    requires Consistent(t) && a in t.servers && t.servers[a].port.Some? && b in t.servers
    requires t.servers[b].port == Some(q) && Truncated(t.servers[a].port.value) == q != t.servers[a].port.value
    ensures Collide(t, a, b)
  {
    hide AssignmentsOwned;
  }

  lemma CreateCollides(t: Tables, a: string, p: int, name: string, row: ServerRow)
    requires Consistent(t) && a in t.servers && t.servers[a].port == Some(p) && !(0 <= p <= 65535)
    requires name != "" && name !in t.servers && exists k :: IP_MIN <= k <= IP_MAX && !IpTaken(t, k, {})
    requires (row == Plain(Some(Truncated(p)), None)
             && (forall s :: s in t.servers ==> t.servers[s].port != row.port)
             && (forall c :: c in t.clusters ==> t.clusters[c].port != row.port.value))
             || (row == Plain(None, row.cluster) && row.cluster.Some? && row.cluster.value in t.clusters
                 && t.clusters[row.cluster.value].port == Truncated(p))
    ensures var u := Handle(t, CreateServerReq(name, row, NO_OVERRIDES));
            u.Some? && InRange(OwnPort(u.value, name)) && Collide(u.value, a, name)
  {
    hide Handle, IpTaken, Consistent, FirstFree, NoRepeats;
    CreateSucceedsExactly(t, name, row, NO_OVERRIDES);
    CreatedRow(t, name, row, NO_OVERRIDES);
    StandalonePlaced(t, a);
    var u := Handle(t, CreateServerReq(name, row, NO_OVERRIDES)).value;
    assert u.servers[a] == t.servers[a] && name in u.servers;
    assert OwnPort(u, a) == Some(p) && OwnPort(u, name) == Some(Truncated(p));
  }

  lemma StandalonePlaced(t: Tables, a: string)
    requires Consistent(t) && a in t.servers
    ensures t.servers[a].port.None? != t.servers[a].cluster.None?
  {
  }

  /** The row a create writes. */
  lemma CreatedRow(t: Tables, name: string, row: ServerRow, o: Overrides)
    requires Handle(t, CreateServerReq(name, row, o)).Some?
    ensures var u := Handle(t, CreateServerReq(name, row, o)).value;
            && name !in t.servers && u.clusters == t.clusters
            && FirstFree(t, IP_MIN).Some?
            && u.servers == t.servers[name := row.(ip := FirstFree(t, IP_MIN).value,
                                                   desired := if row.desired == "" then "running" else row.desired)]
  {
    hide InsertServer, AddOverrides, FirstFree, SetEnvs, Replaced, Assignable;
    var full := row.(ip := FirstFree(t, IP_MIN).value, desired := if row.desired == "" then "running" else row.desired);
    InsertNeedsNewName(t, name);
    InsertAddsRow(t, name, full);
    OverridesReplace(InsertServer(t, name, full).value, ScopeId(Server, name), o);
  }

  /** Two create requests, on ports 65536 apart, are enough for a collision from empty tables. */
  lemma LargePortsCollide()
    ensures exists qs: seq<Request> :: |qs| == 2 && Collide(Served(MIGRATED, qs), "a", "b")
  {
    var qa := CreateServerReq("a", Plain(Some(27015 + 0x1_0000), None), NO_OVERRIDES);
    var qb := CreateServerReq("b", Plain(Some(27015), None), NO_OVERRIDES);
    hide Handle, Consistent, Collide;
    FirstCreated(qa);
    var t := Served(MIGRATED, [qa]);
    SecondCreated(t, qb);
    var qs := [qa, qb];
    assert qs[..1] == [qa];
    assert Served(MIGRATED, qs) == Handle(t, qb).value;
  }

  lemma FirstCreated(q: Request)
    requires q == CreateServerReq("a", Plain(Some(27015 + 0x1_0000), None), NO_OVERRIDES)
    ensures var t := Served(MIGRATED, [q]);
            Consistent(t) && t.servers.Keys == {"a"} && t.clusters == map[]
            && t.servers["a"].port == Some(27015 + 0x1_0000) && t.servers["a"].ip == IP_MIN && t.servers["a"].cluster.None?
  {
    assert !IpTaken(MIGRATED, IP_MIN, {});
    CreateSucceedsExactly(MIGRATED, q.name, q.row, q.o);
    CreatedRow(MIGRATED, q.name, q.row, q.o);
    FirstFreeIsLowest(MIGRATED, IP_MIN);
    hide Handle, IpTaken;
    assert [q][..0] == [];
    ConsistentFromStart([q]);
  }

  lemma SecondCreated(t: Tables, q: Request)
    requires Consistent(t) && t.servers.Keys == {"a"} && t.clusters == map[]
    requires t.servers["a"].port == Some(27015 + 0x1_0000) && t.servers["a"].ip == IP_MIN && t.servers["a"].cluster.None?
    requires q == CreateServerReq("b", Plain(Some(27015), None), NO_OVERRIDES)
    ensures Handle(t, q).Some? && Collide(Handle(t, q).value, "a", "b")
  {
    assert !IpTaken(t, IP_MIN + 1, {});
    CreateSucceedsExactly(t, q.name, q.row, q.o);
    CreatedRow(t, q.name, q.row, q.o);
  }

  // ---- When a create succeeds, and what it leaves ----

  /** The insert's constraints, for a new name and a free address. */
  lemma InsertAllowedExactly(t: Tables, name: string, row: ServerRow)
    requires name !in t.servers && !IpTaken(t, row.ip, {})
    ensures InsertServer(t, name, row).Some? <==>
      && row.port.None? != row.cluster.None?
      && (row.port.Some? ==> (forall s :: s in t.servers ==> t.servers[s].port != row.port)
                             && (forall c :: c in t.clusters ==> t.clusters[c].port != row.port.value))
      && (row.cluster.Some? ==> row.cluster.value in t.clusters)
      && (row.desired == "running" || row.desired == "stopped")
  {
    assert !IpTaken(t, row.ip, {name});
  }

  /** A server can be created exactly when its name is new and not empty, it is either standalone on
      a port nobody has or a member of an existing cluster, an address is free, and its plugins and
      configs exist and are listed once. */
  lemma CreateSucceedsExactly(t: Tables, name: string, row: ServerRow, o: Overrides)
    ensures Handle(t, CreateServerReq(name, row, o)).Some? <==>
      && name != "" && name !in t.servers
      && row.port.None? != row.cluster.None?
      && (row.port.Some? ==> (forall s :: s in t.servers ==> t.servers[s].port != row.port)
                             && (forall c :: c in t.clusters ==> t.clusters[c].port != row.port.value))
      && (row.cluster.Some? ==> row.cluster.value in t.clusters)
      && (row.desired == "" || row.desired == "running" || row.desired == "stopped")
      && (exists k :: 10 <= k <= 254 && !IpTaken(t, k, {}))
      && Assignable(t.plugins, o.plugins) && Assignable(t.configs, o.configs)
  {
    hide InsertServer, AddOverrides, FirstFree, Assignable, IpTaken, Replaced, SetEnvs;
    FirstFreeIsLowest(t, IP_MIN);
    if FirstFree(t, IP_MIN).Some? && name !in t.servers {
      var full := row.(ip := FirstFree(t, IP_MIN).value, desired := if row.desired == "" then "running" else row.desired);
      InsertAllowedExactly(t, name, full);
      var r := InsertServer(t, name, full);
      if r.Some? {
        InsertAddsRow(t, name, full);
        OverridesReplace(r.value, ScopeId(Server, name), o);
      }
    } else {
      InsertNeedsNewName(t, name);
    }
  }

  lemma InsertAddsRow(t: Tables, name: string, row: ServerRow)
    requires InsertServer(t, name, row).Some?
    ensures InsertServer(t, name, row).value == t.(servers := t.servers[name := row])
  {
  }

  lemma InsertNeedsNewName(t: Tables, name: string)
    ensures name in t.servers ==> forall row :: InsertServer(t, name, row).None?
  {
  }

  /** What `at` holds of one kind of assignment: exactly these items, if any were given. */
  ghost predicate HoldsExactly(a: Assignments, at: ScopeId, items: Option<seq<string>>)
  {
    && (at in a.marks <==> items.Some?)
    && Items(a, at) == if items.Some? then set x | x in items.value else {}
  }

  lemma ReplacedHolds(t: Tables, a: Assignments, b: Assignments, at: ScopeId, items: Option<seq<string>>)
    requires AssignmentsOwned(t, a) && !Owned(t, at) && Replaced(a, b, at, items)
    ensures HoldsExactly(b, at, items)
    ensures SameOthers(a, b, at) && b.known == a.known
  {
    if items.Some? {
      assert forall x :: x in items.value ==> Assigned(x, at) in b.rows;
    }
    forall other | other != at
      ensures Items(b, other) == Items(a, other)
    {
      assert forall r: Assigned :: r.at == other ==> (r in b.rows <==> r in a.rows);
    }
  }

  /** The environment rows of one scope. */
  function EnvOf(env: EnvTable, at: ScopeId): map<string, string>
  {
    map k | k in (set id | id in env && ScopeId(id.scope, id.scopeName) == at :: id.key) :: env[EnvKey(k, at.scope, at.name)]
  }

  lemma SetEnvsHold(env: EnvTable, at: ScopeId, vars: map<string, string>)
    requires forall id :: id in env ==> ScopeId(id.scope, id.scopeName) != at
    ensures EnvOf(SetEnvs(env, at, vars), at) == vars
  {
    var e := SetEnvs(env, at, vars);
    forall k
      ensures k in EnvOf(e, at) <==> k in vars
      ensures k in vars ==> EnvOf(e, at)[k] == vars[k]
    {
      var id := EnvKey(k, at.scope, at.name);
      if k in vars { assert id in e && id.key == k; }
      if k in EnvOf(e, at) { assert id in e; }
    }
  }

  /** Setting one scope's variables leaves those of every other scope. */
  lemma SetEnvsOthers(env: EnvTable, at: ScopeId, vars: map<string, string>)
    ensures forall other :: other != at ==> EnvOf(SetEnvs(env, at, vars), other) == EnvOf(env, other)
  {
    var e := SetEnvs(env, at, vars);
    forall other | other != at
      ensures EnvOf(e, other) == EnvOf(env, other)
    {
      assert forall id: EnvKey :: ScopeId(id.scope, id.scopeName) == other ==> (id in e <==> id in env) && (id in e ==> e[id] == env[id]);
    }
  }

  /** Two states of an assignment table agree on every scope but one. */
  ghost predicate SameOthers(a: Assignments, b: Assignments, at: ScopeId)
  {
    forall other :: other != at ==> Items(b, other) == Items(a, other) && (other in b.marks <==> other in a.marks)
  }

  lemma EnvUnowned(t: Tables, at: ScopeId)
    requires Consistent(t) && !Owned(t, at)
    ensures forall id :: id in t.env ==> ScopeId(id.scope, id.scopeName) != at
  {
  }

  /** Nothing of an earlier server of the same name shows through: a newly created server's scope
      holds exactly what its request gave, it has the lowest free address, and other servers and
      other scopes are as they were. */
  lemma CreatedFromScratch(t: Tables, name: string, row: ServerRow, o: Overrides)
    requires Consistent(t) && Handle(t, CreateServerReq(name, row, o)).Some?
    ensures var u := Handle(t, CreateServerReq(name, row, o)).value; var at := ScopeId(Server, name);
      && EnvOf(u.env, at) == o.env
      && HoldsExactly(u.plugins, at, o.plugins) && HoldsExactly(u.configs, at, o.configs)
      && name in u.servers && FirstFree(t, IP_MIN) == Some(u.servers[name].ip)
      && u.servers[name] == row.(ip := u.servers[name].ip, desired := if row.desired == "" then "running" else row.desired)
      && u.servers - {name} == t.servers && u.clusters == t.clusters
      && SameOthers(t.plugins, u.plugins, at) && SameOthers(t.configs, u.configs, at)
      && u.plugins.known == t.plugins.known && u.configs.known == t.configs.known
      && forall other :: other != at ==> EnvOf(u.env, other) == EnvOf(t.env, other)
  {
    hide InsertServer, AddOverrides, FirstFree, SetEnvs, Replaced, AssignmentsOwned, Items, HoldsExactly;
    hide PortsUnshared, ServersPlaced, SameOthers, EnvOf;
    var at := ScopeId(Server, name);
    var full := row.(ip := FirstFree(t, IP_MIN).value, desired := if row.desired == "" then "running" else row.desired);
    InsertNeedsNewName(t, name);
    InsertAddsRow(t, name, full);
    var r := InsertServer(t, name, full).value;
    OverridesReplace(r, at, o);
    var u := AddOverrides(r, at, o).value;
    ReplacedHolds(t, t.plugins, u.plugins, at, o.plugins);
    ReplacedHolds(t, t.configs, u.configs, at, o.configs);
    EnvUnowned(t, at);
    SetEnvsHold(t.env, at, o.env);
    SetEnvsOthers(t.env, at, o.env);
    assert u.servers - {name} == t.servers;
  }

  lemma DropKeepsOthers(a: Assignments, at: ScopeId)
    ensures var b := ClearMark(ClearRows(a, at), at);
            SameOthers(a, b, at)
  {
    var b := ClearMark(ClearRows(a, at), at);
    forall other | other != at
      ensures Items(b, other) == Items(a, other)
    {
      assert forall r: Assigned :: r.at == other ==> (r in b.rows <==> r in a.rows);
    }
  }

  /** Deleting a server and creating one of the same name without overrides: it inherits, whatever
      the old one had. */
  lemma RecreatedInherits(t: Tables, name: string, row: ServerRow, o: Overrides, cluster: string)
    requires Consistent(t) && o.plugins.None?
    requires Handle(DeleteServer(t, name), CreateServerReq(name, row, o)).Some?
    ensures var u := Handle(DeleteServer(t, name), CreateServerReq(name, row, o)).value;
            EffectivePlugins(u.plugins, name, cluster) ==
              if cluster != "" && ScopeId(Cluster, cluster) in t.plugins.marks then Items(t.plugins, ScopeId(Cluster, cluster))
              else if ScopeId(Global, "") in t.plugins.marks then Items(t.plugins, ScopeId(Global, "")) else {}
  {
    hide Handle, Items, Consistent;
    var d := DeleteServer(t, name);
    DeleteServerKeeps(t, name);
    CreatedFromScratch(d, name, row, o);
    DropKeepsOthers(t.plugins, ScopeId(Server, name));
  }

  // ---- Ambiguous variables ----

  /** Two requests for one global key, under two scope names, make the environment of every server
      depend on the order in which the database returns rows. */
  lemma AmbiguityReachable()
    ensures exists qs: seq<Request> :: |qs| == 2 && forall server, cluster :: !Unambiguous(Served(MIGRATED, qs).env, server, cluster)
  {
    var q1, q2 := SetGlobalEnv("k", "1", ""), SetGlobalEnv("k", "2", "x");
    var qs := [q1, q2];
    assert qs[..1] == [q1] && [q1][..0] == [];
    var a, b := EnvKey("k", Global, ""), EnvKey("k", Global, "x");
    var env := Served(MIGRATED, qs).env;
    assert Served(MIGRATED, [q1]).env == map[a := "1"];
    assert env == map[a := "1", b := "2"];
    forall server, cluster
      ensures !Unambiguous(env, server, cluster)
    {
      assert Overlay.Effective(env, server, cluster, a) && Overlay.Effective(env, server, cluster, b);
    }
  }
}
