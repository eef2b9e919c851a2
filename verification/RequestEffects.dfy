/** What each API request does to the tables: when it succeeds, in terms the caller can look up first,
    what is there afterwards, and that nothing else has changed. */
module RequestEffects {
  import opened Wrappers
  import opened Overlay
  import opened TableState
  import opened StoreTheorems

  /** No server or cluster but the excepted one has this port. */
  ghost predicate PortFree(t: Tables, port: int, server: set<string>, cluster: set<string>)
  {
    && (forall s :: s in t.servers && s !in server ==> t.servers[s].port != Some(port))
    && (forall c :: c in t.clusters && c !in cluster ==> t.clusters[c].port != port)
  }

  // ---- Updates of servers ----

  /** An update succeeds exactly when the server exists, a port is given only to a standalone server and
      belongs to nobody else, and the desired state is valid or left out. */
  lemma UpdateServerExactly(t: Tables, name: string, newPort: Option<int>, row: ServerRow)
    requires Consistent(t)
    ensures Handle(t, UpdateServerReq(name, newPort, row)).Some? <==>
      && name in t.servers
      && (newPort.Some? ==> t.servers[name].cluster.None? && PortFree(t, newPort.value, {name}, {}))
      && (row.desired == "" || row.desired == "running" || row.desired == "stopped")
  {
    hide AssignmentsOwned;
    if name in t.servers && newPort.None? && t.servers[name].port.Some? {
      OwnPortFree(t, name);
    }
  }

  lemma OwnPortFree(t: Tables, name: string)
    requires Consistent(t) && name in t.servers && t.servers[name].port.Some?
    ensures PortFree(t, t.servers[name].port.value, {name}, {})
  {
    hide AssignmentsOwned;
  }

  /** Afterwards the server has the port given or else its old one, the settings given, the desired state
      given or else its old one, and its old address and cluster; nothing else has changed. */
  lemma UpdateServerWrites(t: Tables, name: string, newPort: Option<int>, row: ServerRow)
    requires Handle(t, UpdateServerReq(name, newPort, row)).Some?
    ensures var u := Handle(t, UpdateServerReq(name, newPort, row)).value;
      && name in t.servers && name in u.servers && u == t.(servers := u.servers) && u.servers - {name} == t.servers - {name}
      && var was, now := t.servers[name], u.servers[name];
      && now.ip == was.ip && now.cluster == was.cluster
      && now.port == (if newPort.Some? then newPort else was.port)
      && now.accepting == row.accepting && now.restartHrs == row.restartHrs && now.stopHrs == row.stopHrs
      && now.desired == (if row.desired == "" then was.desired else row.desired)
      && (newPort.Some? ==> OwnPort(u, name) == newPort)
  {
    hide ServerRowAllowed;
    assert t.servers[name := Overlaid(t.servers[name], newPort, row).value] - {name} == t.servers - {name};
  }

  /** Starting and stopping write the desired state of that server, if there is one, and nothing else. */
  lemma SetDesiredWrites(t: Tables, name: string, running: bool)
    ensures var u := Handle(t, SetDesired(name, running));
      && u.Some? && u.value == t.(servers := u.value.servers) && u.value.servers.Keys == t.servers.Keys
      && (forall s :: s in t.servers ==>
            u.value.servers[s] == if s != name then t.servers[s]
              else t.servers[s].(desired := if running then "running" else "stopped"))
  {
  }

  // ---- Deletes ----

  /** Nothing is left of a scope. */
  ghost predicate ScopeGone(u: Tables, at: ScopeId)
  {
    && EnvOf(u.env, at) == map[]
    && Items(u.plugins, at) == {} && at !in u.plugins.marks
    && Items(u.configs, at) == {} && at !in u.configs.marks
  }

  /** Every other scope is as it was, and so are the catalogues. */
  ghost predicate OtherScopesAsWere(t: Tables, u: Tables, at: ScopeId)
  {
    && SameOthers(t.plugins, u.plugins, at) && SameOthers(t.configs, u.configs, at)
    && u.plugins.known == t.plugins.known && u.configs.known == t.configs.known
    && forall other :: other != at ==> EnvOf(u.env, other) == EnvOf(t.env, other)
  }

  lemma DropScopeDrops(t: Tables, at: ScopeId)
    ensures ScopeGone(DropScope(t, at), at) && OtherScopesAsWere(t, DropScope(t, at), at)
  {
    var u := DropScope(t, at);
    DropKeepsOthers(t.plugins, at);
    DropKeepsOthers(t.configs, at);
    ClearEnvClears(t.env, at);
    hide EnvOf, SameOthers, ClearEnv;
    assert Items(u.plugins, at) == {} && Items(u.configs, at) == {};
  }

  lemma ClearEnvClears(env: EnvTable, at: ScopeId)
    ensures EnvOf(ClearEnv(env, at), at) == map[]
    ensures forall other :: other != at ==> EnvOf(ClearEnv(env, at), other) == EnvOf(env, other)
  {
    var e := ClearEnv(env, at);
    forall other | other != at
      ensures EnvOf(e, other) == EnvOf(env, other)
    {
      assert forall id: EnvKey :: ScopeId(id.scope, id.scopeName) == other ==> (id in e <==> id in env) && (id in e ==> e[id] == env[id]);
    }
  }

  /** Deleting a server always succeeds; the server and all that is scoped to it are gone, and nothing
      else is. */
  lemma DeleteServerForgets(t: Tables, name: string)
    ensures var u := Handle(t, DeleteServerReq(name));
      && u.Some? && u.value.servers == t.servers - {name} && u.value.clusters == t.clusters
      && ScopeGone(u.value, ScopeId(Server, name)) && OtherScopesAsWere(t, u.value, ScopeId(Server, name))
  {
    DropScopeDrops(t.(servers := t.servers - {name}), ScopeId(Server, name));
    hide ScopeGone, SameOthers, EnvOf, ClearEnv, ClearRows, ClearMark;
  }

  /** Deleting a cluster succeeds exactly when it has no members; then it and all that is scoped to it are
      gone, and nothing else is. */
  lemma DeleteClusterForgets(t: Tables, name: string)
    ensures var u := Handle(t, DeleteClusterReq(name));
      && (u.Some? <==> forall s :: s in t.servers ==> t.servers[s].cluster != Some(name))
      && (u.Some? ==>
            && u.value.clusters == t.clusters - {name} && u.value.servers == t.servers
            && ScopeGone(u.value, ScopeId(Cluster, name)) && OtherScopesAsWere(t, u.value, ScopeId(Cluster, name)))
  {
    DropScopeDrops(t.(clusters := t.clusters - {name}), ScopeId(Cluster, name));
    hide ScopeGone, SameOthers, EnvOf, ClearEnv, ClearRows, ClearMark;
  }

  // ---- Clusters ----

  /** A cluster can be created exactly when its name is new and not empty, its port is not 0 and is
      nobody's, and its plugins and configs exist and are listed once. */
  lemma CreateClusterExactly(t: Tables, name: string, body: ClusterBody, o: Overrides)
    ensures Handle(t, CreateClusterReq(name, body, o)).Some? <==>
      && name != "" && name !in t.clusters && body.port != 0 && PortFree(t, body.port, {}, {})
      && Assignable(t.plugins, o.plugins) && Assignable(t.configs, o.configs)
  {
    hide AddOverrides, Assignable, Replaced, SetEnvs;
    var r := InsertCluster(t, name, NewCluster(body));
    if r.Some? {
      OverridesReplace(r.value, ScopeId(Cluster, name), o);
    }
  }

  /** The new cluster has what its request gave, accepting connections and round robin where it gave
      nothing, its scope holds exactly the overrides given, and nothing else has changed. */
  lemma CreateClusterWrites(t: Tables, name: string, body: ClusterBody, o: Overrides)
    requires Consistent(t) && Handle(t, CreateClusterReq(name, body, o)).Some?
    ensures var u := Handle(t, CreateClusterReq(name, body, o)).value; var at := ScopeId(Cluster, name);
      && name in u.clusters && u.clusters - {name} == t.clusters && u.servers == t.servers
      && var c := u.clusters[name];
      && c.port == body.port && c.restartHrs == body.restartHrs && c.stopHrs == body.stopHrs
      && (c.accepting <==> body.accepting != Some(false))
      && c.lbPolicy == (if body.lbPolicy == "" then "round_robin" else body.lbPolicy)
      && EnvOf(u.env, at) == o.env
      && HoldsExactly(u.plugins, at, o.plugins) && HoldsExactly(u.configs, at, o.configs)
      && OtherScopesAsWere(t, u, at)
  {
    hide AddOverrides, SetEnvs, Replaced, AssignmentsOwned, Items, HoldsExactly, ClusterRowAllowed;
    hide PortsUnshared, ServersPlaced, SameOthers, EnvOf;
    var at := ScopeId(Cluster, name);
    var r := InsertCluster(t, name, NewCluster(body)).value;
    OverridesReplace(r, at, o);
    var u := AddOverrides(r, at, o).value;
    ReplacedHolds(t, t.plugins, u.plugins, at, o.plugins);
    ReplacedHolds(t, t.configs, u.configs, at, o.configs);
    EnvUnowned(t, at);
    SetEnvsHold(t.env, at, o.env);
    SetEnvsOthers(t.env, at, o.env);
    assert u.clusters - {name} == t.clusters;
  }

  /** A cluster update succeeds exactly when the cluster exists and the port is not 0 and nobody else's;
      afterwards the cluster has what was given, keeping its policy and whether it accepts connections
      where nothing was, every member is reached on the new port, and nothing else has changed. */
  lemma UpdateClusterExactly(t: Tables, name: string, body: ClusterBody)
    requires Consistent(t)
    ensures var u := Handle(t, UpdateClusterReq(name, body));
      && (u.Some? <==> name in t.clusters && body.port != 0 && PortFree(t, body.port, {}, {name}))
      && (u.Some? ==>
            && name in u.value.clusters && u.value == t.(clusters := u.value.clusters)
            && u.value.clusters - {name} == t.clusters - {name}
            && var was, now := t.clusters[name], u.value.clusters[name];
            && now.port == body.port && now.restartHrs == body.restartHrs && now.stopHrs == body.stopHrs
            && now.accepting == (if body.accepting.Some? then body.accepting.value else was.accepting)
            && now.lbPolicy == (if body.lbPolicy == "" then was.lbPolicy else body.lbPolicy)
            && forall s :: s in t.servers && t.servers[s].cluster == Some(name) ==> OwnPort(u.value, s) == Some(body.port))
  {
    hide AssignmentsOwned;
    if name in t.clusters {
      assert t.clusters[name := OverlaidCluster(t.clusters[name], body)] - {name} == t.clusters - {name};
    }
  }

  /** A new server is reached on the port given, or on its cluster's. */
  lemma CreatedIsReached(t: Tables, name: string, row: ServerRow, o: Overrides)
    requires Handle(t, CreateServerReq(name, row, o)).Some?
    ensures var u := Handle(t, CreateServerReq(name, row, o)).value;
      && (row.port.Some? ==> OwnPort(u, name) == row.port)
      && (row.cluster.Some? ==>
            && row.cluster.value in t.clusters
            && OwnPort(u, name) == Some(t.clusters[row.cluster.value].port))
  {
    hide AddOverrides, FirstFree, Assignable, IpTaken, Handle;
    CreateSucceedsExactly(t, name, row, o);
    CreatedRow(t, name, row, o);
  }

  // ---- Global variables, sets and catalogues ----

  /** Setting or deleting a global variable takes a key; it concerns that key under that scope name and
      nothing else. */
  lemma GlobalEnvWrites(t: Tables, key: string, value: string, scopeName: string, id: EnvKey)
    ensures var u := Handle(t, SetGlobalEnv(key, value, scopeName));
      && (u.Some? <==> key != "")
      && (u.Some? ==>
            && u.value == t.(env := u.value.env)
            && var it := EnvKey(key, Global, scopeName);
            && (id in u.value.env <==> id in t.env || id == it)
            && (id in u.value.env ==> u.value.env[id] == if id == it then value else t.env[id]))
    ensures var u := Handle(t, DeleteGlobalEnv(key, scopeName));
      && (u.Some? <==> key != "")
      && (u.Some? ==>
            && u.value == t.(env := u.value.env)
            && (id in u.value.env <==> id in t.env && id != EnvKey(key, Global, scopeName))
            && (id in u.value.env ==> u.value.env[id] == t.env[id]))
  {
  }

  /** Setting the global plugins succeeds exactly for known plugins listed once, and sets exactly those;
      the configs are not touched. And the other way round. */
  lemma GlobalSetsWrite(t: Tables, items: seq<string>)
    ensures var u := Handle(t, SetGlobalPlugins(items)); var at := ScopeId(Global, "");
      && (u.Some? <==> Assignable(t.plugins, Some(items)))
      && (u.Some? ==>
            && u.value == t.(plugins := u.value.plugins) && u.value.plugins.known == t.plugins.known
            && HoldsExactly(u.value.plugins, at, Some(items)) && SameOthers(t.plugins, u.value.plugins, at))
    ensures var u := Handle(t, SetGlobalConfigs(items)); var at := ScopeId(Global, "");
      && (u.Some? <==> Assignable(t.configs, Some(items)))
      && (u.Some? ==>
            && u.value == t.(configs := u.value.configs) && u.value.configs.known == t.configs.known
            && HoldsExactly(u.value.configs, at, Some(items)) && SameOthers(t.configs, u.value.configs, at))
  {
    hide HoldsExactly, SameOthers, SetItems;
    SetHolds(t.plugins, ScopeId(Global, ""), items);
    SetHolds(t.configs, ScopeId(Global, ""), items);
  }

  lemma SetHolds(a: Assignments, at: ScopeId, items: seq<string>)
    ensures var b := SetItems(a, at, items);
      && (b.Some? <==> Assignable(a, Some(items)))
      && (b.Some? ==> b.value.known == a.known && HoldsExactly(b.value, at, Some(items)) && SameOthers(a, b.value, at))
  {
    hide SetItems, NoRepeats;
    SetItemsReplaces(a, at, items);
    var r := SetItems(a, at, items);
    if r.Some? {
      var b := r.value;
      assert forall x :: x in items ==> Assigned(x, at) in b.rows;
      forall other | other != at
        ensures Items(b, other) == Items(a, other)
      {
        assert forall q: Assigned :: q.at == other ==> (q in b.rows <==> q in a.rows);
      }
    }
  }

  /** Putting an item makes it known; deleting one succeeds exactly when no scope assigns it, and makes it
      unknown. Plugins and configs do not mix, and nothing else changes. */
  lemma CatalogueWrites(t: Tables, item: string)
    ensures Handle(t, PutManifest(item)) == Some(t.(plugins := t.plugins.(known := t.plugins.known + {item})))
    ensures Handle(t, PutConfig(item)) == Some(t.(configs := t.configs.(known := t.configs.known + {item})))
    ensures var u := Handle(t, DeleteManifest(item));
      && (u.Some? <==> forall at :: item !in Items(t.plugins, at))
      && (u.Some? ==> u.value == t.(plugins := t.plugins.(known := t.plugins.known - {item})))
    ensures var u := Handle(t, DeleteConfig(item));
      && (u.Some? <==> forall at :: item !in Items(t.configs, at))
      && (u.Some? ==> u.value == t.(configs := t.configs.(known := t.configs.known - {item})))
  {
    AssignedSomewhere(t.plugins, item);
    AssignedSomewhere(t.configs, item);
    hide Items;
  }

  lemma AssignedSomewhere(a: Assignments, item: string)
    ensures (exists r :: r in a.rows && r.item == item) <==> exists at :: item in Items(a, at)
  {
    if r :| r in a.rows && r.item == item {
      assert item in Items(a, r.at);
    }
  }

  // ---- Which plugins run ----

  /** The scopes a server inherits from, most specific first. */
  function Chain(server: string, cluster: string): seq<ScopeId>
  {
    [ScopeId(Server, server)] + (if cluster == "" then [] else [ScopeId(Cluster, cluster)]) + [ScopeId(Global, "")]
  }

  /** The first of these scopes to override is the i-th. */
  ghost predicate FirstMarked(a: Assignments, chain: seq<ScopeId>, i: nat)
    requires i < |chain|
  {
    chain[i] in a.marks && forall j :: 0 <= j < i ==> chain[j] !in a.marks
  }

  /** The first scope of the chain that overrides decides, even with nothing; if none does, no plugin runs. */
  lemma MostSpecificDecides(a: Assignments, server: string, cluster: string)
    ensures forall i :: 0 <= i < |Chain(server, cluster)| && FirstMarked(a, Chain(server, cluster), i) ==>
              EffectivePlugins(a, server, cluster) == Items(a, Chain(server, cluster)[i])
    ensures (forall i :: 0 <= i < |Chain(server, cluster)| ==> Chain(server, cluster)[i] !in a.marks) ==>
              EffectivePlugins(a, server, cluster) == {}
  {
    hide Items;
    var chain := Chain(server, cluster);
    assert chain[0] == ScopeId(Server, server) && chain[|chain| - 1] == ScopeId(Global, "");
    assert cluster != "" ==> chain[1] == ScopeId(Cluster, cluster) && |chain| == 3;
  }

  /** A server created with a plugin set runs exactly that set, even if empty, in whatever cluster. */
  lemma CreatedRunsItsOwn(t: Tables, name: string, row: ServerRow, o: Overrides, cluster: string)
    requires Consistent(t) && Handle(t, CreateServerReq(name, row, o)).Some? && o.plugins.Some?
    ensures EffectivePlugins(Handle(t, CreateServerReq(name, row, o)).value.plugins, name, cluster)
            == set x | x in o.plugins.value
  {
    hide Handle, Items, Consistent;
    CreatedFromScratch(t, name, row, o);
  }
}
