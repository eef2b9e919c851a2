/** `orchestration/database/crud.go` and `plugins.go`: the transactions as methods that change the
    tables statement by statement and roll back when one fails, and the address scan of
    `orchestration/api/servers.go`. */
module Store {
  import opened Wrappers
  import opened Overlay
  import opened TableState

  /** The body of setPluginsTx and setConfigsTx: mark the scope, clear its rows, insert the new ones. */
  method SetItemsTx(a: Assignments, at: ScopeId, items: seq<string>) returns (r: Option<Assignments>)
    ensures r == SetItems(a, at, items)
  {
    var cleared := ClearRows(a.(marks := a.marks + {at}), at);
    var b := cleared;
    var i := 0;
    assert items[..0] == [];
    while i < |items|
      invariant i <= |items| && InsertRows(cleared, at, items[..i]) == Some(b) && b.known == cleared.known
    {
      assert items[..i + 1][..i] == items[..i];
      if items[i] !in b.known || Assigned(items[i], at) in b.rows {
        InsertRowsAbort(cleared, at, items, i + 1);
        return None;
      }
      b := b.(rows := b.rows + {Assigned(items[i], at)});
      i := i + 1;
    }
    assert items[..i] == items;
    return Some(b);
  }

  lemma {:induction false} InsertRowsAbort(a: Assignments, at: ScopeId, items: seq<string>, i: nat)
    requires i <= |items| && InsertRows(a, at, items[..i]).None?
    ensures InsertRows(a, at, items).None?
    decreases |items| - i
  {
    if i < |items| {
      assert items[..i + 1][..i] == items[..i];
      InsertRowsAbort(a, at, items, i + 1);
    } else {
      assert items[..i] == items;
    }
  }

  class Store {
    var servers: map<string, ServerRow>
    var clusters: map<string, ClusterRow>
    var env: EnvTable
    var plugins: Assignments
    var configs: Assignments

    ghost function State(): Tables
      reads this
    {
      Tables(servers, clusters, env, plugins, configs)
    }

    constructor ()
      ensures State() == MIGRATED
    {
      servers, clusters, env := map[], map[], map[];
      plugins, configs := Assignments({}, {}, {}), Assignments({}, {}, {});
    }

    method Restore(t: Tables)
      modifies this
      ensures State() == t
    {
      servers, clusters, env, plugins, configs := t.servers, t.clusters, t.env, t.plugins, t.configs;
    }

    /** The upsert loop over the request's variables, in whatever order the map yields them. */
    method SetEnvsTx(at: ScopeId, vars: map<string, string>)
      modifies this`env
      ensures env == SetEnvs(old(env), at, vars)
    {
      hide SetEnvs;
      ghost var was := env;
      var todo := vars.Keys;
      SetNone(was, at, map k | k in vars && k !in todo :: vars[k]);
      while todo != {}
        invariant todo <= vars.Keys
        invariant env == SetEnvs(was, at, map k | k in vars && k !in todo :: vars[k])
        decreases |todo|
      {
        var k :| k in todo;
        var id := EnvKey(k, at.scope, at.name);
        SetOneMore(was, at, vars, todo, k);
        env := env[id := vars[k]];
        todo := todo - {k};
      }
      assert (map k | k in vars && k !in todo :: vars[k]) == vars;
    }

    /** The part of a create that follows the row's insert. False means a statement failed. */
    method AddOverridesTx(at: ScopeId, o: Overrides) returns (ok: bool)
      modifies this`plugins, this`configs, this`env
      ensures ok <==> AddOverrides(old(State()), at, o).Some?
      ensures ok ==> Some(State()) == AddOverrides(old(State()), at, o)
    {
      hide SetItems, SetEnvs;
      if o.plugins.Some? {
        var p := SetItemsTx(plugins, at, o.plugins.value);
        if p.None? {
          return false;
        }
        plugins := p.value;
      }
      if o.configs.Some? {
        var c := SetItemsTx(configs, at, o.configs.value);
        if c.None? {
          return false;
        }
        configs := c.value;
      }
      SetEnvsTx(at, o.env);
      return true;
    }

    method CreateServer(name: string, row: ServerRow, o: Overrides) returns (ok: bool)
      modifies this
      ensures ok <==> TableState.CreateServer(old(State()), name, row, o).Some?
      ensures State() == if ok then TableState.CreateServer(old(State()), name, row, o).value else old(State())
    {
      hide ServerRowAllowed, AddOverrides;
      var t := Tables(servers, clusters, env, plugins, configs);
      if name in servers || !ServerRowAllowed(t, name, row) {
        return false;
      }
      servers := servers[name := row];
      ok := AddOverridesTx(ScopeId(Server, name), o);
      if !ok {
        Restore(t);
      }
    }

    method CreateCluster(name: string, row: ClusterRow, o: Overrides) returns (ok: bool)
      modifies this
      ensures ok <==> TableState.CreateCluster(old(State()), name, row, o).Some?
      ensures State() == if ok then TableState.CreateCluster(old(State()), name, row, o).value else old(State())
    {
      hide ClusterRowAllowed, AddOverrides;
      var t := Tables(servers, clusters, env, plugins, configs);
      if name in clusters || !ClusterRowAllowed(t, name, row) {
        return false;
      }
      clusters := clusters[name := row];
      ok := AddOverridesTx(ScopeId(Cluster, name), o);
      if !ok {
        Restore(t);
      }
    }

    /** One UPDATE statement: the constraints are checked only if there is a row to update. */
    method UpdateServer(name: string, row: ServerRow) returns (ok: bool)
      modifies this`servers
      ensures ok <==> TableState.UpdateServer(old(State()), name, row).Some?
      ensures State() == if ok then TableState.UpdateServer(old(State()), name, row).value else old(State())
    {
      hide ServerRowAllowed;
      if name !in servers {
        return true;
      }
      if !ServerRowAllowed(Tables(servers, clusters, env, plugins, configs), name, row) {
        return false;
      }
      servers := servers[name := row];
      return true;
    }

    method UpdateCluster(name: string, row: ClusterRow) returns (ok: bool)
      modifies this`clusters
      ensures ok <==> TableState.UpdateCluster(old(State()), name, row).Some?
      ensures State() == if ok then TableState.UpdateCluster(old(State()), name, row).value else old(State())
    {
      hide ClusterRowAllowed;
      if name !in clusters {
        return true;
      }
      if !ClusterRowAllowed(Tables(servers, clusters, env, plugins, configs), name, row) {
        return false;
      }
      clusters := clusters[name := row];
      return true;
    }

    method DeleteEnvTx(at: ScopeId)
      modifies this`env
      ensures env == ClearEnv(old(env), at)
    {
      env := ClearEnv(env, at);
    }

    /** One delete statement per table. */
    method DeleteScopedServer(name: string)
      modifies this
      ensures State() == DeleteServer(old(State()), name)
    {
      var at := ScopeId(Server, name);
      servers := servers - {name};
      DeleteEnvTx(at);
      plugins := ClearRows(plugins, at);
      plugins := ClearMark(plugins, at);
      configs := ClearRows(configs, at);
      configs := ClearMark(configs, at);
    }

    method DeleteScopedCluster(name: string) returns (ok: bool)
      modifies this
      ensures ok <==> DeleteCluster(old(State()), name).Some?
      ensures State() == if ok then DeleteCluster(old(State()), name).value else old(State())
    {
      if exists s :: s in servers && servers[s].cluster == Some(name) {
        return false;
      }
      var at := ScopeId(Cluster, name);
      clusters := clusters - {name};
      DeleteEnvTx(at);
      plugins := ClearRows(plugins, at);
      plugins := ClearMark(plugins, at);
      configs := ClearRows(configs, at);
      configs := ClearMark(configs, at);
      return true;
    }

    /** Collects the used addresses, then scans for the lowest one not among them. */
    method AllocateIP() returns (ip: Option<nat>)
      ensures ip == FirstFree(State(), IP_MIN)
    {
      var used: set<nat> := {};
      var todo := servers.Keys;
      while todo != {}
        invariant todo <= servers.Keys
        invariant forall k :: k in used <==> exists s :: s in servers && s !in todo && servers[s].ip == k
        decreases |todo|
      {
        var s :| s in todo;
        used := used + {servers[s].ip};
        todo := todo - {s};
      }
      assert forall k :: k in used <==> IpTaken(State(), k, {});
      var i := IP_MIN;
      while i <= IP_MAX
        invariant IP_MIN <= i <= IP_MAX + 1
        invariant FirstFree(State(), IP_MIN) == FirstFree(State(), i)
      {
        if i !in used {
          return Some(i);
        }
        i := i + 1;
      }
      return None;
    }
  }

  lemma SetEnvsMembers(env: EnvTable, at: ScopeId, vars: map<string, string>, id: EnvKey)
    ensures var e := SetEnvs(env, at, vars);
            var given := id.scope == at.scope && id.scopeName == at.name && id.key in vars;
            && (id in e <==> id in env || given)
            && (given ==> e[id] == vars[id.key])
            && (id in env && !given ==> e[id] == env[id])
  {
    if id.key in vars {
      assert EnvKey(id.key, at.scope, at.name) in (set k | k in vars :: EnvKey(k, at.scope, at.name));
    }
  }

  lemma SetNone(env: EnvTable, at: ScopeId, vars: map<string, string>)
    requires vars == map[]
    ensures SetEnvs(env, at, vars) == env
  {
  }

  lemma SetOneMore(was: EnvTable, at: ScopeId, vars: map<string, string>, todo: set<string>, k: string)
    requires todo <= vars.Keys && k in todo
    ensures var done := map x | x in vars && x !in todo :: vars[x];
            var done' := map x | x in vars && x !in todo - {k} :: vars[x];
            SetEnvs(was, at, done)[EnvKey(k, at.scope, at.name) := vars[k]] == SetEnvs(was, at, done')
  {
    hide SetEnvs;
    var done := map x | x in vars && x !in todo :: vars[x];
    var done' := map x | x in vars && x !in todo - {k} :: vars[x];
    var e, e' := SetEnvs(was, at, done)[EnvKey(k, at.scope, at.name) := vars[k]], SetEnvs(was, at, done');
    forall id
      ensures (id in e <==> id in e') && (id in e ==> e[id] == e'[id])
    {
      SetEnvsMembers(was, at, done, id);
      SetEnvsMembers(was, at, done', id);
    }
  }
}
