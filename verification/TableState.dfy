/** The fleet's tables with the constraints of `orchestration/database/schema.go`, the transactions
    of `crud.go` and `plugins.go` on them, and the API requests that run those transactions. A
    failing statement rolls its transaction back, so a failed request changes nothing. */
module TableState {
  import opened Wrappers
  import opened Overlay

  datatype ServerRow = ServerRow(
    ip: nat, port: Option<int>, cluster: Option<string>,
    accepting: Option<bool>, restartHrs: Option<real>, stopHrs: Option<real>, desired: string)

  datatype ClusterRow = ClusterRow(
    port: int, accepting: bool, restartHrs: Option<real>, stopHrs: Option<real>, lbPolicy: string)

  datatype ScopeId = ScopeId(scope: Scope, name: string)
  datatype Assigned = Assigned(item: string, at: ScopeId)

  /** One catalog (manifests or config files) with its assignment and override tables. */
  datatype Assignments = Assignments(known: set<string>, marks: set<ScopeId>, rows: set<Assigned>)

  datatype Tables = Tables(
    servers: map<string, ServerRow>, clusters: map<string, ClusterRow>,
    env: EnvTable, plugins: Assignments, configs: Assignments)

  /** The tables after the first migration, which creates them empty. */
  const MIGRATED := Tables(map[], map[], map[], Assignments({}, {}, {}), Assignments({}, {}, {}))

  const IP_MIN: nat := 10
  const IP_MAX: nat := 254

  // ---- Statements; None is a violated constraint ----

  predicate ServerHasPort(t: Tables, port: int, except: set<string>)
  {
    exists s :: s in t.servers && s !in except && t.servers[s].port == Some(port)
  }

  predicate ClusterHasPort(t: Tables, port: int, except: set<string>)
  {
    exists c :: c in t.clusters && c !in except && t.clusters[c].port == port
  }

  predicate IpTaken(t: Tables, ip: nat, except: set<string>)
  {
    exists s :: s in t.servers && s !in except && t.servers[s].ip == ip
  }

  /** UNIQUE ip and port, the cross-table trigger, the CHECK, the foreign key and the ENUM. */
  predicate ServerRowAllowed(t: Tables, name: string, row: ServerRow)
  {
    && !IpTaken(t, row.ip, {name})
    && (row.port.Some? ==> !ServerHasPort(t, row.port.value, {name}) && !ClusterHasPort(t, row.port.value, {}))
    && row.port.None? != row.cluster.None?
    && (row.cluster.Some? ==> row.cluster.value in t.clusters)
    && (row.desired == "running" || row.desired == "stopped")
  }

  predicate ClusterRowAllowed(t: Tables, name: string, row: ClusterRow)
  {
    !ClusterHasPort(t, row.port, {name}) && !ServerHasPort(t, row.port, {})
  }

  function InsertServer(t: Tables, name: string, row: ServerRow): Option<Tables>
  {
    if name !in t.servers && ServerRowAllowed(t, name, row) then Some(t.(servers := t.servers[name := row])) else None
  }

  /** An update that matches no row changes nothing and succeeds. */
  function UpdateServer(t: Tables, name: string, row: ServerRow): Option<Tables>
  {
    if name !in t.servers then Some(t)
    else if ServerRowAllowed(t, name, row) then Some(t.(servers := t.servers[name := row])) else None
  }

  function InsertCluster(t: Tables, name: string, row: ClusterRow): Option<Tables>
  {
    if name !in t.clusters && ClusterRowAllowed(t, name, row)
    then Some(t.(clusters := t.clusters[name := row])) else None
  }

  function UpdateCluster(t: Tables, name: string, row: ClusterRow): Option<Tables>
  {
    if name !in t.clusters then Some(t)
    else if ClusterRowAllowed(t, name, row) then Some(t.(clusters := t.clusters[name := row])) else None
  }

  function ClearRows(a: Assignments, at: ScopeId): Assignments
  {
    a.(rows := set r | r in a.rows && r.at != at)
  }

  function ClearMark(a: Assignments, at: ScopeId): Assignments { a.(marks := a.marks - {at}) }

  /** The insert loop: a duplicate or an unknown item aborts. */
  function InsertRows(a: Assignments, at: ScopeId, items: seq<string>): Option<Assignments>
  {
    if items == [] then Some(a)
    else
      var last := items[|items| - 1];
      var before := InsertRows(a, at, items[..|items| - 1]);
      if before.Some? && last in a.known && Assigned(last, at) !in before.value.rows
      then Some(before.value.(rows := before.value.rows + {Assigned(last, at)})) else None
  }

  function SetItems(a: Assignments, at: ScopeId, items: seq<string>): Option<Assignments>
  {
    InsertRows(ClearRows(a.(marks := a.marks + {at}), at), at, items)
  }

  function SetIfGiven(a: Assignments, at: ScopeId, items: Option<seq<string>>): Option<Assignments>
  {
    if items.None? then Some(a) else SetItems(a, at, items.value)
  }

  function SetEnvs(env: EnvTable, at: ScopeId, vars: map<string, string>): EnvTable
  {
    env + (map id | id in (set k | k in vars :: EnvKey(k, at.scope, at.name)) :: vars[id.key])
  }

  function ClearEnv(env: EnvTable, at: ScopeId): EnvTable
  {
    map id | id in env && ScopeId(id.scope, id.scopeName) != at :: env[id]
  }

  // ---- Transactions ----

  /** The overrides of a new server or cluster, written with its row. */
  datatype Overrides = Overrides(plugins: Option<seq<string>>, configs: Option<seq<string>>, env: map<string, string>)

  function AddOverrides(t: Tables, at: ScopeId, o: Overrides): Option<Tables>
  {
    var p := SetIfGiven(t.plugins, at, o.plugins);
    if p.None? then None
    else
      var c := SetIfGiven(t.configs, at, o.configs);
      if c.None? then None
      else Some(t.(plugins := p.value, configs := c.value, env := SetEnvs(t.env, at, o.env)))
  }

  function CreateServer(t: Tables, name: string, row: ServerRow, o: Overrides): Option<Tables>
  {
    var r := InsertServer(t, name, row);
    if r.None? then None else AddOverrides(r.value, ScopeId(Server, name), o)
  }

  function CreateCluster(t: Tables, name: string, row: ClusterRow, o: Overrides): Option<Tables>
  {
    var r := InsertCluster(t, name, row);
    if r.None? then None else AddOverrides(r.value, ScopeId(Cluster, name), o)
  }

  function DropScope(t: Tables, at: ScopeId): Tables
  {
    t.(env := ClearEnv(t.env, at),
       plugins := ClearMark(ClearRows(t.plugins, at), at),
       configs := ClearMark(ClearRows(t.configs, at), at))
  }

  function DeleteServer(t: Tables, name: string): Tables
  {
    DropScope(t.(servers := t.servers - {name}), ScopeId(Server, name))
  }

  /** The foreign key keeps a cluster with members. */
  function DeleteCluster(t: Tables, name: string): Option<Tables>
  {
    if exists s :: s in t.servers && t.servers[s].cluster == Some(name) then None
    else Some(DropScope(t.(clusters := t.clusters - {name}), ScopeId(Cluster, name)))
  }

  /** A catalog entry that is assigned anywhere cannot be deleted. */
  function DeleteKnown(a: Assignments, item: string): Option<Assignments>
  {
    if exists r :: r in a.rows && r.item == item then None else Some(a.(known := a.known - {item}))
  }

  // ---- API requests ----

  /** The lowest free host number, or None when all are taken. */
  function FirstFree(t: Tables, from: nat): Option<nat>
    decreases IP_MAX + 1 - from
  {
    if from > IP_MAX then None
    else if IpTaken(t, from, {}) then FirstFree(t, from + 1)
    else Some(from)
  }

  /** A cluster as a request gives it; accepting connections and the policy may be left out. */
  datatype ClusterBody = ClusterBody(
    port: int, accepting: Option<bool>, restartHrs: Option<real>, stopHrs: Option<real>, lbPolicy: string)

  datatype Request =
    | CreateServerReq(name: string, row: ServerRow, o: Overrides)  // the row's ip is ignored
    | UpdateServerReq(name: string, newPort: Option<int>, row: ServerRow)  // its ip, port, cluster are ignored
    | SetDesired(name: string, running: bool)
    | DeleteServerReq(name: string)
    | CreateClusterReq(name: string, cluster: ClusterBody, o: Overrides)
    | UpdateClusterReq(name: string, cluster: ClusterBody)
    | DeleteClusterReq(name: string)
    | SetGlobalEnv(key: string, value: string, scopeName: string)
    | DeleteGlobalEnv(key: string, scopeName: string)
    | SetGlobalPlugins(items: seq<string>)
    | SetGlobalConfigs(items: seq<string>)
    | PutManifest(item: string)
    | PutConfig(item: string)
    | DeleteManifest(item: string)
    | DeleteConfig(item: string)

  /** applyTo: the live-mutable fields over the existing row. A port on a member is rejected, an
      absent port and an empty desired state keep what is there. */
  function Overlaid(old_: ServerRow, newPort: Option<int>, row: ServerRow): Option<ServerRow>
  {
    if newPort.Some? && old_.cluster.Some? then None
    else Some(row.(ip := old_.ip, cluster := old_.cluster,
                   port := if newPort.Some? then newPort else old_.port,
                   desired := if row.desired == "" then old_.desired else row.desired))
  }

  /** toRow of a new cluster: accepting, and round robin, unless the request says otherwise. */
  function NewCluster(b: ClusterBody): ClusterRow
  {
    ClusterRow(b.port, if b.accepting.Some? then b.accepting.value else true, b.restartHrs, b.stopHrs,
               if b.lbPolicy == "" then "round_robin" else b.lbPolicy)
  }

  /** applyTo of a cluster: what is left out keeps its value. */
  function OverlaidCluster(old_: ClusterRow, b: ClusterBody): ClusterRow
  {
    ClusterRow(b.port, if b.accepting.Some? then b.accepting.value else old_.accepting, b.restartHrs, b.stopHrs,
               if b.lbPolicy == "" then old_.lbPolicy else b.lbPolicy)
  }

  function Handle(t: Tables, q: Request): Option<Tables>
  {
    match q
    case CreateServerReq(name, row, o) =>
      var ip := FirstFree(t, IP_MIN);
      if name == "" || row.port.None? == row.cluster.None? || ip.None? then None
      else CreateServer(t, name, row.(ip := ip.value, desired := if row.desired == "" then "running" else row.desired), o)
    case UpdateServerReq(name, newPort, row) =>
      if name !in t.servers then None
      else
        var r := Overlaid(t.servers[name], newPort, row);
        if r.None? then None else UpdateServer(t, name, r.value)
    case SetDesired(name, running) =>
      if name !in t.servers then Some(t)
      else Some(t.(servers := t.servers[name := t.servers[name].(desired := if running then "running" else "stopped")]))
    case DeleteServerReq(name) => Some(DeleteServer(t, name))
    case CreateClusterReq(name, body, o) =>
      if name == "" || body.port == 0 then None else CreateCluster(t, name, NewCluster(body), o)
    case UpdateClusterReq(name, body) =>
      if name !in t.clusters || body.port == 0 then None
      else UpdateCluster(t, name, OverlaidCluster(t.clusters[name], body))
    case DeleteClusterReq(name) => DeleteCluster(t, name)
    case SetGlobalEnv(key, value, scopeName) =>
      if key == "" then None else Some(t.(env := t.env[EnvKey(key, Global, scopeName) := value]))
    case DeleteGlobalEnv(key, scopeName) =>
      if key == "" then None else Some(t.(env := t.env - {EnvKey(key, Global, scopeName)}))
    case SetGlobalPlugins(items) =>
      var a := SetItems(t.plugins, ScopeId(Global, ""), items);
      if a.None? then None else Some(t.(plugins := a.value))
    case SetGlobalConfigs(items) =>
      var a := SetItems(t.configs, ScopeId(Global, ""), items);
      if a.None? then None else Some(t.(configs := a.value))
    case PutManifest(item) => Some(t.(plugins := t.plugins.(known := t.plugins.known + {item})))
    case PutConfig(item) => Some(t.(configs := t.configs.(known := t.configs.known + {item})))
    case DeleteManifest(item) =>
      var a := DeleteKnown(t.plugins, item);
      if a.None? then None else Some(t.(plugins := a.value))
    case DeleteConfig(item) =>
      var a := DeleteKnown(t.configs, item);
      if a.None? then None else Some(t.(configs := a.value))
  }

  function Served(t: Tables, qs: seq<Request>): Tables
  {
    if qs == [] then t
    else
      var before := Served(t, qs[..|qs| - 1]);
      var r := Handle(before, qs[|qs| - 1]);
      if r.Some? then r.value else before
  }

  // ---- Which port a server is reached on ----

  /** ResolveServer's structural part: a server's own port wins, else its cluster's; neither is an
      error, and so is a missing server or cluster. */
  function OwnPort(t: Tables, name: string): Option<int>
  {
    if name !in t.servers then None
    else
      var row := t.servers[name];
      if row.cluster.Some? && row.cluster.value !in t.clusters then None
      else if row.port.Some? then row.port
      else if row.cluster.Some? then Some(t.clusters[row.cluster.value].port)
      else None
  }

  /** The conversion to uint16. */
  function Truncated(port: int): nat { port % 0x1_0000 }

  /** The proxy is given the port as a uint16. */
  function ProxyPort(t: Tables, name: string): Option<nat>
  {
    var p := OwnPort(t, name);
    if p.None? then None else Some(Truncated(p.value))
  }

  // ---- Which plugins a server runs ----

  function Items(a: Assignments, at: ScopeId): set<string> { set r | r in a.rows && r.at == at :: r.item }

  /** The most specific scope that overrides decides, even with an empty set. */
  function EffectivePlugins(a: Assignments, server: string, cluster: string): set<string>
  {
    if ScopeId(Server, server) in a.marks then Items(a, ScopeId(Server, server))
    else if cluster != "" && ScopeId(Cluster, cluster) in a.marks then Items(a, ScopeId(Cluster, cluster))
    else if ScopeId(Global, "") in a.marks then Items(a, ScopeId(Global, ""))
    else {}
  }
}
