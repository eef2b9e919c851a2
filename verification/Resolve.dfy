/** `orchestration/plugin/resolve.go`: the dependency closure of a set of plugins and its
    topological order. */
module Resolve {
  import opened Wrappers

  type Name = string

  /** The manifest store and the manifest parser, reduced to what a manifest requires. */
  datatype Catalog = Catalog(manifests: map<Name, string>, parse: string -> Option<seq<Name>>) {
    predicate Usable(n: Name)
    {
      n in manifests && parse(manifests[n]).Some?
    }

    function Needs(n: Name): seq<Name>
      requires Usable(n)
    {
      parse(manifests[n]).value
    }

    predicate Edge(n: Name, d: Name)
    {
      Usable(n) && d in Needs(n)
    }

    /** Each plugin on the path requires the next one. */
    ghost predicate Path(path: seq<Name>)
    {
      && path != []
      && forall i, j :: 0 <= i < j < |path| && j == i + 1 ==> Edge(path[i], path[j])
    }

    ghost predicate PathFrom(roots: seq<Name>, path: seq<Name>, n: Name)
    {
      Path(path) && path[0] in roots && path[|path| - 1] == n
    }

    ghost predicate Reachable(roots: seq<Name>, n: Name)
    {
      exists path :: PathFrom(roots, path, n)
    }

    ghost predicate IsCycle(path: seq<Name>)
    {
      Path(path) && |path| >= 2 && path[0] == path[|path| - 1]
    }

    ghost predicate Cyclic(roots: seq<Name>)
    {
      exists path :: IsCycle(path) && Reachable(roots, path[0])
    }

    ghost predicate AllUsable(roots: seq<Name>)
    {
      forall n :: Reachable(roots, n) ==> Usable(n)
    }
  }

  datatype Node = Node(needs: seq<Name>, toml: string)
  datatype Resolved = Resolved(name: Name, toml: string)
  datatype Error = LoadFailed(name: Name) | ParseFailed(name: Name) | DependencyCycle

  lemma RootReachable(c: Catalog, roots: seq<Name>, n: Name)
    requires n in roots
    ensures c.Reachable(roots, n)
  {
    assert c.PathFrom(roots, [n], n);
  }

  lemma NeedReachable(c: Catalog, roots: seq<Name>, n: Name, d: Name)
    requires c.Reachable(roots, n) && c.Edge(n, d)
    ensures c.Reachable(roots, d)
  {
    var path :| c.PathFrom(roots, path, n);
    assert c.PathFrom(roots, path + [d], d);
  }

  /** A set that contains the roots and the needs of its members contains everything reachable. */
  lemma {:induction false} ClosedContains(c: Catalog, roots: seq<Name>, s: set<Name>, path: seq<Name>, n: Name)
    requires c.PathFrom(roots, path, n)
    requires forall r :: r in roots ==> r in s
    requires forall m, d :: m in s && c.Edge(m, d) ==> d in s
    ensures n in s
  {
    if |path| > 1 {
      var pre := path[..|path| - 1];
      assert c.Edge(pre[|pre| - 1], n);
      assert c.PathFrom(roots, pre, pre[|pre| - 1]);
      ClosedContains(c, roots, s, pre, pre[|pre| - 1]);
    }
  }

  // ---- The closure ----

  /** `nodes` records some of what is reachable, exactly as the catalog has it. */
  ghost predicate Recorded(c: Catalog, roots: seq<Name>, nodes: map<Name, Node>)
  {
    forall n :: n in nodes ==>
      c.Reachable(roots, n) && c.Usable(n) && nodes[n] == Node(c.Needs(n), c.manifests[n])
  }

  ghost predicate Complete(c: Catalog, roots: seq<Name>, nodes: map<Name, Node>)
  {
    Recorded(c, roots, nodes) && forall n :: c.Reachable(roots, n) <==> n in nodes
  }

  ghost predicate Blames(c: Catalog, roots: seq<Name>, e: Error)
  {
    match e
    case LoadFailed(n) => c.Reachable(roots, n) && n !in c.manifests
    case ParseFailed(n) => c.Reachable(roots, n) && n in c.manifests && c.parse(c.manifests[n]).None?
    case DependencyCycle => c.AllUsable(roots) && c.Cyclic(roots)
  }

  /** What the worklist loop keeps: the queue is reachable, and covers all the recorded needs. */
  ghost predicate Exploring(c: Catalog, roots: seq<Name>, nodes: map<Name, Node>, queue: seq<Name>)
  {
    && Recorded(c, roots, nodes)
    && (forall q :: q in queue ==> c.Reachable(roots, q))
    && (forall n :: n in roots ==> n in nodes || n in queue)
    && (forall n, d :: n in nodes && d in nodes[n].needs ==> d in nodes || d in queue)
  }

  lemma ExploreSeen(c: Catalog, roots: seq<Name>, nodes: map<Name, Node>, queue: seq<Name>)
    requires queue != [] && Exploring(c, roots, nodes, queue)
    ensures c.Reachable(roots, queue[0])
    ensures queue[0] in nodes ==> Exploring(c, roots, nodes, queue[1..])
  {
    hide c.Reachable;
    assert forall q :: q in queue <==> q == queue[0] || q in queue[1..];
  }

  lemma ExploreNode(c: Catalog, roots: seq<Name>, nodes: map<Name, Node>, queue: seq<Name>)
    requires queue != [] && Exploring(c, roots, nodes, queue) && c.Usable(queue[0])
    ensures
      var n := queue[0];
      Exploring(c, roots, nodes[n := Node(c.Needs(n), c.manifests[n])], queue[1..] + c.Needs(n))
  {
    hide c.Reachable;
    var n := queue[0];
    assert forall q :: q in queue <==> q == n || q in queue[1..];
    forall d | d in c.Needs(n) {
      NeedReachable(c, roots, n, d);
    }
  }

  lemma ExploredAll(c: Catalog, roots: seq<Name>, nodes: map<Name, Node>)
    requires Exploring(c, roots, nodes, [])
    ensures Complete(c, roots, nodes)
  {
    forall n | c.Reachable(roots, n)
      ensures n in nodes
    {
      var path :| c.PathFrom(roots, path, n);
      ClosedContains(c, roots, nodes.Keys, path, n);
    }
  }

  method Closure(roots: seq<Name>, c: Catalog) returns (r: Result<map<Name, Node>, Error>)
    ensures r.Success? ==> Complete(c, roots, r.value)
    ensures r.Failure? ==> !r.error.DependencyCycle? && Blames(c, roots, r.error)
  {
    var nodes: map<Name, Node> := map[];
    var queue := roots;
    forall n | n in roots {
      RootReachable(c, roots, n);
    }
    while |queue| > 0
      invariant Exploring(c, roots, nodes, queue)
      decreases c.manifests.Keys - nodes.Keys, |queue|
    {
      hide Exploring, c.Reachable;
      ExploreSeen(c, roots, nodes, queue);
      if c.Usable(queue[0]) {
        ExploreNode(c, roots, nodes, queue);
      }
      var name := queue[0];
      queue := queue[1..];
      if name in nodes {
        continue;
      }
      if name !in c.manifests {
        return Failure(LoadFailed(name));
      }
      var raw := c.manifests[name];
      var m := c.parse(raw);
      if m.None? {
        return Failure(ParseFailed(name));
      }
      nodes := nodes[name := Node(m.value, raw)];
      queue := queue + m.value;
    }
    assert queue == [];
    ExploredAll(c, roots, nodes);
    return Success(nodes);
  }

  // ---- Counting edges ----

  function Occurrences(s: seq<Name>, x: Name): nat
  {
    if s == [] then 0 else Occurrences(s[..|s| - 1], x) + if s[|s| - 1] == x then 1 else 0
  }

  /** How many of the needs are not done yet, duplicates counted. */
  function Pending(needs: seq<Name>, done: set<Name>): nat
  {
    if needs == [] then 0
    else Pending(needs[..|needs| - 1], done) + if needs[|needs| - 1] in done then 0 else 1
  }

  lemma {:induction false} PendingNone(needs: seq<Name>)
    ensures Pending(needs, {}) == |needs|
  {
    if needs != [] { PendingNone(needs[..|needs| - 1]); }
  }

  lemma {:induction false} PendingZero(needs: seq<Name>, done: set<Name>)
    ensures Pending(needs, done) == 0 <==> forall d :: d in needs ==> d in done
  {
    if needs != [] {
      PendingZero(needs[..|needs| - 1], done);
      assert needs == needs[..|needs| - 1] + [needs[|needs| - 1]];
    }
  }

  lemma {:induction false} PendingDone(needs: seq<Name>, done: set<Name>, x: Name)
    requires x !in done
    ensures Pending(needs, done) == Pending(needs, done + {x}) + Occurrences(needs, x)
  {
    if needs != [] { PendingDone(needs[..|needs| - 1], done, x); }
  }

  lemma OccurrencesSnoc(s: seq<Name>, y: Name, x: Name)
    ensures Occurrences(s + [y], x) == Occurrences(s, x) + if y == x then 1 else 0
  {
    assert (s + [y])[..|s + [y]| - 1] == s;
  }

  lemma {:induction false} OccurrencesHead(s: seq<Name>, x: Name)
    requires s != []
    ensures Occurrences(s, x) == Occurrences(s[1..], x) + if s[0] == x then 1 else 0
  {
    if |s| > 1 {
      var n := |s| - 1;
      OccurrencesHead(s[..n], x);
      assert s[..n][1..] == s[1..][..n - 1];
    } else {
      assert s[..0] == s[1..] == [];
    }
  }

  lemma {:induction false} OccursIn(s: seq<Name>, x: Name)
    ensures Occurrences(s, x) > 0 <==> x in s
  {
    if s != [] {
      OccursIn(s[..|s| - 1], x);
      assert s == s[..|s| - 1] + [s[|s| - 1]];
    }
  }

  // Go maps read as zero values where they have no entry.
  function Degree(m: map<Name, nat>, n: Name): nat { if n in m then m[n] else 0 }
  function Listed(m: map<Name, seq<Name>>, n: Name): seq<Name> { if n in m then m[n] else [] }

  ghost predicate ListsOnly(nodes: map<Name, Node>, m: map<Name, seq<Name>>)
  {
    forall n, d :: n in Listed(m, d) ==> n in nodes
  }

  /** The edges counted so far: all needs of the names in `seen`. */
  ghost predicate Counted(nodes: map<Name, Node>, seen: set<Name>,
                          degree: map<Name, nat>, dependents: map<Name, seq<Name>>)
  {
    && (forall n :: n in nodes ==> Degree(degree, n) == if n in seen then |nodes[n].needs| else 0)
    && (forall n, d :: n in nodes ==>
          Occurrences(Listed(dependents, d), n) == if n in seen then Occurrences(nodes[n].needs, d) else 0)
    && ListsOnly(nodes, dependents)
  }

  /** Counted, and in addition the first `i` needs of one more node. */
  ghost predicate CountedUpTo(nodes: map<Name, Node>, seen: set<Name>, name: Name, i: nat,
                              degree: map<Name, nat>, dependents: map<Name, seq<Name>>)
    requires name in nodes && i <= |nodes[name].needs|
  {
    && (forall n :: n in nodes ==>
          Degree(degree, n) == if n == name then i else if n in seen then |nodes[n].needs| else 0)
    && (forall n, d :: n in nodes ==>
          Occurrences(Listed(dependents, d), n) ==
            if n == name then Occurrences(nodes[name].needs[..i], d)
            else if n in seen then Occurrences(nodes[n].needs, d) else 0)
    && ListsOnly(nodes, dependents)
  }

  lemma CountEdge(nodes: map<Name, Node>, seen: set<Name>, name: Name, i: nat,
                  degree: map<Name, nat>, dependents: map<Name, seq<Name>>)
    requires name in nodes && i < |nodes[name].needs|
    requires CountedUpTo(nodes, seen, name, i, degree, dependents)
    ensures var dep := nodes[name].needs[i];
            CountedUpTo(nodes, seen, name, i + 1, degree[name := Degree(degree, name) + 1],
                        dependents[dep := Listed(dependents, dep) + [name]])
  {
    hide Occurrences, ListsOnly;
    var needs := nodes[name].needs;
    var dep := needs[i];
    var dependents' := dependents[dep := Listed(dependents, dep) + [name]];
    assert needs[..i + 1] == needs[..i] + [dep];
    ListedMembers(nodes, dependents, dep, name);
    forall n, d | n in nodes
      ensures Occurrences(Listed(dependents', d), n) ==
              if n == name then Occurrences(needs[..i + 1], d)
              else if n in seen then Occurrences(nodes[n].needs, d) else 0
    {
      OccurrencesSnoc(Listed(dependents, dep), name, n);
      OccurrencesSnoc(needs[..i], dep, d);
    }
  }

  lemma ListedMembers(nodes: map<Name, Node>, m: map<Name, seq<Name>>, dep: Name, name: Name)
    requires name in nodes && ListsOnly(nodes, m)
    ensures ListsOnly(nodes, m[dep := Listed(m, dep) + [name]])
  {
    var m' := m[dep := Listed(m, dep) + [name]];
    forall n, d | n in Listed(m', d)
      ensures n in nodes
    {
      assert n == name || n in Listed(m, d);
    }
  }

  lemma CountFirst(nodes: map<Name, Node>, seen: set<Name>, name: Name,
                   degree: map<Name, nat>, dependents: map<Name, seq<Name>>)
    requires name in nodes && name !in seen && Counted(nodes, seen, degree, dependents)
    ensures CountedUpTo(nodes, seen, name, 0, degree, dependents)
  {
    hide Listed;
  }

  lemma CountLast(nodes: map<Name, Node>, seen: set<Name>, name: Name,
                  degree: map<Name, nat>, dependents: map<Name, seq<Name>>)
    requires name in nodes && CountedUpTo(nodes, seen, name, |nodes[name].needs|, degree, dependents)
    ensures Counted(nodes, seen + {name}, degree, dependents)
  {
    hide Listed, Occurrences;
    assert nodes[name].needs[..|nodes[name].needs|] == nodes[name].needs;
  }

  /** Inverts the requires edges, visiting the nodes in whatever order the map yields them. */
  method CountEdges(nodes: map<Name, Node>) returns (degree: map<Name, nat>, dependents: map<Name, seq<Name>>)
    ensures Counted(nodes, nodes.Keys, degree, dependents)
  {
    degree, dependents := map[], map[];
    var todo := nodes.Keys;
    while todo != {}
      invariant todo <= nodes.Keys
      invariant Counted(nodes, nodes.Keys - todo, degree, dependents)
      decreases |todo|
    {
      hide Counted, CountedUpTo;
      var name :| name in todo;
      var needs := nodes[name].needs;
      ghost var seen := nodes.Keys - todo;
      CountFirst(nodes, seen, name, degree, dependents);
      var i := 0;
      while i < |needs|
        invariant i <= |needs|
        invariant CountedUpTo(nodes, seen, name, i, degree, dependents)
      {
        var dep := needs[i];
        CountEdge(nodes, seen, name, i, degree, dependents);
        dependents := dependents[dep := Listed(dependents, dep) + [name]];
        degree := degree[name := Degree(degree, name) + 1];
        i := i + 1;
      }
      CountLast(nodes, seen, name, degree, dependents);
      todo := todo - {name};
      assert nodes.Keys - todo == seen + {name};
    }
    assert nodes.Keys - todo == nodes.Keys;
  }

  // ---- Kahn's algorithm ----

  ghost function Elements(s: seq<Name>): set<Name> { set x | x in s }

  ghost predicate Distinct(s: seq<Name>)
  {
    forall i, j :: 0 <= i < j < |s| ==> s[i] != s[j]
  }

  /** Every need of an ordered name is ordered before it. */
  ghost predicate DepsFirst(nodes: map<Name, Node>, order: seq<Name>)
  {
    forall k, d :: 0 <= k < |order| && order[k] in nodes && d in nodes[order[k]].needs ==> d in order[..k]
  }

  /** The state between two pops: degrees count what is pending, and a name is ready or ordered
      exactly when nothing is. */
  ghost predicate Sorting(nodes: map<Name, Node>, degree: map<Name, nat>, ready: seq<Name>, order: seq<Name>)
  {
    && (forall n :: n in nodes ==> Degree(degree, n) == Pending(nodes[n].needs, Elements(order)))
    && (forall n :: n in order + ready <==> n in nodes && Degree(degree, n) == 0)
    && Distinct(order + ready)
    && DepsFirst(nodes, order)
  }

  /** Between two decrements: the edges in `rest` are still to be taken off the degrees. */
  ghost predicate Releasing(nodes: map<Name, Node>, degree: map<Name, nat>, rest: seq<Name>,
                            done: set<Name>, listed: seq<Name>)
  {
    && (forall n :: n in nodes ==> Degree(degree, n) == Pending(nodes[n].needs, done) + Occurrences(rest, n))
    && (forall n :: n in listed <==> n in nodes && Degree(degree, n) == 0)
    && Distinct(listed)
  }

  lemma OccurrencesHeadAll(s: seq<Name>)
    requires s != []
    ensures forall x :: Occurrences(s, x) == Occurrences(s[1..], x) + if s[0] == x then 1 else 0
  {
    forall x { OccurrencesHead(s, x); }
  }

  lemma ReleaseOne(nodes: map<Name, Node>, degree: map<Name, nat>, rest: seq<Name>,
                   done: set<Name>, listed: seq<Name>)
    requires rest != [] && rest[0] in nodes && Releasing(nodes, degree, rest, done, listed)
    ensures Degree(degree, rest[0]) > 0
    ensures var degree' := degree[rest[0] := Degree(degree, rest[0]) - 1];
            Releasing(nodes, degree', rest[1..], done, if degree'[rest[0]] == 0 then listed + [rest[0]] else listed)
  {
    OccurrencesHeadAll(rest);
    hide Occurrences, Pending;
    assert rest[0] !in listed;
  }

  lemma ReleaseStart(nodes: map<Name, Node>, degree: map<Name, nat>, deps: seq<Name>, ready: seq<Name>,
                     order: seq<Name>, name: Name)
    requires name in nodes && name !in order
    requires forall n :: n in nodes ==> Occurrences(deps, n) == Occurrences(nodes[n].needs, name)
    requires Sorting(nodes, degree, [name] + ready, order)
    ensures Releasing(nodes, degree, deps, Elements(order + [name]), order + [name] + ready)
    ensures DepsFirst(nodes, order + [name])
  {
    assert order + ([name] + ready) == order + [name] + ready;
    assert Elements(order + [name]) == Elements(order) + {name};
    forall n | n in nodes {
      PendingDone(nodes[n].needs, Elements(order), name);
    }
    var order' := order + [name];
    assert Pending(nodes[name].needs, Elements(order)) == 0 by {
      assert name in order + ([name] + ready);
    }
    PendingZero(nodes[name].needs, Elements(order));
    forall k, d | 0 <= k < |order'| && order'[k] in nodes && d in nodes[order'[k]].needs
      ensures d in order'[..k]
    {
      if k < |order| {
        assert order'[..k] == order[..k];
      } else {
        assert order'[..k] == order;
        assert d in Elements(order);
      }
    }
  }

  lemma ReleaseEnd(nodes: map<Name, Node>, degree: map<Name, nat>, ready: seq<Name>, order: seq<Name>)
    requires Releasing(nodes, degree, [], Elements(order), order + ready) && DepsFirst(nodes, order)
    ensures Sorting(nodes, degree, ready, order)
  {
  }

  /** Releases one by one the dependents of a name just ordered. */
  method Release(nodes: map<Name, Node>, deps: seq<Name>, degree0: map<Name, nat>,
                 ready0: seq<Name>, ghost order: seq<Name>, name: Name)
    returns (degree: map<Name, nat>, ready: seq<Name>)
    requires name in nodes && name !in order
    requires forall n :: n in nodes ==> Occurrences(deps, n) == Occurrences(nodes[n].needs, name)
    requires forall n :: n in deps ==> n in nodes
    requires Sorting(nodes, degree0, [name] + ready0, order)
    ensures Sorting(nodes, degree, ready, order + [name])
  {
    hide Releasing, Elements, Occurrences, Sorting, DepsFirst;
    degree, ready := degree0, ready0;
    ghost var order' := order + [name];
    ReleaseStart(nodes, degree, deps, ready, order, name);
    var i := 0;
    assert deps[0..] == deps;
    while i < |deps|
      invariant i <= |deps|
      invariant Releasing(nodes, degree, deps[i..], Elements(order'), order' + ready)
    {
      var dep := deps[i];
      assert deps[i..][0] == dep && deps[i..][1..] == deps[i + 1..];
      ReleaseOne(nodes, degree, deps[i..], Elements(order'), order' + ready);
      degree := degree[dep := Degree(degree, dep) - 1];
      if degree[dep] == 0 {
        assert order' + (ready + [dep]) == (order' + ready) + [dep];
        ready := ready + [dep];
      }
      i := i + 1;
    }
    assert deps[i..] == [];
    ReleaseEnd(nodes, degree, ready, order');
  }

  ghost predicate HasOpenNeed(nodes: map<Name, Node>, order: seq<Name>, n: Name)
  {
    n in nodes && exists d :: d in nodes[n].needs && d in nodes && d !in order
  }

  lemma PopReady(nodes: map<Name, Node>, degree: map<Name, nat>, ready: seq<Name>, order: seq<Name>)
    requires ready != [] && Sorting(nodes, degree, ready, order)
    ensures ready[0] in nodes && ready[0] !in order
  {
    var all := order + ready;
    assert all[|order|] == ready[0];
    assert forall k :: 0 <= k < |order| ==> all[k] == order[k];
  }

  lemma DependentsInvert(nodes: map<Name, Node>, degree: map<Name, nat>, dependents: map<Name, seq<Name>>, name: Name)
    requires Counted(nodes, nodes.Keys, degree, dependents)
    ensures forall n :: n in nodes ==> Occurrences(Listed(dependents, name), n) == Occurrences(nodes[n].needs, name)
    ensures forall n :: n in Listed(dependents, name) ==> n in nodes
  {
  }

  lemma SortStart(nodes: map<Name, Node>, degree: map<Name, nat>, dependents: map<Name, seq<Name>>, ready: seq<Name>)
    requires Counted(nodes, nodes.Keys, degree, dependents) && Distinct(ready)
    requires forall n :: n in ready <==> n in nodes && Degree(degree, n) == 0
    ensures Sorting(nodes, degree, ready, [])
  {
    forall n | n in nodes {
      PendingNone(nodes[n].needs);
    }
    assert [] + ready == ready && Elements([]) == {};
  }

  lemma SortEnd(nodes: map<Name, Node>, degree: map<Name, nat>, order: seq<Name>)
    requires Sorting(nodes, degree, [], order)
    requires forall n, d :: n in nodes && d in nodes[n].needs ==> d in nodes
    ensures Distinct(order) && DepsFirst(nodes, order) && forall n :: n in order ==> n in nodes
    ensures forall n {:trigger HasOpenNeed(nodes, order, n)} ::
              n in nodes && n !in order ==> HasOpenNeed(nodes, order, n)
  {
    assert order + [] == order;
    forall n | n in nodes && n !in order
      ensures HasOpenNeed(nodes, order, n)
    {
      PendingZero(nodes[n].needs, Elements(order));
    }
  }

  /** Orders what can be ordered: at the end every name left out still needs a name left out. */
  method Sort(nodes: map<Name, Node>) returns (order: seq<Name>)
    requires forall n, d :: n in nodes && d in nodes[n].needs ==> d in nodes
    ensures Distinct(order) && DepsFirst(nodes, order) && forall n :: n in order ==> n in nodes
    ensures forall n {:trigger HasOpenNeed(nodes, order, n)} ::
              n in nodes && n !in order ==> HasOpenNeed(nodes, order, n)
  {
    hide Counted, Sorting, HasOpenNeed, DepsFirst;
    var degree, dependents := CountEdges(nodes);
    ghost var degree0 := degree;
    var ready: seq<Name> := [];
    var todo := nodes.Keys;
    while todo != {}
      invariant todo <= nodes.Keys
      invariant forall n :: n in ready <==> n in nodes && n !in todo && Degree(degree, n) == 0
      invariant Distinct(ready)
      decreases |todo|
    {
      var name :| name in todo;
      if Degree(degree, name) == 0 {
        ready := ready + [name];
      }
      todo := todo - {name};
    }
    SortStart(nodes, degree, dependents, ready);
    order := [];
    while |ready| > 0
      invariant Sorting(nodes, degree, ready, order)
      decreases nodes.Keys - Elements(order)
    {
      PopReady(nodes, degree, ready, order);
      DependentsInvert(nodes, degree0, dependents, ready[0]);
      var name := ready[0];
      assert ready == [name] + ready[1..];
      ghost var before := order;
      degree, ready := Release(nodes, Listed(dependents, name), degree, ready[1..], order, name);
      order := order + [name];
      assert Elements(order) == Elements(before) + {name};
    }
    assert ready == [];
    SortEnd(nodes, degree, order);
  }

  // ---- Cycles ----

  ghost predicate NeedsWithin(c: Catalog, left: set<Name>, n: Name)
  {
    exists d :: c.Edge(n, d) && d in left
  }

  /** Following needs inside a finite set that has no way out must close a cycle. */
  lemma {:induction false} TrappedCycle(c: Catalog, left: set<Name>, path: seq<Name>) returns (cycle: seq<Name>)
    requires forall n {:trigger NeedsWithin(c, left, n)} :: n in left ==> NeedsWithin(c, left, n)
    requires c.Path(path) && Distinct(path) && forall n :: n in path ==> n in left
    ensures c.IsCycle(cycle) && cycle[0] in left
    decreases left - Elements(path)
  {
    var last := path[|path| - 1];
    assert last in path && NeedsWithin(c, left, last);
    var next :| c.Edge(last, next) && next in left;
    if next in path {
      var k :| 0 <= k < |path| && path[k] == next;
      cycle := path[k..] + [next];
    } else {
      assert c.Path(path + [next]);
      assert next in Elements(path + [next]) && forall x :: x in Elements(path) ==> x in Elements(path + [next]);
      cycle := TrappedCycle(c, left, path + [next]);
    }
  }

  /** In an order with dependencies first, a path only goes back. */
  lemma {:induction false} PathGoesBack(c: Catalog, nodes: map<Name, Node>, order: seq<Name>, path: seq<Name>,
                                        i: nat) returns (j: nat)
    requires c.Path(path) && |path| >= 2
    requires forall n :: n in nodes ==> c.Usable(n) && nodes[n].needs == c.Needs(n)
    requires DepsFirst(nodes, order) && forall n :: n in order ==> n in nodes
    requires i < |order| && order[i] == path[0]
    ensures j < i && order[j] == path[|path| - 1]
  {
    assert c.Edge(path[0], path[1]);
    assert path[1] in nodes[order[i]].needs;
    j :| 0 <= j < i && order[j] == path[1];
    if |path| > 2 {
      assert c.Path(path[1..]);
      j := PathGoesBack(c, nodes, order, path[1..], j);
    }
  }

  lemma DistinctCount(order: seq<Name>)
    requires Distinct(order)
    ensures |Elements(order)| == |order|
  {
    if order != [] {
      var n := |order| - 1;
      DistinctCount(order[..n]);
      assert Elements(order) == Elements(order[..n]) + {order[n]};
      assert order[n] !in Elements(order[..n]);
    }
  }

  lemma OrderedAllOrNot(nodes: map<Name, Node>, order: seq<Name>)
    requires Distinct(order) && forall n :: n in order ==> n in nodes
    ensures |order| == |nodes| <==> forall n :: n in nodes ==> n in order
  {
    DistinctCount(order);
    assert Elements(order) <= nodes.Keys;
    if |order| == |nodes| && Elements(order) != nodes.Keys {
      assert Elements(order) < nodes.Keys;
      SubsetSmaller(Elements(order), nodes.Keys);
    }
    if forall n :: n in nodes ==> n in order {
      assert Elements(order) == nodes.Keys;
    }
  }

  lemma SubsetSmaller(a: set<Name>, b: set<Name>)
    requires a < b
    ensures |a| < |b|
  {
    assert b == a + (b - a);
    assert b - a != {};
  }

  // ---- ResolveOrder ----

  ghost predicate Lists(result: seq<Resolved>, n: Name, before: nat)
  {
    exists j :: 0 <= j < before <= |result| && result[j].name == n
  }

  /** Each reachable plugin exactly once, with its own manifest, after everything it requires. */
  ghost predicate InstallOrder(c: Catalog, roots: seq<Name>, result: seq<Resolved>)
  {
    && (forall n :: c.Reachable(roots, n) <==> Lists(result, n, |result|))
    && (forall i, j :: 0 <= i < j < |result| ==> result[i].name != result[j].name)
    && (forall i :: 0 <= i < |result| ==>
          c.Usable(result[i].name) && result[i].toml == c.manifests[result[i].name])
    && (forall i, d :: 0 <= i < |result| && c.Edge(result[i].name, d) ==> Lists(result, d, i))
  }

  /** Success exactly when everything reachable from the roots loads and parses and is free of
      cycles; then the result is an install order. A failure names a reachable culprit. */
  method ResolveOrder(roots: seq<Name>, c: Catalog) returns (r: Result<seq<Resolved>, Error>)
    ensures r.Success? <==> c.AllUsable(roots) && !c.Cyclic(roots)
    ensures r.Success? ==> InstallOrder(c, roots, r.value)
    ensures r.Failure? ==> Blames(c, roots, r.error)
  {
    hide Complete, Blames, InstallOrder, DepsFirst;
    BlameRefutes(c, roots);
    var closure := Closure(roots, c);
    if closure.Failure? {
      return Failure(closure.error);
    }
    var nodes := closure.value;
    CompleteClosed(c, roots, nodes);
    var order := Sort(nodes);
    OrderedAllOrNot(nodes, order);
    if |order| != |nodes| {
      ReportCycle(c, roots, nodes, order);
      return Failure(DependencyCycle);
    }
    NoCycle(c, roots, nodes, order);
    var result := seq(|order|, i requires 0 <= i < |order| => Resolved(order[i], nodes[order[i]].toml));
    ResultIsOrder(c, roots, nodes, order, result);
    return Success(result);
  }

  lemma BlameRefutes(c: Catalog, roots: seq<Name>)
    ensures forall e :: Blames(c, roots, e) ==> !(c.AllUsable(roots) && !c.Cyclic(roots))
  {
  }

  lemma CompleteClosed(c: Catalog, roots: seq<Name>, nodes: map<Name, Node>)
    requires Complete(c, roots, nodes)
    ensures c.AllUsable(roots)
    ensures forall n, d :: n in nodes && d in nodes[n].needs ==> d in nodes
  {
    forall n, d | n in nodes && d in nodes[n].needs
      ensures d in nodes
    {
      NeedReachable(c, roots, n, d);
    }
  }

  lemma ReportCycle(c: Catalog, roots: seq<Name>, nodes: map<Name, Node>, order: seq<Name>)
    requires Complete(c, roots, nodes)
    requires forall n {:trigger HasOpenNeed(nodes, order, n)} ::
               n in nodes && n !in order ==> HasOpenNeed(nodes, order, n)
    requires exists n :: n in nodes && n !in order
    ensures Blames(c, roots, DependencyCycle)
  {
    var left := set n | n in nodes && n !in order;
    var first :| first in nodes && first !in order;
    forall n | n in left
      ensures NeedsWithin(c, left, n)
    {
      assert HasOpenNeed(nodes, order, n);
      var d :| d in nodes[n].needs && d in nodes && d !in order;
      assert c.Edge(n, d);
    }
    var cycle := TrappedCycle(c, left, [first]);
  }

  lemma NoCycle(c: Catalog, roots: seq<Name>, nodes: map<Name, Node>, order: seq<Name>)
    requires Complete(c, roots, nodes) && Distinct(order) && DepsFirst(nodes, order)
    requires forall n :: n in order <==> n in nodes
    ensures !c.Cyclic(roots)
  {
    if c.Cyclic(roots) {
      var cycle :| c.IsCycle(cycle) && c.Reachable(roots, cycle[0]);
      var i :| 0 <= i < |order| && order[i] == cycle[0];
      var j := PathGoesBack(c, nodes, order, cycle, i);
      assert false;
    }
  }

  lemma ResultIsOrder(c: Catalog, roots: seq<Name>, nodes: map<Name, Node>, order: seq<Name>, result: seq<Resolved>)
    requires Complete(c, roots, nodes) && Distinct(order) && DepsFirst(nodes, order)
    requires forall n :: n in order <==> n in nodes
    requires |result| == |order|
    requires forall i :: 0 <= i < |order| ==> order[i] in nodes && result[i] == Resolved(order[i], nodes[order[i]].toml)
    ensures InstallOrder(c, roots, result)
  {
    forall n
      ensures n in nodes <==> Lists(result, n, |result|)
    {
      if n in nodes {
        var k :| 0 <= k < |order| && order[k] == n;
        assert result[k].name == n;
      }
    }
    forall i, d | 0 <= i < |result| && d in c.Needs(result[i].name)
      ensures Lists(result, d, i)
    {
      assert order[i] in nodes && d in nodes[order[i]].needs;
      var j :| 0 <= j < i && order[j] == d;
      assert result[j].name == d;
    }
  }
}
