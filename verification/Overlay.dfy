/** The three-tier environment of `orchestration/database/resolve.go`: global, then the server's
    cluster, then the server itself, the most specific value of each key winning. */
module Overlay {
  import opened Wrappers

  datatype Scope = Global | Cluster | Server

  /** The table csfleet_env_variables by its primary key. */
  datatype EnvKey = EnvKey(key: string, scope: Scope, scopeName: string)
  type EnvTable = map<EnvKey, string>

  datatype EnvRow = EnvRow(id: EnvKey, value: string)

  function Rank(s: Scope): nat { if s.Global? then 0 else if s.Cluster? then 1 else 2 }

  predicate Applies(id: EnvKey, server: string, cluster: string)
  {
    id.scope.Global? || (id.scope.Cluster? && id.scopeName == cluster) || (id.scope.Server? && id.scopeName == server)
  }

  /** What the query may return: the applying rows, each once, general before specific. The order
      among rows of one scope is the database's choice. */
  ghost predicate Selected(t: EnvTable, server: string, cluster: string, rows: seq<EnvRow>)
  {
    && (forall r :: r in rows <==> r.id in t && r.value == t[r.id] && Applies(r.id, server, cluster))
    && (forall i, j :: 0 <= i < j < |rows| ==> rows[i] != rows[j] && Rank(rows[i].id.scope) <= Rank(rows[j].id.scope))
  }

  /** No two global rows carry the same key. */
  ghost predicate OneGlobalRow(t: EnvTable)
  {
    forall a, b :: a in t && b in t && a.scope.Global? && b.scope.Global? && a.key == b.key ==> a == b
  }

  /** The reference: the server's row, else the cluster's, else the global one. */
  ghost predicate Effective(t: EnvTable, server: string, cluster: string, id: EnvKey)
  {
    id in t &&
    if EnvKey(id.key, Server, server) in t then id == EnvKey(id.key, Server, server)
    else if EnvKey(id.key, Cluster, cluster) in t then id == EnvKey(id.key, Cluster, cluster)
    else id.scope.Global?
  }

  /** Scanning rows into a map: a later row replaces an earlier one of the same key. */
  function Scan(rows: seq<EnvRow>): map<string, EnvRow>
  {
    if rows == [] then map[]
    else
      var last := rows[|rows| - 1];
      Scan(rows[..|rows| - 1])[last.id.key := last]
  }

  function Values(m: map<string, EnvRow>): map<string, string>
  {
    map k | k in m :: m[k].value
  }

  /** The scan keeps the last row of each key. */
  lemma {:induction false} ScanKeepsLast(rows: seq<EnvRow>)
    ensures forall r :: r in rows ==> r.id.key in Scan(rows)
    ensures forall k :: k in Scan(rows) ==>
      exists i :: 0 <= i < |rows| && rows[i] == Scan(rows)[k] && rows[i].id.key == k
                  && forall j :: i < j < |rows| ==> rows[j].id.key != k
  {
    if rows != [] {
      var n := |rows| - 1;
      ScanKeepsLast(rows[..n]);
      assert rows == rows[..n] + [rows[n]];
      forall k | k in Scan(rows)
        ensures exists i :: 0 <= i < |rows| && rows[i] == Scan(rows)[k] && rows[i].id.key == k
                            && forall j :: i < j < |rows| ==> rows[j].id.key != k
      {
        if k == rows[n].id.key {
          assert rows[n] == Scan(rows)[k];
        } else {
          var i :| 0 <= i < n && rows[..n][i] == Scan(rows[..n])[k] && rows[..n][i].id.key == k
                   && forall j :: i < j < n ==> rows[..n][j].id.key != k;
          assert rows[i] == Scan(rows)[k];
          assert forall j :: i < j < |rows| ==> rows[j].id.key != k;
        }
      }
    }
  }

  /** With one global row per key, the scan yields for every key the effective row, and nothing else. */
  lemma ScanIsLookup(t: EnvTable, server: string, cluster: string, rows: seq<EnvRow>)
    requires Selected(t, server, cluster, rows) && OneGlobalRow(t)
    ensures forall id :: Effective(t, server, cluster, id) <==>
              id.key in Scan(rows) && Scan(rows)[id.key] == EnvRow(id, if id in t then t[id] else "")
    ensures forall k :: k in Scan(rows) ==> Scan(rows)[k].id.key == k && Effective(t, server, cluster, Scan(rows)[k].id)
  {
    ScanKeepsLast(rows);
    forall k | k in Scan(rows)
      ensures Scan(rows)[k].id.key == k && Effective(t, server, cluster, Scan(rows)[k].id)
    {
      var i :| 0 <= i < |rows| && rows[i] == Scan(rows)[k] && rows[i].id.key == k
               && forall j :: i < j < |rows| ==> rows[j].id.key != k;
      LastIsEffective(t, server, cluster, rows, i);
    }
    forall id | Effective(t, server, cluster, id)
      ensures id.key in Scan(rows) && Scan(rows)[id.key] == EnvRow(id, t[id])
    {
      assert EnvRow(id, t[id]) in rows;
      EffectiveUnique(t, server, cluster, id, Scan(rows)[id.key].id);
    }
  }

  lemma LastIsEffective(t: EnvTable, server: string, cluster: string, rows: seq<EnvRow>, i: nat)
    requires Selected(t, server, cluster, rows) && i < |rows|
    requires forall j :: i < j < |rows| ==> rows[j].id.key != rows[i].id.key
    ensures Effective(t, server, cluster, rows[i].id)
  {
    var id := rows[i].id;
    assert rows[i] in rows;
    forall other | other in t && Applies(other, server, cluster) && other.key == id.key
      ensures Rank(other.scope) <= Rank(id.scope)
    {
      assert EnvRow(other, t[other]) in rows;
      var j :| 0 <= j < |rows| && rows[j] == EnvRow(other, t[other]);
    }
  }

  lemma EffectiveUnique(t: EnvTable, server: string, cluster: string, a: EnvKey, b: EnvKey)
    requires OneGlobalRow(t) && a.key == b.key
    requires Effective(t, server, cluster, a) && Effective(t, server, cluster, b)
    ensures a == b
  {
  }

  /** Where several rows tie for a key, they carry the same value. */
  ghost predicate Unambiguous(t: EnvTable, server: string, cluster: string)
  {
    forall a, b :: Effective(t, server, cluster, a) && Effective(t, server, cluster, b) && a.key == b.key ==>
      t[a] == t[b]
  }

  ghost predicate Ordered(ids: seq<EnvKey>)
  {
    forall i, j :: 0 <= i < j < |ids| ==> ids[i] != ids[j] && Rank(ids[i].scope) <= Rank(ids[j].scope)
  }

  lemma JoinOrdered(a: seq<EnvKey>, b: seq<EnvKey>)
    requires Ordered(a) && Ordered(b)
    requires forall x, y :: x in a && y in b ==> x != y && Rank(x.scope) <= Rank(y.scope)
    ensures Ordered(a + b)
  {
    hide Rank;
    var ab := a + b;
    forall i, j | 0 <= i < j < |ab|
      ensures ab[i] != ab[j] && Rank(ab[i].scope) <= Rank(ab[j].scope)
    {
      if i < |a| <= j {
        assert ab[i] == a[i] && ab[j] == b[j - |a|];
        assert a[i] in a && b[j - |a|] in b;
      }
    }
  }

  /** The applying ids of one scope, in some order. */
  lemma Enumerate(ids: set<EnvKey>, scope: Scope) returns (order: seq<EnvKey>)
    requires forall id :: id in ids ==> id.scope == scope
    ensures Ordered(order) && forall id :: id in order <==> id in ids
    decreases |ids|
  {
    if ids == {} {
      order := [];
    } else {
      var id :| id in ids;
      var rest := Enumerate(ids - {id}, scope);
      JoinOrdered(rest, [id]);
      order := rest + [id];
    }
  }

  function RowsOf(t: EnvTable, ids: seq<EnvKey>): seq<EnvRow>
    requires forall id :: id in ids ==> id in t
  {
    seq(|ids|, k requires 0 <= k < |ids| => assert ids[k] in ids; EnvRow(ids[k], t[ids[k]]))
  }

  lemma RowsSelected(t: EnvTable, server: string, cluster: string, ids: seq<EnvKey>)
    requires Ordered(ids) && forall id :: id in ids <==> id in t && Applies(id, server, cluster)
    ensures Selected(t, server, cluster, RowsOf(t, ids))
  {
    var rows := RowsOf(t, ids);
    forall r
      ensures r in rows <==> r.id in t && r.value == t[r.id] && Applies(r.id, server, cluster)
    {
      if r.id in ids && r.value == t[r.id] {
        var k :| 0 <= k < |ids| && ids[k] == r.id;
        assert rows[k] == r;
      }
    }
  }

  lemma SpecificIds(t: EnvTable, server: string, cluster: string) returns (ids: seq<EnvKey>)
    ensures Ordered(ids)
    ensures forall id :: id in ids <==> id in t && !id.scope.Global? && Applies(id, server, cluster)
  {
    hide Ordered, Applies;
    var c := Enumerate((set id | id in t && id.scope.Cluster? && Applies(id, server, cluster)), Cluster);
    var v := Enumerate((set id | id in t && id.scope.Server? && Applies(id, server, cluster)), Server);
    JoinOrdered(c, v);
    ids := c + v;
  }

  lemma GlobalIdsEndingWith(t: EnvTable, last: EnvKey) returns (ids: seq<EnvKey>)
    requires last in t && last.scope.Global?
    ensures Ordered(ids) && ids != [] && ids[|ids| - 1] == last
    ensures forall id :: id in ids <==> id in t && id.scope.Global?
  {
    hide Ordered;
    var g := Enumerate((set id | id in t && id.scope.Global? && id != last), Global);
    assert Ordered([last]) by { OrderedOne(last); }
    JoinOrdered(g, [last]);
    ids := g + [last];
  }

  lemma OrderedOne(id: EnvKey)
    ensures Ordered([id])
  {
  }

  /** The database may return any given global row last of its scope. */
  lemma OrderEndingWith(t: EnvTable, server: string, cluster: string, last: EnvKey) returns (rows: seq<EnvRow>)
    requires last in t && last.scope.Global?
    ensures Selected(t, server, cluster, rows)
    ensures exists i :: 0 <= i < |rows| && rows[i].id == last
                        && forall j :: i < j < |rows| ==> !rows[j].id.scope.Global?
  {
    hide Ordered, Selected;
    var g := GlobalIdsEndingWith(t, last);
    var s := SpecificIds(t, server, cluster);
    JoinOrdered(g, s);
    var ids := g + s;
    assert forall id :: id in ids <==> id in g || id in s;
    RowsSelected(t, server, cluster, ids);
    rows := RowsOf(t, ids);
    var i := |g| - 1;
    assert rows[i].id == last;
    forall j | i < j < |rows|
      ensures !rows[j].id.scope.Global?
    {
      assert rows[j].id == s[j - |g|];
      assert s[j - |g|] in s;
    }
  }

  lemma ScanIsSomeEffective(t: EnvTable, server: string, cluster: string, rows: seq<EnvRow>, k: string)
    requires Selected(t, server, cluster, rows)
    ensures k in Scan(rows) ==> var r := Scan(rows)[k];
              r.id.key == k && Effective(t, server, cluster, r.id) && r.value == t[r.id]
    ensures forall id :: Effective(t, server, cluster, id) ==> id.key in Scan(rows)
  {
    ScanKeepsLast(rows);
    if k in Scan(rows) {
      var i :| 0 <= i < |rows| && rows[i] == Scan(rows)[k] && rows[i].id.key == k
               && forall j :: i < j < |rows| ==> rows[j].id.key != k;
      LastIsEffective(t, server, cluster, rows, i);
      assert rows[i] in rows;
    }
    forall id | Effective(t, server, cluster, id)
      ensures id.key in Scan(rows)
    {
      assert EnvRow(id, t[id]) in rows;
    }
  }

  lemma SameValues(t: EnvTable, server: string, cluster: string, rows: seq<EnvRow>, rows': seq<EnvRow>)
    requires Unambiguous(t, server, cluster) && Selected(t, server, cluster, rows) && Selected(t, server, cluster, rows')
    ensures Values(Scan(rows)) == Values(Scan(rows'))
  {
    forall k
      ensures k in Scan(rows) <==> k in Scan(rows')
      ensures k in Scan(rows) ==> Scan(rows)[k].value == Scan(rows')[k].value
    {
      ScanIsSomeEffective(t, server, cluster, rows, k);
      ScanIsSomeEffective(t, server, cluster, rows', k);
      hide Scan, Selected, Effective;
    }
  }

  lemma TieSurfaces(t: EnvTable, server: string, cluster: string, id: EnvKey) returns (rows: seq<EnvRow>)
    requires Effective(t, server, cluster, id) && id.scope.Global?
    ensures Selected(t, server, cluster, rows)
    ensures id.key in Values(Scan(rows)) && Values(Scan(rows))[id.key] == t[id]
  {
    rows := OrderEndingWith(t, server, cluster, id);
    var i :| 0 <= i < |rows| && rows[i].id == id && forall j :: i < j < |rows| ==> !rows[j].id.scope.Global?;
    assert rows[i] in rows;
    ScanKeepsLast(rows);
    var m :| 0 <= m < |rows| && rows[m] == Scan(rows)[id.key] && rows[m].id.key == id.key
             && forall j :: m < j < |rows| ==> rows[j].id.key != id.key;
    LastIsEffective(t, server, cluster, rows, m);
    assert rows[m] in rows;
    assert m == i;
  }

  /** The environment does not depend on the order in which the database returns rows of one scope
      exactly when rows that tie for a key agree. Nothing in the table forbids two global rows of
      one key under different scope names, and the API accepts them. */
  lemma OrderIrrelevantExactly(t: EnvTable, server: string, cluster: string)
    ensures Unambiguous(t, server, cluster) <==>
            forall rows, rows' :: Selected(t, server, cluster, rows) && Selected(t, server, cluster, rows') ==>
              Values(Scan(rows)) == Values(Scan(rows'))
  {
    if Unambiguous(t, server, cluster) {
      forall rows, rows' | Selected(t, server, cluster, rows) && Selected(t, server, cluster, rows')
        ensures Values(Scan(rows)) == Values(Scan(rows'))
      {
        SameValues(t, server, cluster, rows, rows');
      }
    } else {
      var a, b :| Effective(t, server, cluster, a) && Effective(t, server, cluster, b) && a.key == b.key && t[a] != t[b];
      var ra := TieSurfaces(t, server, cluster, a);
      var rb := TieSurfaces(t, server, cluster, b);
      assert Values(Scan(ra)) != Values(Scan(rb));
    }
  }

  // ---- The two queries ----

  method LoadEnv(rows: seq<EnvRow>) returns (env: map<string, string>)
    ensures env == Values(Scan(rows))
  {
    env := map[];
    var i := 0;
    assert rows[..0] == [];
    while i < |rows|
      invariant i <= |rows| && env == Values(Scan(rows[..i]))
    {
      assert rows[..i + 1][..i] == rows[..i];
      env := env[rows[i].id.key := rows[i].value];
      i := i + 1;
    }
    assert rows[..i] == rows;
  }

  predicate Less(a: string, b: string)
  {
    if a == "" then b != ""
    else b != "" && (a[0] < b[0] || (a[0] == b[0] && Less(a[1..], b[1..])))
  }

  /** The order is the byte order of the key: at the first difference the smaller character, and a proper
      beginning before what it begins. */
  lemma {:induction false} LessByFirstDifference(a: string, b: string, k: nat)
    requires k <= |a| && k <= |b| && a[..k] == b[..k]
    requires k < |a| && k < |b| ==> a[k] != b[k]
    ensures Less(a, b) <==> k < |b| && (k == |a| || a[k] < b[k])
    decreases k
  {
    if k > 0 {
      assert a[0] == a[..k][0] && b[0] == b[..k][0];
      assert a[1..][..k - 1] == a[..k][1..] && b[1..][..k - 1] == b[..k][1..];
      LessByFirstDifference(a[1..], b[1..], k - 1);
    }
  }

  lemma {:induction false} LessTotal(a: string, b: string)
    ensures Less(a, b) || a == b || Less(b, a)
    ensures !(Less(a, b) && Less(b, a)) && !Less(a, a)
    decreases |a|
  {
    if a != "" && b != "" {
      LessTotal(a[1..], b[1..]);
      assert a == [a[0]] + a[1..] && b == [b[0]] + b[1..];
    }
    if a != "" { LessTotal(a[1..], a[1..]); }
  }

  lemma {:induction false} LessTransitive(a: string, b: string, c: string)
    requires Less(a, b) && Less(b, c)
    ensures Less(a, c)
    decreases |a|
  {
    if a != "" && a[0] == b[0] && b[0] == c[0] {
      LessTransitive(a[1..], b[1..], c[1..]);
    }
  }

  lemma LeastKey(keys: set<string>) returns (k: string)
    requires keys != {}
    ensures k in keys && forall x :: x in keys && x != k ==> Less(k, x)
    decreases |keys|
  {
    var any :| any in keys;
    var rest := keys - {any};
    if rest == {} {
      assert keys == {any};
      k := any;
    } else {
      var least := LeastKey(rest);
      LessTotal(any, least);
      k := if Less(any, least) then any else least;
      forall x | x in keys && x != k
        ensures Less(k, x)
      {
        if k == any && x != least { LessTransitive(any, least, x); }
      }
    }
  }

  /** One row per key, in key order, and exactly the winning rows. */
  ghost predicate SortedWinners(winning: map<string, EnvRow>, out: seq<EnvRow>)
  {
    && (forall i, j :: 0 <= i < j < |out| ==> Less(out[i].id.key, out[j].id.key))
    && (forall r :: r in out <==> r.id.key in winning && winning[r.id.key] == r)
  }

  lemma ScanNext(rows: seq<EnvRow>, i: nat)
    requires i < |rows|
    ensures Scan(rows[..i + 1]) == Scan(rows[..i])[rows[i].id.key := rows[i]]
  {
    assert rows[..i + 1][..i] == rows[..i];
  }

  /** The winners whose keys are no longer in `todo`, in key order, all before what is in `todo`. */
  ghost predicate Output(winning: map<string, EnvRow>, todo: set<string>, out: seq<EnvRow>)
  {
    && (forall r :: r in out <==> r.id.key in winning && winning[r.id.key] == r && r.id.key !in todo)
    && (forall i, j :: 0 <= i < j < |out| ==> Less(out[i].id.key, out[j].id.key))
    && (forall r, k :: r in out && k in todo ==> Less(r.id.key, k))
  }

  lemma OutputNext(winning: map<string, EnvRow>, todo: set<string>, out: seq<EnvRow>, k: string)
    requires Output(winning, todo, out) && k in todo && k in winning && winning[k].id.key == k
    requires forall x :: x in todo && x != k ==> Less(k, x)
    ensures Output(winning, todo - {k}, out + [winning[k]])
  {
    hide Less;
    var out' := out + [winning[k]];
    forall r
      ensures r in out' <==> r in out || r == winning[k]
    {
    }
    forall i, j | 0 <= i < j < |out'|
      ensures Less(out'[i].id.key, out'[j].id.key)
    {
      if j == |out| { assert out'[i] in out; }
    }
  }

  method EffectiveEnv(rows: seq<EnvRow>) returns (out: seq<EnvRow>)
    ensures SortedWinners(Scan(rows), out)
  {
    hide Less, Scan, Output;
    var winning: map<string, EnvRow> := map[];
    var i := 0;
    assert rows[..0] == [] && Scan([]) == map[] by { EmptyScan(); }
    while i < |rows|
      invariant i <= |rows| && winning == Scan(rows[..i])
    {
      ScanNext(rows, i);
      winning := winning[rows[i].id.key := rows[i]];
      i := i + 1;
    }
    assert rows[..i] == rows;
    ScanKeepsLast(rows);
    out := [];
    var todo := winning.Keys;
    OutputStart(winning);
    while todo != {}
      invariant todo <= winning.Keys && Output(winning, todo, out)
      decreases |todo|
    {
      ghost var least := LeastKey(todo);
      var k :| k in todo && forall x :: x in todo && x != k ==> Less(k, x);
      assert winning[k].id.key == k;
      OutputNext(winning, todo, out, k);
      todo := todo - {k};
      out := out + [winning[k]];
    }
    OutputEnd(winning, out);
  }

  lemma EmptyScan()
    ensures Scan([]) == map[]
  {
  }

  lemma OutputStart(winning: map<string, EnvRow>)
    ensures Output(winning, winning.Keys, [])
  {
  }

  lemma OutputEnd(winning: map<string, EnvRow>, out: seq<EnvRow>)
    requires Output(winning, {}, out)
    ensures SortedWinners(winning, out)
  {
  }

  lemma ScanOfWinners(winning: map<string, EnvRow>, out: seq<EnvRow>)
    requires SortedWinners(winning, out) && forall k :: k in winning ==> winning[k].id.key == k
    ensures Scan(out) == winning
  {
    hide Less;
    ScanKeepsLast(out);
    forall k | k in Scan(out)
      ensures k in winning && Scan(out)[k] == winning[k]
    {
      var i :| 0 <= i < |out| && out[i] == Scan(out)[k] && out[i].id.key == k;
      assert out[i] in out;
    }
    forall k | k in winning
      ensures k in Scan(out)
    {
      assert winning[k] in out;
    }
  }

  lemma ScanWithin(t: EnvTable, server: string, cluster: string, rows: seq<EnvRow>, rows': seq<EnvRow>, k: string)
    requires Selected(t, server, cluster, rows) && Selected(t, server, cluster, rows') && OneGlobalRow(t)
    requires k in Scan(rows)
    ensures k in Scan(rows') && Scan(rows')[k] == Scan(rows)[k]
  {
    hide Scan, Effective, Selected, OneGlobalRow;
    ScanIsLookup(t, server, cluster, rows);
    var id := Scan(rows)[k].id;
    assert id.key == k && Effective(t, server, cluster, id);
    ScanIsLookup(t, server, cluster, rows');
  }

  lemma ScansAgree(t: EnvTable, server: string, cluster: string, rows: seq<EnvRow>, rows': seq<EnvRow>)
    requires Selected(t, server, cluster, rows) && Selected(t, server, cluster, rows') && OneGlobalRow(t)
    ensures Scan(rows) == Scan(rows')
  {
    hide Scan, Selected, OneGlobalRow;
    forall k | k in Scan(rows)
      ensures k in Scan(rows') && Scan(rows')[k] == Scan(rows)[k]
    {
      ScanWithin(t, server, cluster, rows, rows', k);
    }
    forall k | k in Scan(rows')
      ensures k in Scan(rows)
    {
      ScanWithin(t, server, cluster, rows', rows, k);
    }
  }

  /** What the UI shows and what the container gets agree: collapsing the sorted rows gives the
      environment, even when the two queries return rows of one scope in different orders. */
  lemma ViewsAgree(t: EnvTable, server: string, cluster: string, rows: seq<EnvRow>, rows': seq<EnvRow>, out: seq<EnvRow>)
    requires Selected(t, server, cluster, rows) && Selected(t, server, cluster, rows') && OneGlobalRow(t)
    requires SortedWinners(Scan(rows'), out)
    ensures Values(Scan(out)) == Values(Scan(rows))
    ensures forall r :: r in out <==> Effective(t, server, cluster, r.id) && t[r.id] == r.value
  {
    ScanIsLookup(t, server, cluster, rows');
    ScansAgree(t, server, cluster, rows, rows');
    hide Scan, Less, Selected, OneGlobalRow;
    ScanOfWinners(Scan(rows'), out);
  }
}
