/** `applyIgnore` of `orchestration/plugin/apply.go`: the walk that deletes matching entries while
    it goes, skipping the subtree of a deleted directory. */
module Ignore {
  import opened Wrappers
  import opened Glob

  type Path = seq<string>  // root-relative; [] is the root

  function Slashed(p: Path): string
  {
    if p == [] then "" else if |p| == 1 then p[0] else Slashed(p[..|p| - 1]) + "/" + p[|p| - 1]
  }

  /** The path with its last name lengthened. */
  function Lengthened(p: Path, more: string): (q: Path)
    requires p != []
    ensures q != []
  {
    p[..|p| - 1] + [p[|p| - 1] + more]
  }

  /** The segments of a path text, split at its slashes. */
  function Segments(s: string): (p: Path)
    ensures p != []
  {
    if s == "" then [""]
    else
      var rest := Segments(s[..|s| - 1]);
      var c := s[|s| - 1];
      if c == '/' then rest + [""] else Lengthened(rest, [c])
  }

  lemma LengthenedTwice(p: Path, a: string, b: string)
    requires p != []
    ensures Lengthened(Lengthened(p, a), b) == Lengthened(p, a + b) && Lengthened(p, "") == p
  {
    var last := p[|p| - 1];
    assert last + a + b == last + (a + b) && last + "" == last;
    assert p == p[..|p| - 1] + [last];
  }

  lemma {:induction false} SegmentsOfName(before: string, name: string)
    requires NoSlash(name)
    ensures Segments(before + name) == Lengthened(Segments(before), name)
  {
    hide Lengthened;
    if name == "" {
      assert before + name == before;
      LengthenedTwice(Segments(before), "", "");
    } else {
      var n := |name| - 1;
      var s := before + name;
      assert s[..|s| - 1] == before + name[..n] && s[|s| - 1] == name[n];
      assert name == name[..n] + [name[n]];
      SegmentsOfName(before, name[..n]);
      LengthenedTwice(Segments(before), name[..n], [name[n]]);
    }
  }

  lemma SegmentsOfSlash(s: string)
    ensures Segments(s + "/") == Segments(s) + [""]
  {
    assert (s + "/")[..|s + "/"| - 1] == s;
  }

  lemma NamedAfter(p: Path, name: string)
    ensures Lengthened(p + [""], name) == p + [name]
  {
    assert "" + name == name;
  }

  /** The text a path is matched as has exactly the path's names between its slashes. */
  lemma {:induction false} SlashedRoundTrip(p: Path)
    requires p != [] && forall i :: 0 <= i < |p| ==> NoSlash(p[i])
    ensures Segments(Slashed(p)) == p
  {
    hide Segments, Lengthened, NoSlash;
    var last := p[|p| - 1];
    if |p| == 1 {
      SegmentsOfName("", last);
      NamedAfter([], last);
      assert "" + last == last && [] + [""] == [""] && p == [] + [last];
      assert Segments("") == [""] by { SegmentsOfNothing(); }
    } else {
      var pre := p[..|p| - 1];
      SlashedRoundTrip(pre);
      SegmentsOfSlash(Slashed(pre));
      SegmentsOfName(Slashed(pre) + "/", last);
      NamedAfter(pre, last);
    }
  }

  lemma SegmentsOfNothing()
    ensures Segments("") == [""]
  {
  }

  predicate Ignored(patterns: seq<string>, p: Path)
  {
    exists i :: 0 <= i < |patterns| && Matches(patterns[i], Slashed(p))
  }

  /** Neither the entry nor any directory strictly between `dir` and it is ignored. */
  ghost predicate Survives(patterns: seq<string>, dir: Path, e: Path)
  {
    forall k :: |dir| < k <= |e| ==> !Ignored(patterns, e[..k])
  }

  predicate Under(dir: Path, e: Path) { dir <= e }

  /** What should be left of a tree once everything below `dir` has been filtered. */
  ghost function Pruned(entries: map<Path, bool>, patterns: seq<string>, dir: Path): map<Path, bool>
  {
    map e | e in entries && (Under(dir, e) ==> Survives(patterns, dir, e)) :: entries[e]
  }

  /** The same, when only the children of `dir` in `names` have been visited so far. */
  ghost function PrunedIn(entries: map<Path, bool>, patterns: seq<string>, dir: Path, names: set<string>)
    : map<Path, bool>
  {
    map e | e in entries && (Visited(dir, names, e) ==> Survives(patterns, dir, e)) :: entries[e]
  }

  predicate Visited(dir: Path, names: set<string>, e: Path)
  {
    Under(dir, e) && |e| > |dir| && e[|dir|] in names
  }

  /** Some of the entries below `dir`, at least those that should survive, and all others. */
  ghost predicate PartlyPruned(entries: map<Path, bool>, was: map<Path, bool>, patterns: seq<string>, dir: Path)
  {
    && (forall e :: e in entries ==> e in was && entries[e] == was[e])
    && (forall e :: e in Pruned(was, patterns, dir) ==> e in entries)
  }

  /** Every entry's directory is an entry, and a directory. */
  ghost predicate IsTree(entries: map<Path, bool>)
  {
    forall e :: e in entries && e != [] ==> e[..|e| - 1] in entries && entries[e[..|e| - 1]]
  }

  /** The children of `dir` by name. */
  function Children(entries: map<Path, bool>, dir: Path): set<string>
  {
    set e | e in entries && |e| == |dir| + 1 && Under(dir, e) :: e[|dir|]
  }

  ghost function Region(all: set<Path>, dir: Path): set<Path>
  {
    set e | e in all && Under(dir, e)
  }

  lemma PrunedIsTree(entries: map<Path, bool>, patterns: seq<string>, dir: Path, names: set<string>)
    requires IsTree(entries)
    ensures IsTree(PrunedIn(entries, patterns, dir, names))
  {
    var kept := PrunedIn(entries, patterns, dir, names);
    forall e | e in kept && e != []
      ensures e[..|e| - 1] in kept && kept[e[..|e| - 1]]
    {
      var up := e[..|e| - 1];
      if Visited(dir, names, up) {
        assert up[|dir|] == e[|dir|] && Visited(dir, names, e);
        forall k | |dir| < k <= |up|
          ensures !Ignored(patterns, up[..k])
        {
          assert up[..k] == e[..k];
        }
      }
    }
  }

  /** Below a child that is not ignored itself, surviving from `dir` is surviving from the child. */
  lemma SurvivesVia(patterns: seq<string>, dir: Path, name: string, e: Path)
    requires Under(dir + [name], e)
    ensures Survives(patterns, dir, e) <==> !Ignored(patterns, dir + [name]) && Survives(patterns, dir + [name], e)
  {
    assert e[..|dir| + 1] == dir + [name];
  }

  lemma UnderChild(dir: Path, name: string, e: Path)
    ensures Under(dir + [name], e) <==> Visited(dir, {name}, e)
  {
    if Under(dir + [name], e) {
      assert e[..|dir|] == dir && e[|dir|] == name;
    }
    if Visited(dir, {name}, e) {
      assert e[..|dir| + 1] == dir + [name];
    }
  }

  lemma IgnoredChildGone(was: map<Path, bool>, patterns: seq<string>, dir: Path, names: set<string>, name: string)
    requires Ignored(patterns, dir + [name])
    ensures var before := PrunedIn(was, patterns, dir, names);
            (map e | e in before && !Under(dir + [name], e) :: before[e])
            == PrunedIn(was, patterns, dir, names + {name})
  {
    forall e | e in was
      ensures (Visited(dir, names, e) ==> Survives(patterns, dir, e)) && !Under(dir + [name], e)
              <==> (Visited(dir, names + {name}, e) ==> Survives(patterns, dir, e))
    {
      UnderChild(dir, name, e);
      if Under(dir + [name], e) { SurvivesVia(patterns, dir, name, e); }
    }
  }

  lemma WalkedChildPruned(was: map<Path, bool>, patterns: seq<string>, dir: Path, names: set<string>, name: string)
    requires !Ignored(patterns, dir + [name])
    ensures Pruned(PrunedIn(was, patterns, dir, names), patterns, dir + [name])
            == PrunedIn(was, patterns, dir, names + {name})
  {
    forall e | e in was
      ensures (Visited(dir, names, e) ==> Survives(patterns, dir, e))
              && (Under(dir + [name], e) ==> Survives(patterns, dir + [name], e))
              <==> (Visited(dir, names + {name}, e) ==> Survives(patterns, dir, e))
    {
      UnderChild(dir, name, e);
      if Under(dir + [name], e) { SurvivesVia(patterns, dir, name, e); }
    }
  }

  /** A file has nothing below it. */
  lemma {:induction false} FileIsLeaf(entries: map<Path, bool>, path: Path, e: Path)
    requires IsTree(entries) && path in entries && !entries[path] && e in entries && Under(path, e)
    ensures e == path
    decreases |e|
  {
    if |e| > |path| {
      var up := e[..|e| - 1];
      assert Under(path, up);
      FileIsLeaf(entries, path, up);
    }
  }

  lemma FileChildKept(was: map<Path, bool>, patterns: seq<string>, dir: Path, names: set<string>, name: string)
    requires IsTree(was) && dir + [name] in was && !was[dir + [name]] && !Ignored(patterns, dir + [name])
    ensures PrunedIn(was, patterns, dir, names) == PrunedIn(was, patterns, dir, names + {name})
  {
    forall e | e in was
      ensures (Visited(dir, names, e) ==> Survives(patterns, dir, e))
              <==> (Visited(dir, names + {name}, e) ==> Survives(patterns, dir, e))
    {
      UnderChild(dir, name, e);
      if Under(dir + [name], e) {
        FileIsLeaf(was, dir + [name], e);
        SurvivesVia(patterns, dir, name, e);
      }
    }
  }

  /** Visiting all children prunes everything below the directory. */
  lemma AllVisited(was: map<Path, bool>, patterns: seq<string>, dir: Path)
    requires IsTree(was)
    ensures PrunedIn(was, patterns, dir, Children(was, dir)) == Pruned(was, patterns, dir)
  {
    forall e | e in was && Under(dir, e) && |e| > |dir|
      ensures e[|dir|] in Children(was, dir)
    {
      AncestorPresent(was, e, |dir| + 1);
      var child := e[..|dir| + 1];
      assert Under(dir, child) && child[|dir|] == e[|dir|];
    }
    assert forall e :: e in was && |e| <= |dir| ==> Survives(patterns, dir, e);
  }

  lemma {:induction false} AncestorPresent(entries: map<Path, bool>, e: Path, k: nat)
    requires IsTree(entries) && e in entries && k <= |e|
    ensures e[..k] in entries
    decreases |e|
  {
    if k < |e| {
      AncestorPresent(entries, e[..|e| - 1], k);
      assert e[..|e| - 1][..k] == e[..k];
    } else {
      assert e[..k] == e;
    }
  }

  /** A removal that fails may already have removed part of the subtree. */
  datatype Removal = Removed | Failed(part: set<Path>)

  ghost predicate Compiles(patterns: seq<string>, res: seq<Regex>)
  {
    forall rel: string :: MatchesAny(res, rel) <==> GlobbedBy(patterns, rel)
  }

  predicate MatchesAny(res: seq<Regex>, rel: string) { exists i :: 0 <= i < |res| && In(res[i], rel) }
  predicate GlobbedBy(patterns: seq<string>, rel: string) { exists i :: 0 <= i < |patterns| && Matches(patterns[i], rel) }

  lemma FailedRemoval(was: map<Path, bool>, now: map<Path, bool>, patterns: seq<string>, dir: Path,
                      names: set<string>, name: string)
    requires Ignored(patterns, dir + [name])
    requires forall e :: e in now ==> e in was && now[e] == was[e]
    requires forall e :: e in PrunedIn(was, patterns, dir, names) && !Under(dir + [name], e) ==> e in now
    ensures PartlyPruned(now, was, patterns, dir)
  {
    forall e | e in Pruned(was, patterns, dir)
      ensures e in now
    {
      if Under(dir + [name], e) {
        UnderChild(dir, name, e);
        SurvivesVia(patterns, dir, name, e);
      }
    }
  }

  lemma FailedWalk(was: map<Path, bool>, now: map<Path, bool>, patterns: seq<string>, dir: Path,
                   names: set<string>, name: string)
    requires !Ignored(patterns, dir + [name])
    requires PartlyPruned(now, PrunedIn(was, patterns, dir, names), patterns, dir + [name])
    ensures PartlyPruned(now, was, patterns, dir)
  {
    forall e | e in Pruned(was, patterns, dir)
      ensures e in now
    {
      UnderChild(dir, name, e);
      if Under(dir + [name], e) { SurvivesVia(patterns, dir, name, e); }
      assert e in PrunedIn(was, patterns, dir, names);
      assert e in Pruned(PrunedIn(was, patterns, dir, names), patterns, dir + [name]);
    }
  }

  class Tree {
    var entries: map<Path, bool>  // path -> is a directory

    method RemoveAll(path: Path, outcome: Removal) returns (ok: bool)
      modifies this
      ensures ok == outcome.Removed?
      ensures ok ==> entries == map e | e in old(entries) && !Under(path, e) :: old(entries)[e]
      ensures forall e :: e in old(entries) && !Under(path, e) ==> e in entries
      ensures forall e :: e in entries ==> e in old(entries) && entries[e] == old(entries)[e]
    {
      entries := match outcome
        case Removed => map e | e in entries && !Under(path, e) :: entries[e]
        case Failed(part) => map e | e in entries && !(Under(path, e) && e in part) :: entries[e];
      ok := outcome.Removed?;
    }

    method AnyMatch(res: seq<Regex>, rel: string) returns (hit: bool)
      ensures hit <==> MatchesAny(res, rel)
    {
      for i := 0 to |res|
        invariant forall j :: 0 <= j < i ==> !In(res[j], rel)
      {
        if In(res[i], rel) {
          return true;
        }
      }
      return false;
    }

    /** Walks what is below `dir`, which stays; siblings are visited in any order. */
    method Walk(dir: Path, res: seq<Regex>, removal: Path -> Removal,
                ghost patterns: seq<string>, ghost all: set<Path>) returns (ok: bool)
      requires Compiles(patterns, res) && dir in entries && entries.Keys <= all && IsTree(entries)
      modifies this
      decreases Region(all, dir)
      ensures ok ==> entries == Pruned(old(entries), patterns, dir) && IsTree(entries)
      ensures !ok ==> PartlyPruned(entries, old(entries), patterns, dir)
      ensures (forall p :: removal(p).Removed?) ==> ok
    {
      hide Ignored, Compiles, IsTree, Region, Slashed, MatchesAny, Survives;
      ghost var was := entries;
      ghost var names: set<string> := {};
      var todo := Children(entries, dir);
      assert PrunedIn(was, patterns, dir, {}) == was;
      while todo != {}
        invariant todo <= Children(was, dir) && names == Children(was, dir) - todo
        invariant entries == PrunedIn(was, patterns, dir, names)
        decreases |todo|
      {
        hide PrunedIn, Pruned, PartlyPruned, Children;
        var name :| name in todo;
        var path := dir + [name];
        todo := todo - {name};
        ChildPresent(was, patterns, dir, names, name);
        PrunedIsTree(was, patterns, dir, names);
        var hit := AnyMatch(res, Slashed(path));
        HitMeansIgnored(patterns, res, path);
        if hit {
          var done := RemoveAll(path, removal(path));
          if !done {
            PrunedSubset(was, patterns, dir, names);
            FailedRemoval(was, entries, patterns, dir, names, name);
            return false;
          }
          IgnoredChildGone(was, patterns, dir, names, name);
        } else if entries[path] {
          SmallerRegion(all, dir, name);
          PrunedSubset(was, patterns, dir, names);
          var done := Walk(path, res, removal, patterns, all);
          if !done {
            FailedWalk(was, entries, patterns, dir, names, name);
            return false;
          }
          WalkedChildPruned(was, patterns, dir, names, name);
        } else {
          FileChildKept(was, patterns, dir, names, name);
        }
        names := names + {name};
        assert names == Children(was, dir) - todo;
      }
      assert names == Children(was, dir);
      AllVisited(was, patterns, dir);
      PrunedIsTree(was, patterns, dir, names);
      return true;
    }

    /** Compiles the patterns, then walks the tree. An entry is left exactly when neither it nor any
        non-root directory above it matches a pattern; a walk that fails has deleted nothing else. */
    method ApplyIgnore(patterns: seq<string>, removal: Path -> Removal) returns (ok: bool)
      requires [] in entries && IsTree(entries)
      modifies this
      ensures ok ==> entries == map e | e in old(entries) && KeptBy(patterns, e) :: old(entries)[e]
      ensures !ok ==> entries.Keys <= old(entries).Keys
                      && forall e :: e in old(entries) && KeptBy(patterns, e) ==> e in entries
      ensures (forall p :: removal(p).Removed?) ==> ok
    {
      KeptIsSurviving(patterns);
      if |patterns| == 0 {
        assert forall e :: KeptBy(patterns, e);
        return true;
      }
      var res: seq<Regex> := [];
      for i := 0 to |patterns|
        invariant |res| == i && entries == old(entries)
        invariant forall j :: 0 <= j < i ==> forall rel :: In(res[j], rel) <==> Matches(patterns[j], rel)
      {
        hide In, Matches, Compiled;
        var text := GlobToRegexp(patterns[i]);
        res := res + [Compiled(text).value];
      }
      CompilesEach(patterns, res);
      ok := Walk([], res, removal, patterns, entries.Keys);
    }
  }

  /** No non-empty beginning of the path is ignored. */
  ghost predicate KeptBy(patterns: seq<string>, e: Path)
  {
    forall k :: 1 <= k <= |e| ==> !Ignored(patterns, e[..k])
  }

  lemma KeptIsSurviving(patterns: seq<string>)
    ensures forall e :: KeptBy(patterns, e) <==> (Under([], e) ==> Survives(patterns, [], e))
  {
    hide Ignored;
  }

  lemma CompilesEach(patterns: seq<string>, res: seq<Regex>)
    requires |res| == |patterns|
    requires forall j :: 0 <= j < |res| ==> forall rel :: In(res[j], rel) <==> Matches(patterns[j], rel)
    ensures Compiles(patterns, res)
  {
    hide In, Matches;
  }

  lemma HitMeansIgnored(patterns: seq<string>, res: seq<Regex>, path: Path)
    requires Compiles(patterns, res)
    ensures MatchesAny(res, Slashed(path)) <==> Ignored(patterns, path)
  {
    hide In, Matches;
    assert GlobbedBy(patterns, Slashed(path)) <==> Ignored(patterns, path);
  }

  lemma PrunedSubset(was: map<Path, bool>, patterns: seq<string>, dir: Path, names: set<string>)
    ensures forall e :: e in PrunedIn(was, patterns, dir, names) ==>
              e in was && PrunedIn(was, patterns, dir, names)[e] == was[e]
  {
  }

  lemma ChildPresent(was: map<Path, bool>, patterns: seq<string>, dir: Path, names: set<string>, name: string)
    requires name in Children(was, dir) && name !in names
    ensures var now := PrunedIn(was, patterns, dir, names);
            dir + [name] in was && dir + [name] in now && now[dir + [name]] == was[dir + [name]]
  {
    var e :| e in was && |e| == |dir| + 1 && Under(dir, e) && e[|dir|] == name;
    assert e == dir + [name];
  }

  lemma SmallerRegion(all: set<Path>, dir: Path, name: string)
    requires dir in all
    ensures Region(all, dir + [name]) < Region(all, dir)
  {
    assert dir in Region(all, dir) && dir !in Region(all, dir + [name]);
    forall e | Under(dir + [name], e)
      ensures Under(dir, e)
    {
      UnderChild(dir, name, e);
    }
  }
}
