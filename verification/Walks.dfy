/**
 Paths on a volume: where they lead, how far they lead, and what stays of them when
 directories are added.
*/
module Walks {
  import opened Namespace

  function CleanupName(name: string, pid: string): string {
    "." + name + ".directory-cleanup-" + pid
  }

  lemma CleanupNameDiffers(name: string, pid: string)
    ensures CleanupName(name, pid) != name
  {
    assert |CleanupName(name, pid)| > |name|;
  }

  function Names(path: seq<string>): set<string> {
    set n | n in path
  }

  // --- How the volume grows ---------------------------------------------------

  /** Only directories were added, each under one new name. */
  ghost predicate Sprouted(v: Volume, w: Volume) {
    && (forall s | s in v.links :: s in w.links && w.links[s] == v.links[s])
    && (forall s | s in w.links && s !in v.links ::
          w.links[s] !in v.nodes && w.links[s] in w.nodes && w.nodes[w.links[s]].Directory?)
    && (forall s, t | s in w.links && t in w.links && s !in v.links && t !in v.links ::
          w.links[s] == w.links[t] ==> s == t)
    && (forall o | o in v.nodes :: o in w.nodes && w.nodes[o] == v.nodes[o])
  }

  /** Only new directories were added, under new names from `names` that lie outside `avoid`. */
  ghost predicate Extended(v: Volume, w: Volume, names: set<string>, avoid: set<Object>) {
    && Sprouted(v, w)
    && NewNames(v, w, names, avoid)
    && (forall o | o in w.nodes && o !in v.nodes :: w.nodes[o].Directory?)
    && InodesKept(v, w)
    && w.open == v.open
  }

  ghost predicate NewNames(v: Volume, w: Volume, names: set<string>, avoid: set<Object>) {
    forall s | s in w.links && s !in v.links :: s.name in names && s.directory !in avoid
  }

  lemma SproutedTwice(u: Volume, v: Volume, w: Volume)
    requires Sprouted(u, v) && Sprouted(v, w)
    ensures Sprouted(u, w)
  {
  }

  lemma ExtendedSelf(v: Volume, names: set<string>, avoid: set<Object>)
    requires v.Valid()
    ensures Extended(v, v, names, avoid)
  {
  }

  lemma ExtensionIsTransitive(u: Volume, v: Volume, w: Volume, names: set<string>, avoid: set<Object>)
    requires Extended(u, v, names, avoid) && Extended(v, w, names, avoid)
    ensures Extended(u, w, names, avoid)
  {
    SproutedTwice(u, v, w);
  }

  lemma ExtensionWidens(v: Volume, w: Volume, names: set<string>, more: set<string>, avoid: set<Object>)
    requires Extended(v, w, names, avoid) && names <= more
    ensures Extended(v, w, more, avoid)
  {
  }

  lemma ExtendedByDirectory(v: Volume, w: Volume, s: Slot, o: Object, names: set<string>, avoid: set<Object>)
    requires v.Valid() && s !in v.links && o !in v.nodes && s.name in names && s.directory !in avoid
    requires w.links == v.links[s := o] && w.nodes == v.nodes[o := Directory] && InodesKept(v, w) && w.open == v.open
    ensures Extended(v, w, names, avoid)
  {
  }

  lemma ExtendedParts(v: Volume, w: Volume, names: set<string>, avoid: set<Object>)
    requires Extended(v, w, names, avoid)
    ensures Sprouted(v, w) && NewNames(v, w, names, avoid)
  {
  }

  lemma NothingLost(v: Volume, w: Volume, names: set<string>, avoid: set<Object>)
    requires Extended(v, w, names, avoid)
    ensures v.links.Keys <= w.links.Keys
  {
  }

  /** Every object in `avoid` is reachable only by names outside `names`. */
  ghost predicate Unreachable(links: Links, names: set<string>, avoid: set<Object>) {
    forall s | s in links && links[s] in avoid :: s.name !in names
  }

  lemma StaysUnreachable(v: Volume, w: Volume, names: set<string>, avoid: set<Object>)
    requires Extended(v, w, names, avoid) && Unreachable(v.links, names, avoid) && avoid <= v.nodes.Keys
    ensures Unreachable(w.links, names, avoid)
  {
  }

  // --- Where a path leads -----------------------------------------------------

  ghost predicate LeadsOn(v: Volume, s: Slot) {
    s in v.links && v.links[s] in v.nodes && v.nodes[v.links[s]].Directory?
  }

  /** Following `path` from `start` through directories leads to `end`. */
  ghost predicate Reaches(v: Volume, start: Object, path: seq<string>, end: Object)
    decreases |path|
  {
    if path == [] then start == end
    else
      var s := Slot(start, path[0]);
      LeadsOn(v, s) && Reaches(v, v.links[s], path[1..], end)
  }

  /** Every name of a directory, among the names given, still leads to it. */
  ghost predicate KeepsPaths(v: Volume, w: Volume, names: set<string>) {
    forall s | LeadsOn(v, s) && s.name in names :: LeadsOn(w, s) && w.links[s] == v.links[s]
  }

  lemma {:induction false} StillReaches(v: Volume, w: Volume, start: Object, path: seq<string>, end: Object)
    requires Reaches(v, start, path, end) && KeepsPaths(v, w, Names(path))
    ensures Reaches(w, start, path, end)
    decreases |path|
  {
    if path != [] {
      assert path[0] in Names(path);
      assert Names(path[1..]) <= Names(path);
      StillReaches(v, w, v.links[Slot(start, path[0])], path[1..], end);
    }
  }

  lemma {:induction false} ReachesOneMore(v: Volume, start: Object, path: seq<string>, s: Slot)
    requires Reaches(v, start, path, s.directory) && LeadsOn(v, s)
    ensures Reaches(v, start, path + [s.name], v.links[s])
    decreases |path|
  {
    if path == [] {
      assert [s.name][1..] == [];
    } else {
      assert (path + [s.name])[1..] == path[1..] + [s.name];
      ReachesOneMore(v, v.links[Slot(start, path[0])], path[1..], s);
    }
  }

  lemma {:induction false} ReachesJoin(v: Volume, start: Object, path: seq<string>, middle: Object, rest: seq<string>,
                                       end: Object)
    requires Reaches(v, start, path, middle) && Reaches(v, middle, rest, end)
    ensures Reaches(v, start, path + rest, end)
    decreases |path|
  {
    if path == [] {
      assert path + rest == rest;
    } else {
      assert (path + rest)[1..] == path[1..] + rest;
      ReachesJoin(v, v.links[Slot(start, path[0])], path[1..], middle, rest, end);
    }
  }

  /** The last step of a path. */
  lemma {:induction false} LastStep(v: Volume, start: Object, path: seq<string>, end: Object) returns (parent: Object)
    requires path != [] && Reaches(v, start, path, end)
    ensures Reaches(v, start, path[..|path| - 1], parent)
    ensures var s := Slot(parent, path[|path| - 1]); LeadsOn(v, s) && v.links[s] == end
    decreases |path|
  {
    var next := v.links[Slot(start, path[0])];
    if |path| == 1 {
      parent := start;
    } else {
      parent := LastStep(v, next, path[1..], end);
      assert path[..|path| - 1][1..] == path[1..][..|path| - 2];
    }
  }

  lemma ExtensionKeepsPaths(v: Volume, w: Volume, names: set<string>, avoid: set<Object>, some: set<string>)
    requires Extended(v, w, names, avoid)
    ensures KeepsPaths(v, w, some)
  {
  }

  // --- How far a path leads ---------------------------------------------------

  /** The last directory on a path, and what is missing below it. */
  datatype Place = Place(directory: Object, missing: seq<string>)

  ghost function Locate(v: Volume, o: Object, path: seq<string>): Place
    decreases |path|
  {
    if path == [] then Place(o, [])
    else
      var s := Slot(o, path[0]);
      if LeadsOn(v, s) then Locate(v, v.links[s], path[1..]) else Place(o, path)
  }

  lemma {:induction false} LocateFurther(v: Volume, o: Object, path: seq<string>, rest: seq<string>)
    ensures var p := Locate(v, o, path);
            Locate(v, o, path + rest)
            == if p.missing == [] then Locate(v, p.directory, rest) else Place(p.directory, p.missing + rest)
    decreases |path|
  {
    if path == [] {
      assert path + rest == rest;
    } else {
      var s := Slot(o, path[0]);
      if LeadsOn(v, s) {
        assert (path + rest)[1..] == path[1..] + rest;
        LocateFurther(v, v.links[s], path[1..], rest);
      }
    }
  }

  /** Nothing stands where the first missing directory has to be made, nor where it would be moved for removal. */
  ghost predicate Clear(v: Volume, p: Place, pid: string) {
    p.missing != [] ==>
      && Slot(p.directory, p.missing[0]) !in v.links
      && Slot(p.directory, CleanupName(p.missing[0], pid)) !in v.links
  }

  /** The path can be followed, making the directories that are missing. */
  ghost predicate Walkable(v: Volume, o: Object, path: seq<string>, pid: string) {
    Clear(v, Locate(v, o, path), pid)
  }

  /** One component can be entered, or made. */
  ghost predicate Enterable(v: Volume, parent: Object, name: string, pid: string) {
    if Slot(parent, name) in v.links then LeadsOn(v, Slot(parent, name))
    else Slot(parent, CleanupName(name, pid)) !in v.links
  }

  lemma WalkableStep(v: Volume, o: Object, path: seq<string>, pid: string)
    requires path != [] && Walkable(v, o, path, pid)
    ensures Enterable(v, o, path[0], pid)
    ensures Slot(o, path[0]) in v.links ==> Walkable(v, v.links[Slot(o, path[0])], path[1..], pid)
  {
  }

  lemma WalkableBelowNew(v: Volume, o: Object, path: seq<string>, pid: string)
    requires NothingIn(v.links, o)
    ensures Walkable(v, o, path, pid)
  {
  }

  /** No name is one under which the directory of another name is removed. */
  ghost predicate CleanupsApart(path: set<string>, names: set<string>, pid: string) {
    forall n | n in path :: CleanupName(n, pid) !in names
  }

  /** Below a new directory there are only new directories. */
  lemma {:induction false} WalkableAmongNew(v: Volume, w: Volume, names: set<string>, avoid: set<Object>, o: Object,
                                            path: seq<string>, pid: string)
    requires v.Valid() && Sprouted(v, w) && NewNames(v, w, names, avoid)
    requires CleanupsApart(Names(path), names, pid) && o !in v.nodes
    ensures Walkable(w, o, path, pid)
    decreases |path|
  {
    if path != [] {
      var s := Slot(o, path[0]);
      assert path[0] in Names(path) && Names(path[1..]) <= Names(path);
      if s in w.links {
        WalkableAmongNew(v, w, names, avoid, w.links[s], path[1..], pid);
      }
    }
  }

  /** Making other directories does not block a path. */
  lemma {:induction false} WalkableStays(v: Volume, w: Volume, names: set<string>, avoid: set<Object>, o: Object,
                                         path: seq<string>, pid: string)
    requires v.Valid() && Sprouted(v, w) && NewNames(v, w, names, avoid)
    requires CleanupsApart(Names(path), names, pid)
    requires Walkable(v, o, path, pid)
    ensures Walkable(w, o, path, pid)
    decreases |path|
  {
    if path != [] {
      var s := Slot(o, path[0]);
      assert path[0] in Names(path) && Names(path[1..]) <= Names(path);
      if s in v.links {
        WalkableStays(v, w, names, avoid, v.links[s], path[1..], pid);
      } else if s in w.links {
        WalkableAmongNew(v, w, names, avoid, w.links[s], path[1..], pid);
      }
    }
  }

  // --- Where new directories come from ----------------------------------------

  /** The name is the one at position `k` of the path. */
  ghost predicate OnWalkAt(v: Volume, root: Object, path: seq<string>, k: nat, s: Slot) {
    k < |path| && s.name == path[k] && Reaches(v, root, path[..k], s.directory)
  }

  /** Every new name lies on the first `n` steps of the path. */
  ghost predicate Along(start: Volume, v: Volume, root: Object, path: seq<string>, n: nat) {
    forall s | s in v.links && s !in start.links :: exists k :: 0 <= k < n && OnWalkAt(v, root, path, k, s)
  }

  lemma AlongSelf(v: Volume, root: Object, path: seq<string>)
    ensures Along(v, v, root, path, 0)
  {
  }

  lemma AlongWidens(start: Volume, v: Volume, root: Object, path: seq<string>, n: nat, m: nat)
    requires Along(start, v, root, path, n) && n <= m
    ensures Along(start, v, root, path, m)
  {
    forall s | s in v.links && s !in start.links ensures exists k :: 0 <= k < m && OnWalkAt(v, root, path, k, s) {
      var k :| 0 <= k < n && OnWalkAt(v, root, path, k, s);
    }
  }

  lemma OnWalkStays(v: Volume, w: Volume, root: Object, path: seq<string>, k: nat, s: Slot)
    requires OnWalkAt(v, root, path, k, s) && Sprouted(v, w)
    ensures OnWalkAt(w, root, path, k, s)
  {
    assert KeepsPaths(v, w, Names(path[..k]));
    StillReaches(v, w, root, path[..k], s.directory);
  }

  lemma AlongStep(start: Volume, v: Volume, w: Volume, root: Object, path: seq<string>, n: nat, parent: Object)
    requires Along(start, v, root, path, n) && Sprouted(v, w) && n < |path|
    requires Reaches(v, root, path[..n], parent)
    requires AgreeOutside(v.links, w.links, {Slot(parent, path[n])})
    ensures Along(start, w, root, path, n + 1)
  {
    forall s | s in w.links && s !in start.links
      ensures exists k :: 0 <= k < n + 1 && OnWalkAt(w, root, path, k, s)
    {
      if s in v.links {
        var k :| 0 <= k < n && OnWalkAt(v, root, path, k, s);
        OnWalkStays(v, w, root, path, k, s);
      } else {
        assert OnWalkAt(v, root, path, n, s);
        OnWalkStays(v, w, root, path, n, s);
      }
    }
  }

  // --- New directories are reached in one way ---------------------------------

  lemma {:induction false} NewEnd(v: Volume, w: Volume, o: Object, path: seq<string>, end: Object)
    requires v.Valid() && Sprouted(v, w) && path != [] && Slot(o, path[0]) !in v.links && Reaches(w, o, path, end)
    ensures end !in v.nodes
    decreases |path|
  {
    if |path| > 1 {
      NewEnd(v, w, w.links[Slot(o, path[0])], path[1..], end);
    }
  }

  /** Where a path led before, and that it goes on through new directories only. */
  lemma {:induction false} Located(v: Volume, w: Volume, o: Object, path: seq<string>, end: Object)
    requires v.Valid() && Sprouted(v, w) && o in v.nodes && Reaches(w, o, path, end)
    ensures var p := Locate(v, o, path);
            && p.directory in v.nodes && Reaches(w, p.directory, p.missing, end)
            && (p.missing != [] ==> Slot(p.directory, p.missing[0]) !in v.links)
    decreases |path|
  {
    if path != [] {
      var s := Slot(o, path[0]);
      if LeadsOn(v, s) {
        Located(v, w, v.links[s], path[1..], end);
      }
    }
  }

  lemma {:induction false} SameEnd(v: Volume, w: Volume, a: Object, p: seq<string>, b: Object, q: seq<string>,
                                   end: Object)
    requires v.Valid() && Sprouted(v, w) && a in v.nodes && b in v.nodes
    requires Reaches(w, a, p, end) && (p != [] ==> Slot(a, p[0]) !in v.links)
    requires Reaches(w, b, q, end) && (q != [] ==> Slot(b, q[0]) !in v.links)
    ensures a == b && p == q
    decreases |p|
  {
    if p == [] || q == [] {
      if p != [] {
        NewEnd(v, w, a, p, end);
      }
      if q != [] {
        NewEnd(v, w, b, q, end);
      }
    } else {
      var m, n := |p| - 1, |q| - 1;
      var c := LastStep(w, a, p, end);
      var d := LastStep(w, b, q, end);
      LastIsNew(v, w, a, p, c);
      LastIsNew(v, w, b, q, d);
      assert c == d && p[m] == q[n];
      SameEnd(v, w, a, p[..m], b, q[..n], c);
      assert p == p[..m] + [p[m]] && q == q[..n] + [q[n]];
    }
  }

  lemma LastIsNew(v: Volume, w: Volume, a: Object, p: seq<string>, c: Object)
    requires v.Valid() && Sprouted(v, w) && p != [] && Slot(a, p[0]) !in v.links
    requires Reaches(w, a, p[..|p| - 1], c)
    ensures Slot(c, p[|p| - 1]) !in v.links
  {
    var front := p[..|p| - 1];
    if front != [] {
      assert front[0] == p[0];
      NewEnd(v, w, a, front, c);
    }
  }

  /** Two paths that lead to the same directory now led equally far before. */
  lemma SamePlace(v: Volume, w: Volume, o: Object, p: seq<string>, q: seq<string>, end: Object)
    requires v.Valid() && Sprouted(v, w) && o in v.nodes && Reaches(w, o, p, end) && Reaches(w, o, q, end)
    ensures Locate(v, o, p) == Locate(v, o, q)
  {
    Located(v, w, o, p, end);
    Located(v, w, o, q, end);
    var a, b := Locate(v, o, p), Locate(v, o, q);
    SameEnd(v, w, a.directory, a.missing, b.directory, b.missing, end);
  }
}
