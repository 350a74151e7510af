/**
 What a transaction that is given up may leave behind without interference: nothing,
 unless an object that it had just made could not be inspected, or a probe could not be
 removed.  Even then every name from before is where it was.
*/
module Residue {
  import opened Namespace
  import opened Walks
  import opened Cleanup
  import opened Directories
  import opened Entries
  import opened Readiness

  /** A directory that was missing on the way to an output. */
  ghost predicate IsOnTheWay(w: Volume, anchor: Object, directory: seq<string>, outputs: seq<Output>, s: Slot) {
    LeadsOn(w, s) && s.name in AllNames(directory, outputs) && OnSomeWay(w, anchor, directory, outputs, s)
  }

  ghost predicate IsQuarantineName(name: string, pid: string, nonce: string) {
    name == ".circuitc-transaction-" + pid + "-" + nonce
  }

  lemma QuarantineNameIs(pid: string, nonce: string)
    ensures IsQuarantineName(QuarantineName(pid, nonce), pid, nonce)
  {
  }

  /** A directory in the output directory, at a name that a quarantine may take. */
  ghost predicate IsQuarantine(w: Volume, anchor: Object, directory: seq<string>, pid: string, nonces: seq<string>,
                               s: Slot) {
    && LeadsOn(w, s) && Reaches(w, anchor, directory, s.directory)
    && exists n :: n in nonces && IsQuarantineName(s.name, pid, n)
  }

  /** One of the objects that are kept, inside a quarantine. */
  ghost predicate IsKept(w: Volume, anchor: Object, directory: seq<string>, pid: string, nonces: seq<string>,
                         kept: set<Object>, s: Slot) {
    && s in w.links && w.links[s] in kept
    && exists t :: LeadsOn(w, t) && w.links[t] == s.directory && IsQuarantine(w, anchor, directory, pid, nonces, t)
  }

  /** Every name from before is where it was, and every other one is accounted for. */
  ghost predicate OnlyResidue(v: Volume, w: Volume, anchor: Object, directory: seq<string>, outputs: seq<Output>,
                              pid: string, nonces: seq<string>, kept: set<Object>) {
    && KeepsAllBut(v.links, w.links, {})
    && forall s | s in w.links && s !in v.links ::
         || IsOnTheWay(w, anchor, directory, outputs, s)
         || IsQuarantine(w, anchor, directory, pid, nonces, s)
         || IsKept(w, anchor, directory, pid, nonces, kept, s)
  }

  /** Directories are not forgotten. */
  ghost predicate DirectoriesKept(v: Volume, w: Volume) {
    forall o | o in v.nodes && v.nodes[o].Directory? :: o in w.nodes && w.nodes[o].Directory?
  }

  // --- Before anything is removed ---------------------------------------------

  lemma NoResidue(v: Volume, w: Volume, anchor: Object, directory: seq<string>, outputs: seq<Output>, pid: string,
                  nonces: seq<string>, kept: set<Object>)
    requires w.links == v.links
    ensures OnlyResidue(v, w, anchor, directory, outputs, pid, nonces, kept)
  {
  }

  lemma ResidueWidens(v: Volume, w: Volume, anchor: Object, directory: seq<string>, outputs: seq<Output>, pid: string,
                      nonces: seq<string>, kept: set<Object>, more: set<Object>)
    requires OnlyResidue(v, w, anchor, directory, outputs, pid, nonces, kept) && kept <= more
    ensures OnlyResidue(v, w, anchor, directory, outputs, pid, nonces, more)
  {
  }

  /** While directories are made, only directories on the way are new. */
  lemma GrownResidue(v: Volume, w: Volume, anchor: Object, directory: seq<string>, outputs: seq<Output>, pid: string,
                     nonces: seq<string>, hidden: set<Slot>)
    requires Grown(v, w, anchor, directory, outputs, hidden)
    requires forall s | s in hidden && s in w.links :: IsQuarantine(w, anchor, directory, pid, nonces, s)
    ensures OnlyResidue(v, w, anchor, directory, outputs, pid, nonces, {})
  {
    hide OnSomeWay, IsQuarantine, AllNames;
  }

  /** A refused quarantine that is left is no other kind of residue. */
  lemma RefusedResidue(v: Volume, early: Volume, w: Volume, anchor: Object, directory: seq<string>, root: Object,
                       outputs: seq<Output>, pid: string, nonces: seq<string>)
    requires Grown(v, early, anchor, directory, outputs, {}) && Reaches(early, anchor, directory, root)
    requires QuarantineLeft(early, w, root, pid, nonces)
    ensures OnlyResidue(v, w, anchor, directory, outputs, pid, nonces, {})
  {
    hide Reaches, OnSomeWay, QuarantineName, AllNames, IsQuarantineName;
    assert KeepsPaths(early, w, Names(directory));
    StillReaches(early, w, anchor, directory, root);
    forall n | n in nonces ensures IsQuarantineName(QuarantineName(pid, n), pid, n) {
      QuarantineNameIs(pid, n);
    }
    assert forall s | s in early.links :: s in w.links && w.links[s] == early.links[s];
    forall s | s in w.links && s !in v.links
      ensures IsOnTheWay(w, anchor, directory, outputs, s) || IsQuarantine(w, anchor, directory, pid, nonces, s)
    {
      if s in early.links {
        SomeWayRemains(early, w, anchor, directory, outputs, s);
      }
    }
  }

  lemma SomeWayRemains(v: Volume, w: Volume, anchor: Object, directory: seq<string>, outputs: seq<Output>, s: Slot)
    requires OnSomeWay(v, anchor, directory, outputs, s) && DirectoriesKept(v, w)
    requires forall t | t in v.links :: t in w.links && w.links[t] == v.links[t]
    ensures OnSomeWay(w, anchor, directory, outputs, s)
  {
    hide Reaches, Way;
    if k: nat :| OnWalkAt(v, anchor, directory, k, s) {
      assert KeepsPaths(v, w, Names(directory[..k]));
      StillReaches(v, w, anchor, directory[..k], s.directory);
      assert OnWalkAt(w, anchor, directory, k, s);
    } else {
      var j: nat, k: nat :| j < |outputs| && OnWalkAt(v, anchor, Way(directory, outputs[j]), k, s);
      var way := Way(directory, outputs[j]);
      assert KeepsPaths(v, w, Names(way[..k]));
      StillReaches(v, w, anchor, way[..k], s.directory);
      assert OnWalkAt(w, anchor, way, k, s);
    }
  }

  /** Putting one kept object into the quarantine. */
  lemma ResidueWithFile(v: Volume, m: Volume, w: Volume, anchor: Object, directory: seq<string>, outputs: seq<Output>,
                        pid: string, nonces: seq<string>, kept: set<Object>, t: Slot, s: Slot, f: Object)
    requires OnlyResidue(v, m, anchor, directory, outputs, pid, nonces, {}) && DirectoriesKept(m, w)
    requires IsQuarantine(m, anchor, directory, pid, nonces, t) && m.links[t] == s.directory
    requires s !in m.links && w.links == m.links[s := f] && f in kept
    ensures OnlyResidue(v, w, anchor, directory, outputs, pid, nonces, kept)
  {
    hide Reaches, OnSomeWay, QuarantineName, AllNames;
    assert KeepsPaths(m, w, Names(directory));
    forall r | r in m.links && IsQuarantine(m, anchor, directory, pid, nonces, r)
      ensures IsQuarantine(w, anchor, directory, pid, nonces, r)
    {
      StillReaches(m, w, anchor, directory, r.directory);
    }
    forall r | r in w.links && r !in v.links
      ensures || IsOnTheWay(w, anchor, directory, outputs, r)
              || IsQuarantine(w, anchor, directory, pid, nonces, r)
              || IsKept(w, anchor, directory, pid, nonces, kept, r)
    {
      if r == s {
        assert LeadsOn(w, t) && w.links[t] == s.directory;
      } else if IsOnTheWay(m, anchor, directory, outputs, r) {
        SomeWayRemains(m, w, anchor, directory, outputs, r);
      }
    }
  }

  // --- After empty directories have been removed ------------------------------

  /** The way to a name that is still there is still there. */
  lemma {:induction false} ReachesShrinks(m: Volume, w: Volume, some: set<Slot>, start: Object, path: seq<string>,
                                          s: Slot)
    requires Dropped(m.links, w.links, some) && DirectoriesKept(m, w)
    requires Reaches(m, start, path, s.directory) && s in w.links
    ensures Reaches(w, start, path, s.directory)
    decreases |path|
  {
    if path != [] {
      var front, name := path[..|path| - 1], path[|path| - 1];
      var p := LastStep(m, start, path, s.directory);
      var t := Slot(p, name);
      assert t in w.links;
      ReachesShrinks(m, w, some, start, front, t);
      ReachesOneMore(w, start, front, t);
      assert path == front + [name];
    }
  }

  lemma ResidueShrinks(v: Volume, m: Volume, w: Volume, anchor: Object, directory: seq<string>, outputs: seq<Output>,
                       pid: string, nonces: seq<string>, kept: set<Object>, some: set<Slot>)
    requires OnlyResidue(v, m, anchor, directory, outputs, pid, nonces, kept)
    requires Dropped(m.links, w.links, some) && some !! v.links.Keys && DirectoriesKept(m, w)
    ensures OnlyResidue(v, w, anchor, directory, outputs, pid, nonces, kept)
  {
    hide Reaches, OnSomeWay, QuarantineName, AllNames;
    forall s | s in w.links && s !in v.links
      ensures || IsOnTheWay(w, anchor, directory, outputs, s)
              || IsQuarantine(w, anchor, directory, pid, nonces, s)
              || IsKept(w, anchor, directory, pid, nonces, kept, s)
    {
      if IsOnTheWay(m, anchor, directory, outputs, s) {
        SomeWayShrinks(m, w, some, anchor, directory, outputs, s);
      } else if IsQuarantine(m, anchor, directory, pid, nonces, s) {
        ReachesShrinks(m, w, some, anchor, directory, s);
      } else {
        var t :| LeadsOn(m, t) && m.links[t] == s.directory && IsQuarantine(m, anchor, directory, pid, nonces, t);
        assert t in w.links;
        ReachesShrinks(m, w, some, anchor, directory, t);
        assert LeadsOn(w, t) && w.links[t] == s.directory;
      }
    }
  }

  lemma SomeWayShrinks(m: Volume, w: Volume, some: set<Slot>, anchor: Object, directory: seq<string>,
                       outputs: seq<Output>, s: Slot)
    requires OnSomeWay(m, anchor, directory, outputs, s) && s in w.links
    requires Dropped(m.links, w.links, some) && DirectoriesKept(m, w)
    ensures OnSomeWay(w, anchor, directory, outputs, s)
  {
    hide Reaches, Way, Dropped, DirectoriesKept;
    if k: nat :| OnWalkAt(m, anchor, directory, k, s) {
      ReachesShrinks(m, w, some, anchor, directory[..k], s);
      assert OnWalkAt(w, anchor, directory, k, s);
    } else {
      var j: nat, k: nat :| j < |outputs| && OnWalkAt(m, anchor, Way(directory, outputs[j]), k, s);
      var way := Way(directory, outputs[j]);
      ReachesShrinks(m, w, some, anchor, way[..k], s);
      assert OnWalkAt(w, anchor, way, k, s);
    }
  }

  // --- What giving up leaves, seen from the settled names ---------------------

  /** At most one kept object more, in the quarantine. */
  ghost predicate InsideOnly(a: Links, m: Links, q: Object, kept: set<Object>) {
    || m == a
    || exists s: Slot, f :: s !in a && s.directory == q && f in kept && m == a[s := f]
  }

  /** At most one kept object more, in the quarantine, and some empty directories less. */
  ghost predicate LeftBehind(a: Links, b: Links, some: set<Slot>, q: Object, kept: set<Object>) {
    exists m :: InsideOnly(a, m, q, kept) && Dropped(m, b, some)
  }

  lemma LeftBehindIs(a: Links, m: Links, b: Links, some: set<Slot>, q: Object, kept: set<Object>)
    requires InsideOnly(a, m, q, kept) && Dropped(m, b, some)
    ensures LeftBehind(a, b, some, q, kept)
  {
  }

  lemma LeftBehindIsResidue(v: Volume, base: Volume, w: Volume, anchor: Object, directory: seq<string>,
                            outputs: seq<Output>, pid: string, nonces: seq<string>, some: set<Slot>, t: Slot,
                            kept: set<Object>)
    requires Grown(v, base, anchor, directory, outputs, {t}) && IsQuarantine(base, anchor, directory, pid, nonces, t)
    requires LeftBehind(base.links, w.links, some, base.links[t], kept) && some !! v.links.Keys
    requires DirectoriesKept(base, w)
    ensures OnlyResidue(v, w, anchor, directory, outputs, pid, nonces, kept)
  {
    assert t in base.links;
    hide Grown, IsQuarantine, OnlyResidue, Dropped;
    GrownResidue(v, base, anchor, directory, outputs, pid, nonces, {t});
    var links :| InsideOnly(base.links, links, base.links[t], kept) && Dropped(links, w.links, some);
    var m := w.(links := links);
    if links == base.links {
      ResidueWidens(v, base, anchor, directory, outputs, pid, nonces, {}, kept);
      ResidueStays(v, base, m, anchor, directory, outputs, pid, nonces, kept);
    } else {
      var s: Slot, f :| s !in base.links && s.directory == base.links[t] && f in kept && links == base.links[s := f];
      ResidueWithFile(v, base, m, anchor, directory, outputs, pid, nonces, kept, t, s, f);
    }
    ResidueShrinks(v, m, w, anchor, directory, outputs, pid, nonces, kept, some);
  }

  lemma ResidueStays(v: Volume, m: Volume, w: Volume, anchor: Object, directory: seq<string>, outputs: seq<Output>,
                     pid: string, nonces: seq<string>, kept: set<Object>)
    requires OnlyResidue(v, m, anchor, directory, outputs, pid, nonces, kept)
    requires w.links == m.links && DirectoriesKept(m, w)
    ensures OnlyResidue(v, w, anchor, directory, outputs, pid, nonces, kept)
  {
    hide OnlyResidue;
    NothingDropped(m.links, {});
    ResidueShrinks(v, m, w, anchor, directory, outputs, pid, nonces, kept, {});
  }
}
