/**
 When a publication is bound to succeed: a condition on the volume and the outputs that
 can be checked before the first call, and what becomes of it on the way to the point at
 which all names are settled.
*/
module Readiness {
  import opened Namespace
  import opened Walks
  import opened Rollback
  import opened Directories
  import opened Progress
  import opened Phases
  import opened Entries

  // --- The condition ----------------------------------------------------------

  /** A path relative to the output directory that cannot leave it. */
  predicate SafePath(path: seq<string>) {
    path != [] && forall n | n in path :: n !in ["", ".", ".."]
  }

  /** No name of a file inside the output directory. */
  ghost predicate Escapes(path: seq<string>) {
    path == [] || "" in path || "." in path || ".." in path
  }

  /** No name on the volume or in a path is one that a quarantine may be moved to for removal. */
  ghost predicate Unforeseen(links: Links, names: set<string>, pid: string, nonces: seq<string>) {
    forall n | n in nonces ::
      var cleanup := CleanupName(QuarantineName(pid, n), pid);
      cleanup !in names && forall s | s in links :: s.name != cleanup
  }

  /** No component of an output path is a name that a quarantine may take. */
  ghost predicate Unguessed(outputs: seq<Output>, pid: string, nonces: seq<string>) {
    forall n | n in nonces :: QuarantineName(pid, n) !in PathNames(outputs)
  }

  /** The names that stand beside a target during the transaction. */
  function Companions(name: string, pid: string): set<string> {
    {Beside(name, ".tmp-" + pid), Beside(name, ".backup-" + pid), Beside(name, ".rename-probe-" + pid)}
  }

  function NameOf(output: Output): string
    requires output.path != []
  {
    output.path[|output.path| - 1]
  }

  /** All components of all paths. */
  function AllNames(directory: seq<string>, outputs: seq<Output>): set<string> {
    Names(directory) + PathNames(outputs)
  }

  /** Nothing in any path is named like a companion of an output, or like a directory on its way out. */
  ghost predicate NamesApart(names: set<string>, outputs: seq<Output>, pid: string) {
    && CleanupsApart(names, names, pid)
    && forall o | o in outputs && o.path != [] :: Companions(NameOf(o), pid) !! names
  }

  /** The names that a quarantine may take are used nowhere else. */
  ghost predicate Fresh(links: Links, names: set<string>, outputs: seq<Output>, pid: string, nonces: seq<string>) {
    forall n | n in nonces ::
      var q := QuarantineName(pid, n);
      && q !in names && (forall s | s in links :: s.name != q)
      && (forall m | m in names :: CleanupName(m, pid) != q)
      && forall o | o in outputs && o.path != [] :: q !in Companions(NameOf(o), pid)
  }

  /**
   Where the output will be: the last directory on its way that exists, and the names
   below it, its own included, that lead to no directory yet.
  */
  ghost function PlaceOf(v: Volume, anchor: Object, directory: seq<string>, output: Output): Place {
    Locate(v, anchor, directory + output.path)
  }

  /**
   The target is no directory.  If its directory exists, its companions are free (and
   the target itself is absent or a regular file); else nothing stands where the first
   missing directory has to be made, nor where it would be moved for removal.
  */
  ghost predicate PlaceReady(v: Volume, p: Place, pid: string) {
    && p.missing != []
    && if |p.missing| == 1 then
         forall n | n in Companions(p.missing[0], pid) :: Slot(p.directory, n) !in v.links
       else Clear(v, p, pid)
  }

  /** Two outputs are not the same, and neither is needed as a directory by the other. */
  ghost predicate PlacesApart(v: Volume, anchor: Object, directory: seq<string>, outputs: seq<Output>) {
    forall i, j | 0 <= i < |outputs| && 0 <= j < |outputs| && i != j ::
      var p, r := PlaceOf(v, anchor, directory, outputs[i]), PlaceOf(v, anchor, directory, outputs[j]);
      !(p.directory == r.directory && p.missing <= r.missing)
  }

  /** The publication can go through. */
  ghost predicate Ready(v: Volume, anchor: Object, directory: seq<string>, outputs: seq<Output>, pid: string,
                        nonces: seq<string>) {
    && (forall o | o in outputs :: !Escapes(o.path))
    && Walkable(v, anchor, directory, pid)
    && (forall i | 0 <= i < |outputs| :: PlaceReady(v, PlaceOf(v, anchor, directory, outputs[i]), pid))
    && PlacesApart(v, anchor, directory, outputs)
    && NamesApart(AllNames(directory, outputs), outputs, pid)
    && Fresh(v.links, AllNames(directory, outputs), outputs, pid, nonces)
    && Unforeseen(v.links, AllNames(directory, outputs), pid, nonces)
  }

  /** An empty directory is ready for one output whose name has nothing to do with the names of the transaction. */
  lemma EmptyDirectoryIsReady(v: Volume, anchor: Object, name: string, contents: Bytes, pid: string,
                              nonces: seq<string>)
    requires v.links == map[] && name !in ["", ".", ".."]
    requires forall n | n in nonces ::
               var q := QuarantineName(pid, n);
               && name != q && name != CleanupName(q, pid)
               && q != CleanupName(name, pid) && q !in Companions(name, pid)
    ensures Ready(v, anchor, [], [Output([name], contents)], pid, nonces)
  {
    hide QuarantineName;
    var outputs := [Output([name], contents)];
    assert AllNames([], outputs) == {name} by {
      assert outputs[0].path[0] == name && name in outputs[0].path && outputs[0] in outputs;
    }
    CleanupNameDiffers(name, pid);
    assert name !in Companions(name, pid) by {
      BesideIsAnother(name, ".tmp-" + pid);
      BesideIsAnother(name, ".backup-" + pid);
      BesideIsAnother(name, ".rename-probe-" + pid);
    }
    assert [] + [name] == [name];
    assert PlaceOf(v, anchor, [], outputs[0]) == Place(anchor, [name]);
    hide CleanupName, Companions;
  }

  // --- The volume once directories have been made -----------------------------

  /** The way to an output's directory. */
  function Way(directory: seq<string>, output: Output): seq<string> {
    directory + Parents(output.path)
  }

  /** The name lies on the way to the output directory, or to the directory of some output. */
  ghost predicate OnSomeWay(w: Volume, anchor: Object, directory: seq<string>, outputs: seq<Output>, s: Slot) {
    || (exists k :: OnWalkAt(w, anchor, directory, k, s))
    || exists j, k :: 0 <= j < |outputs| && OnWalkAt(w, anchor, Way(directory, outputs[j]), k, s)
  }

  /** Only directories on the way to outputs were added, and names in `hidden`. */
  ghost predicate Grown(v: Volume, w: Volume, anchor: Object, directory: seq<string>, outputs: seq<Output>,
                        hidden: set<Slot>) {
    && Sprouted(v, w)
    && forall s | s in w.links && s !in v.links && s !in hidden ::
         s.name in AllNames(directory, outputs) && OnSomeWay(w, anchor, directory, outputs, s)
  }

  /** An output's place is that of its directory, and its name. */
  lemma PlaceOfIs(v: Volume, anchor: Object, directory: seq<string>, output: Output)
    requires output.path != [] && PlaceOf(v, anchor, directory, output).missing != []
    ensures var p := Locate(v, anchor, Way(directory, output));
            PlaceOf(v, anchor, directory, output) == Place(p.directory, p.missing + [NameOf(output)])
  {
    var way, name := Way(directory, output), NameOf(output);
    assert directory + output.path == way + [name];
    LocateFurther(v, anchor, way, [name]);
    assert [name][1..] == [];
  }

  /** Wherever a path is cut, the place of the whole begins with that of the front, if that is not a directory. */
  lemma LongerPlace(v: Volume, o: Object, path: seq<string>, front: seq<string>, rest: seq<string>)
    requires path == front + rest && Locate(v, o, front).missing != []
    ensures Locate(v, o, path) == Place(Locate(v, o, front).directory, Locate(v, o, front).missing + rest)
  {
    LocateFurther(v, o, front, rest);
  }

  /** A new name was missing before. */
  lemma NewNameIsMissing(v: Volume, w: Volume, anchor: Object, front: seq<string>, s: Slot)
    requires v.Valid() && Sprouted(v, w) && anchor in v.nodes && Reaches(w, anchor, front, s.directory)
    requires s !in v.links
    ensures var p := Locate(v, anchor, front);
            Locate(v, anchor, front + [s.name]) == Place(p.directory, p.missing + [s.name])
  {
    Located(v, w, anchor, front, s.directory);
    LocateFurther(v, anchor, front, [s.name]);
    assert [s.name][1..] == [];
  }

  /** A new name that is also an output's target would make the output's place a part of another's. */
  lemma TargetOnWay(v: Volume, w: Volume, anchor: Object, directory: seq<string>, output: Output, path: seq<string>,
                    k: nat, d: Object)
    requires v.Valid() && Sprouted(v, w) && anchor in v.nodes && output.path != []
    requires PlaceOf(v, anchor, directory, output).missing != []
    requires Reaches(w, anchor, Way(directory, output), d) && Slot(d, NameOf(output)) !in v.links
    requires OnWalkAt(w, anchor, path, k, Slot(d, NameOf(output)))
    ensures PlaceOf(v, anchor, directory, output) == Locate(v, anchor, path[..k + 1])
  {
    PlaceOfIs(v, anchor, directory, output);
    SamePlace(v, w, anchor, Way(directory, output), path[..k], d);
    NewNameIsMissing(v, w, anchor, path[..k], Slot(d, NameOf(output)));
    assert path[..k + 1] == path[..k] + [path[k]];
  }

  /** No directory was made where a target has to be. */
  lemma TargetIsNotMade(v: Volume, w: Volume, anchor: Object, directory: seq<string>, outputs: seq<Output>,
                        hidden: set<Slot>, i: nat, d: Object)
    requires v.Valid() && anchor in v.nodes && Grown(v, w, anchor, directory, outputs, hidden)
    requires i < |outputs| && forall j | 0 <= j < |outputs| :: outputs[j].path != []
    requires forall j | 0 <= j < |outputs| :: PlaceOf(v, anchor, directory, outputs[j]).missing != []
    requires PlacesApart(v, anchor, directory, outputs)
    requires Reaches(w, anchor, Way(directory, outputs[i]), d) && Slot(d, NameOf(outputs[i])) !in hidden
    ensures Slot(d, NameOf(outputs[i])) in w.links ==> Slot(d, NameOf(outputs[i])) in v.links
  {
    hide Sprouted, Reaches, Locate, AllNames, PlacesApart, Way, OnWalkAt;
    var s := Slot(d, NameOf(outputs[i]));
    if s in w.links && s !in v.links {
      assert OnSomeWay(w, anchor, directory, outputs, s);
      forall k ensures !OnWalkAt(w, anchor, directory, k, s) {
        OwnWayIsLonger(v, w, anchor, directory, outputs[i], directory, k, d);
      }
      forall j, k | 0 <= j < |outputs| ensures !OnWalkAt(w, anchor, Way(directory, outputs[j]), k, s) {
        if j == i {
          OwnWayIsLonger(v, w, anchor, directory, outputs[i], Way(directory, outputs[i]), k, d);
        } else {
          OtherWayIsApart(v, w, anchor, directory, outputs, i, j, k, d);
        }
      }
    }
  }

  lemma OtherWayIsApart(v: Volume, w: Volume, anchor: Object, directory: seq<string>, outputs: seq<Output>, i: nat,
                        j: nat, k: nat, d: Object)
    requires v.Valid() && Sprouted(v, w) && anchor in v.nodes
    requires i < |outputs| && j < |outputs| && i != j && outputs[i].path != [] && outputs[j].path != []
    requires PlaceOf(v, anchor, directory, outputs[i]).missing != []
    requires PlacesApart(v, anchor, directory, outputs)
    requires Reaches(w, anchor, Way(directory, outputs[i]), d) && Slot(d, NameOf(outputs[i])) !in v.links
    ensures !OnWalkAt(w, anchor, Way(directory, outputs[j]), k, Slot(d, NameOf(outputs[i])))
  {
    hide Sprouted, Reaches, Locate;
    var way := Way(directory, outputs[j]);
    if OnWalkAt(w, anchor, way, k, Slot(d, NameOf(outputs[i]))) {
      TargetOnWay(v, w, anchor, directory, outputs[i], way, k, d);
      var whole := directory + outputs[j].path;
      var front, rest := way[..k + 1], whole[k + 1..];
      assert whole == front + rest by {
        assert whole[..k + 1] == front;
      }
      LongerPlace(v, anchor, whole, front, rest);
    }
  }

  lemma OwnWayIsLonger(v: Volume, w: Volume, anchor: Object, directory: seq<string>, output: Output,
                       path: seq<string>, k: nat, d: Object)
    requires v.Valid() && Sprouted(v, w) && anchor in v.nodes && output.path != []
    requires PlaceOf(v, anchor, directory, output).missing != []
    requires Reaches(w, anchor, Way(directory, output), d) && Slot(d, NameOf(output)) !in v.links
    requires path == directory || path == Way(directory, output)
    ensures !OnWalkAt(w, anchor, path, k, Slot(d, NameOf(output)))
  {
    hide Sprouted, Reaches, Locate;
    if OnWalkAt(w, anchor, path, k, Slot(d, NameOf(output))) {
      TargetOnWay(v, w, anchor, directory, output, path, k, d);
      var whole := directory + output.path;
      var front, rest := path[..k + 1], whole[k + 1..];
      assert whole == front + rest by {
        assert whole[..k + 1] == front;
      }
      LongerPlace(v, anchor, whole, front, rest);
    }
  }

  /** A directory from before is where it was, with everything in it. */
  lemma OldDirectory(v: Volume, w: Volume, anchor: Object, path: seq<string>, d: Object)
    requires v.Valid() && Sprouted(v, w) && anchor in v.nodes && Reaches(w, anchor, path, d) && d in v.nodes
    ensures Locate(v, anchor, path) == Place(d, [])
  {
    Located(v, w, anchor, path, d);
    var p := Locate(v, anchor, path);
    if p.missing != [] {
      NewEnd(v, w, p.directory, p.missing, d);
    }
  }

  /** The target is absent or a regular file, wherever its directory has come from. */
  lemma TargetStaysAdmissible(v: Volume, w: Volume, anchor: Object, directory: seq<string>, outputs: seq<Output>,
                              hidden: set<Slot>, i: nat, d: Object)
    requires v.Valid() && anchor in v.nodes && Grown(v, w, anchor, directory, outputs, hidden)
    requires i < |outputs| && forall j | 0 <= j < |outputs| :: outputs[j].path != []
    requires forall j | 0 <= j < |outputs| :: PlaceOf(v, anchor, directory, outputs[j]).missing != []
    requires PlacesApart(v, anchor, directory, outputs)
    requires Reaches(w, anchor, Way(directory, outputs[i]), d) && Slot(d, NameOf(outputs[i])) !in hidden
    ensures IsRegularOrAbsent(w, Slot(d, NameOf(outputs[i])))
  {
    hide Reaches, Locate, PlacesApart;
    TargetIsNotMade(v, w, anchor, directory, outputs, hidden, i, d);
    var s := Slot(d, NameOf(outputs[i]));
    if s in v.links {
      OldDirectory(v, w, anchor, Way(directory, outputs[i]), d);
      PlaceOfIs(v, anchor, directory, outputs[i]);
      TargetIsNoDirectory(v, anchor, directory, outputs[i], d);
    }
  }

  lemma TargetIsNoDirectory(v: Volume, anchor: Object, directory: seq<string>, output: Output, d: Object)
    requires output.path != [] && PlaceOf(v, anchor, directory, output).missing != []
    requires Locate(v, anchor, Way(directory, output)) == Place(d, [])
    ensures !LeadsOn(v, Slot(d, NameOf(output)))
  {
    var way, name := Way(directory, output), NameOf(output);
    assert directory + output.path == way + [name];
    LocateFurther(v, anchor, way, [name]);
    assert [name][1..] == [];
  }

  /** The companions of a target are free, wherever its directory has come from. */
  lemma CompanionsStayFree(v: Volume, w: Volume, anchor: Object, directory: seq<string>, outputs: seq<Output>,
                           hidden: set<Slot>, pid: string, i: nat, d: Object, n: string)
    requires v.Valid() && anchor in v.nodes && Grown(v, w, anchor, directory, outputs, hidden)
    requires i < |outputs| && outputs[i].path != []
    requires PlaceReady(v, PlaceOf(v, anchor, directory, outputs[i]), pid)
    requires NamesApart(AllNames(directory, outputs), outputs, pid)
    requires Reaches(w, anchor, Way(directory, outputs[i]), d)
    requires n in Companions(NameOf(outputs[i]), pid) && Slot(d, n) !in hidden
    ensures Slot(d, n) !in w.links
  {
    hide Reaches, Locate, Companions, AllNames, OnSomeWay;
    assert outputs[i] in outputs;
    if Slot(d, n) in v.links {
      OldDirectory(v, w, anchor, Way(directory, outputs[i]), d);
      PlaceOfIs(v, anchor, directory, outputs[i]);
    }
  }

  /** Two outputs have different targets. */
  lemma TargetsAreApart(v: Volume, w: Volume, anchor: Object, directory: seq<string>, outputs: seq<Output>,
                        i: nat, j: nat, d: Object)
    requires v.Valid() && anchor in v.nodes && Sprouted(v, w)
    requires i < |outputs| && j < |outputs| && i != j && outputs[i].path != [] && outputs[j].path != []
    requires PlaceOf(v, anchor, directory, outputs[i]).missing != []
    requires PlaceOf(v, anchor, directory, outputs[j]).missing != []
    requires PlacesApart(v, anchor, directory, outputs)
    requires Reaches(w, anchor, Way(directory, outputs[i]), d) && Reaches(w, anchor, Way(directory, outputs[j]), d)
    ensures NameOf(outputs[i]) != NameOf(outputs[j])
  {
    hide Sprouted, Reaches, Locate;
    SamePlace(v, w, anchor, Way(directory, outputs[i]), Way(directory, outputs[j]), d);
    PlaceOfIs(v, anchor, directory, outputs[i]);
    PlaceOfIs(v, anchor, directory, outputs[j]);
  }

  // --- From the start to the settled names ------------------------------------

  lemma ReadyMeans(v: Volume, anchor: Object, directory: seq<string>, outputs: seq<Output>, pid: string,
                   nonces: seq<string>)
    requires Ready(v, anchor, directory, outputs, pid, nonces)
    ensures forall o | o in outputs :: SafePath(o.path)
    ensures forall i | 0 <= i < |outputs| :: outputs[i].path != []
    ensures forall i | 0 <= i < |outputs| :: PlaceReady(v, PlaceOf(v, anchor, directory, outputs[i]), pid)
    ensures forall i | 0 <= i < |outputs| :: PlaceOf(v, anchor, directory, outputs[i]).missing != []
    ensures Walkable(v, anchor, directory, pid) && PlacesApart(v, anchor, directory, outputs)
    ensures NamesApart(AllNames(directory, outputs), outputs, pid)
    ensures Fresh(v.links, AllNames(directory, outputs), outputs, pid, nonces)
    ensures Unforeseen(v.links, AllNames(directory, outputs), pid, nonces)
  {
    hide Walkable, PlacesApart, NamesApart, Fresh, Unforeseen, PlaceOf, Clear;
    assert forall o | o in outputs :: !Escapes(o.path);
    forall i | 0 <= i < |outputs|
      ensures outputs[i].path != [] && PlaceOf(v, anchor, directory, outputs[i]).missing != []
    {
      assert outputs[i] in outputs && PlaceReady(v, PlaceOf(v, anchor, directory, outputs[i]), pid);
    }
  }

  /** The output directory has been opened or made. */
  lemma GrownToRoot(v: Volume, w: Volume, anchor: Object, directory: seq<string>, outputs: seq<Output>)
    requires Extended(v, w, Names(directory), {}) && Along(v, w, anchor, directory, |directory|)
    ensures Grown(v, w, anchor, directory, outputs, {})
  {
    hide Sprouted, OnWalkAt;
    forall s | s in w.links && s !in v.links ensures OnSomeWay(w, anchor, directory, outputs, s) {
      var k :| 0 <= k < |directory| && OnWalkAt(w, anchor, directory, k, s);
    }
  }

  /** All directories have been made, and the quarantine. */
  lemma GrownToEntries(v: Volume, early: Volume, made: Volume, w: Volume, anchor: Object, directory: seq<string>,
                       root: Object, outputs: seq<Output>, slot: Slot)
    requires Grown(v, early, anchor, directory, outputs, {}) && Reaches(early, anchor, directory, root)
    requires Sprouted(early, made) && made.links.Keys == early.links.Keys + {slot}
    requires Extended(made, w, PathNames(outputs), {}) || exists q :: Extended(made, w, PathNames(outputs), {q})
    requires AlongSome(made, w, root, outputs)
    ensures Grown(v, w, anchor, directory, outputs, {slot})
  {
    hide Extended, Sprouted, PathNames, Names, OnWalkAt, OnSomeWay, Reaches, AlongSome;
    ExtendedMeans(made, w, PathNames(outputs));
    SproutedTwice(early, made, w);
    SproutedTwice(v, early, w);
    NothingForgotten(early, made);
    NothingForgotten(made, w);
    forall s | s in w.links && s !in v.links && s !in {slot}
      ensures s.name in AllNames(directory, outputs) && OnSomeWay(w, anchor, directory, outputs, s)
    {
      if s in early.links {
        SomeWayStays(early, w, anchor, directory, outputs, s);
      } else {
        assert s !in made.links;
        SomeWayFromRoot(early, made, w, anchor, directory, root, outputs, s);
      }
    }
  }

  lemma ExtendedMeans(v: Volume, w: Volume, names: set<string>)
    requires Extended(v, w, names, {}) || exists q :: Extended(v, w, names, {q})
    ensures Sprouted(v, w) && forall s | s in w.links && s !in v.links :: s.name in names
  {
  }

  lemma NothingForgotten(v: Volume, w: Volume)
    requires Sprouted(v, w)
    ensures v.links.Keys <= w.links.Keys
    ensures forall names :: KeepsPaths(v, w, names)
  {
  }

  lemma SomeWayStays(v: Volume, w: Volume, anchor: Object, directory: seq<string>, outputs: seq<Output>, s: Slot)
    requires OnSomeWay(v, anchor, directory, outputs, s) && Sprouted(v, w)
    ensures OnSomeWay(w, anchor, directory, outputs, s)
  {
    hide Sprouted, OnWalkAt, Way;
    if k :| OnWalkAt(v, anchor, directory, k, s) {
      OnWalkStays(v, w, anchor, directory, k, s);
    } else {
      var j, k :| 0 <= j < |outputs| && OnWalkAt(v, anchor, Way(directory, outputs[j]), k, s);
      OnWalkStays(v, w, anchor, Way(directory, outputs[j]), k, s);
    }
  }

  /** What lies on a way from the output directory lies on a way from the anchor. */
  lemma SomeWayFromRoot(early: Volume, made: Volume, w: Volume, anchor: Object, directory: seq<string>, root: Object,
                        outputs: seq<Output>, s: Slot)
    requires AlongSome(made, w, root, outputs) && s in w.links && s !in made.links
    requires Sprouted(early, w) && Reaches(early, anchor, directory, root)
    ensures OnSomeWay(w, anchor, directory, outputs, s)
  {
    hide Sprouted, Reaches;
    NothingForgotten(early, w);
    StillReaches(early, w, anchor, directory, root);
    var j: nat, k: nat :| j < |outputs| && OnWalkAt(w, root, Parents(outputs[j].path), k, s);
    var parents := Parents(outputs[j].path);
    ReachesJoin(w, anchor, directory, root, parents[..k], s.directory);
    assert (directory + parents)[..|directory| + k] == directory + parents[..k];
    assert OnWalkAt(w, anchor, Way(directory, outputs[j]), |directory| + k, s);
  }

  // --- What each phase needs --------------------------------------------------

  lemma {:induction false} AdmissibleWhere(v: Volume, o: Object, parents: seq<string>, name: string)
    requires var p := Locate(v, o, parents);
             if p.missing == [] then IsRegularOrAbsent(v, Slot(p.directory, name))
             else Slot(p.directory, p.missing[0]) !in v.links
    ensures Admissible(v, o, parents, name)
    decreases |parents|
  {
    if parents != [] && LeadsOn(v, Slot(o, parents[0])) {
      AdmissibleWhere(v, v.links[Slot(o, parents[0])], parents[1..], name);
    }
  }

  lemma {:induction false} LocatedFully(v: Volume, o: Object, path: seq<string>)
    requires Locate(v, o, path).missing == []
    ensures Reaches(v, o, path, Locate(v, o, path).directory)
    decreases |path|
  {
    if path != [] {
      LocatedFully(v, v.links[Slot(o, path[0])], path[1..]);
    }
  }

  lemma {:induction false} ReachedIsLocated(v: Volume, o: Object, path: seq<string>, end: Object)
    requires Reaches(v, o, path, end)
    ensures Locate(v, o, path) == Place(end, [])
    decreases |path|
  {
    if path != [] {
      ReachedIsLocated(v, v.links[Slot(o, path[0])], path[1..], end);
    }
  }

  /** The directory of every output can be made. */
  lemma WayIsWalkable(v: Volume, anchor: Object, directory: seq<string>, output: Output, pid: string)
    requires output.path != [] && PlaceReady(v, PlaceOf(v, anchor, directory, output), pid)
    ensures Walkable(v, anchor, Way(directory, output), pid)
  {
    hide Locate, Companions;
    PlaceOfIs(v, anchor, directory, output);
    var p := Locate(v, anchor, Way(directory, output));
    if p.missing != [] {
      assert (p.missing + [NameOf(output)])[0] == p.missing[0];
    }
  }

  /** The way from the anchor to an output's directory leads through the output directory. */
  lemma WalkableFromRoot(v: Volume, anchor: Object, directory: seq<string>, root: Object, rest: seq<string>, pid: string)
    requires Reaches(v, anchor, directory, root) && Walkable(v, anchor, directory + rest, pid)
    ensures Walkable(v, root, rest, pid)
  {
    ReachedIsLocated(v, anchor, directory, root);
    LocateFurther(v, anchor, directory, rest);
  }

  lemma NamesOnWay(directory: seq<string>, outputs: seq<Output>, i: nat)
    requires i < |outputs| && outputs[i].path != []
    ensures Names(Way(directory, outputs[i])) <= AllNames(directory, outputs)
    ensures NameOf(outputs[i]) in AllNames(directory, outputs)
  {
    ParentNames(outputs, i);
    var parents := Parents(outputs[i].path);
    forall n | n in Names(directory + parents) ensures n in Names(directory) + Names(parents) {
    }
  }

  /** Once the output directory exists, the directories of all outputs can be entered or made. */
  lemma ReadyAtRoot(v: Volume, early: Volume, anchor: Object, directory: seq<string>, root: Object,
                    outputs: seq<Output>, pid: string, nonces: seq<string>)
    requires v.Valid() && Ready(v, anchor, directory, outputs, pid, nonces)
    requires Extended(v, early, Names(directory), {}) && Reaches(early, anchor, directory, root)
    ensures AllWalkable(early, root, outputs, pid)
  {
    ReadyMeans(v, anchor, directory, outputs, pid, nonces);
    hide Ready, Extended, Walkable, PlaceReady, PlaceOf, PlacesApart, Fresh, Unforeseen, Reaches, Names, PathNames;
    ExtendedParts(v, early, Names(directory), {});
    forall i | 0 <= i < |outputs| ensures Walkable(early, root, Parents(outputs[i].path), pid) {
      WayIsWalkable(v, anchor, directory, outputs[i], pid);
      NamesOnWay(directory, outputs, i);
      WalkableStays(v, early, Names(directory), {}, anchor, Way(directory, outputs[i]), pid);
      WalkableFromRoot(early, anchor, directory, root, Parents(outputs[i].path), pid);
    }
  }

  /** The first preflight passes. */
  lemma ReadyIsAdmissible(v: Volume, early: Volume, anchor: Object, directory: seq<string>, root: Object,
                          outputs: seq<Output>, pid: string, nonces: seq<string>, i: nat)
    requires v.Valid() && anchor in v.nodes && Ready(v, anchor, directory, outputs, pid, nonces)
    requires Extended(v, early, Names(directory), {}) && Along(v, early, anchor, directory, |directory|)
    requires Reaches(early, anchor, directory, root) && AllWalkable(early, root, outputs, pid) && i < |outputs|
    ensures outputs[i].path != [] && Admissible(early, root, Parents(outputs[i].path), NameOf(outputs[i]))
  {
    ReadyMeans(v, anchor, directory, outputs, pid, nonces);
    GrownToRoot(v, early, anchor, directory, outputs);
    hide Ready, Extended, Reaches, Names, PathNames, Grown, Along, Locate, PlaceReady, PlacesApart, PlaceOf, Admissible,
         Fresh, Unforeseen, NamesApart, IsRegularOrAbsent;
    var parents := Parents(outputs[i].path);
    var p := Locate(early, root, parents);
    assert Walkable(early, root, parents, pid);
    if p.missing == [] {
      LocatedFully(early, root, parents);
      ReachesJoin(early, anchor, directory, root, parents, p.directory);
      TargetStaysAdmissible(v, early, anchor, directory, outputs, {}, i, p.directory);
    }
    AdmissibleWhere(early, root, parents, NameOf(outputs[i]));
  }

  /** Making the quarantine blocks no path. */
  lemma ReadyWithQuarantine(v: Volume, early: Volume, w: Volume, anchor: Object, directory: seq<string>, root: Object,
                            outputs: seq<Output>, pid: string, nonces: seq<string>, q: Quarantine)
    requires v.Valid() && early.Valid() && Ready(v, anchor, directory, outputs, pid, nonces)
    requires AllWalkable(early, root, outputs, pid) && QuarantineMade(early, w, root, pid, nonces, q)
    ensures AllWalkable(w, root, outputs, pid) && CleanupsApart(PathNames(outputs), PathNames(outputs), pid)
    ensures Sprouted(early, w) && w.links.Keys == early.links.Keys + {q.created.slot}
  {
    ReadyMeans(v, anchor, directory, outputs, pid, nonces);
    hide Ready, AllWalkable, PathNames, PlacesApart, PlaceReady, PlaceOf, Unforeseen, Walkable, QuarantineMade, Fresh,
         NamesApart, CleanupsApart, Sprouted, NewNames, Names;
    QuarantineSprouts(early, w, root, pid, nonces, q);
    NamesOfQuarantineApart(v.links, directory, outputs, pid, nonces, q.created.slot.name);
    AllStayWalkable(early, w, root, outputs, pid, {q.created.slot.name}, {});
  }

  lemma QuarantineSprouts(v: Volume, w: Volume, root: Object, pid: string, nonces: seq<string>, q: Quarantine)
    requires v.Valid() && QuarantineMade(v, w, root, pid, nonces, q)
    ensures Sprouted(v, w) && NewNames(v, w, {q.created.slot.name}, {})
    ensures w.links.Keys == v.links.Keys + {q.created.slot}
    ensures exists n :: n in nonces && q.created.slot.name == QuarantineName(pid, n)
  {
    hide CleanupName, QuarantineName;
  }

  lemma NamesOfQuarantineApart(links: Links, directory: seq<string>, outputs: seq<Output>, pid: string,
                               nonces: seq<string>, name: string)
    requires NamesApart(AllNames(directory, outputs), outputs, pid)
    requires Fresh(links, AllNames(directory, outputs), outputs, pid, nonces)
    requires exists n :: n in nonces && name == QuarantineName(pid, n)
    ensures CleanupsApart(PathNames(outputs), PathNames(outputs), pid)
    ensures CleanupsApart(PathNames(outputs), {name}, pid)
  {
    hide PathNames, CleanupName, QuarantineName, Companions;
  }

  /** The name of the first quarantine is free. */
  lemma ReadyToDraw(v: Volume, early: Volume, anchor: Object, directory: seq<string>, root: Object,
                    outputs: seq<Output>, pid: string, nonces: seq<string>)
    requires Ready(v, anchor, directory, outputs, pid, nonces) && |nonces| > 0
    requires Extended(v, early, Names(directory), {})
    ensures Slot(root, QuarantineName(pid, nonces[0])) !in early.links
  {
    ReadyMeans(v, anchor, directory, outputs, pid, nonces);
    hide Ready, Walkable, PlaceReady, PlacesApart, Unforeseen, NamesApart, PathNames, Names;
    ExtendedParts(v, early, Names(directory), {});
    hide Extended, Sprouted;
    assert nonces[0] in nonces;
  }

  // --- The entries ------------------------------------------------------------

  /** The entry's directory is the one to which its output's way leads. */
  ghost predicate OnItsWay(w: Volume, anchor: Object, directory: seq<string>, output: Output, e: OutputEntry, i: nat,
                           q: Object, pid: string) {
    && output.path != []
    && e == EntryFor(e.target.directory, NameOf(output), i, q, pid, output.contents)
    && e.target.directory != q
    && Reaches(w, anchor, Way(directory, output), e.target.directory)
  }

  lemma EntriesAreOnTheirWay(w: Volume, anchor: Object, directory: seq<string>, root: Object, outputs: seq<Output>,
                             entries: seq<OutputEntry>, q: Object, pid: string, i: nat)
    requires Reaches(w, anchor, directory, root) && i < |entries|
    requires Rooted(w, root, outputs, entries, q) && BuiltFrom(entries, outputs, q, pid)
    ensures i < |outputs| && OnItsWay(w, anchor, directory, outputs[i], entries[i], i, q, pid)
  {
    hide Reaches, EntryFor;
    var e := entries[i];
    ReachesJoin(w, anchor, directory, root, Parents(outputs[i].path), e.target.directory);
  }

  /** What is known at the point at which all names are settled. */
  ghost predicate Settled(v: Volume, w: Volume, anchor: Object, directory: seq<string>, outputs: seq<Output>,
                          entries: seq<OutputEntry>, slot: Slot, q: Object, pid: string, nonces: seq<string>) {
    && v.Valid() && anchor in v.nodes && Ready(v, anchor, directory, outputs, pid, nonces)
    && Grown(v, w, anchor, directory, outputs, {slot}) && NothingIn(w.links, q)
    && (exists n :: n in nonces && slot.name == QuarantineName(pid, n))
    && |entries| == |outputs|
    && forall i {:trigger entries[i]} | 0 <= i < |entries| ::
         OnItsWay(w, anchor, directory, outputs[i], entries[i], i, q, pid)
  }

  lemma SlotIsApart(v: Volume, anchor: Object, directory: seq<string>, outputs: seq<Output>, i: nat, slot: Slot,
                    pid: string, nonces: seq<string>)
    requires Ready(v, anchor, directory, outputs, pid, nonces) && i < |outputs| && outputs[i].path != []
    requires exists n :: n in nonces && slot.name == QuarantineName(pid, n)
    ensures slot.name != NameOf(outputs[i]) && slot.name !in Companions(NameOf(outputs[i]), pid)
  {
    ReadyMeans(v, anchor, directory, outputs, pid, nonces);
    hide Ready, Walkable, PlaceReady, PlacesApart, Unforeseen, NamesApart, AllNames, Companions, QuarantineName, CleanupName;
    NamesOnWay(directory, outputs, i);
    assert outputs[i] in outputs;
  }

  lemma SettledEntryIsPreparable(v: Volume, w: Volume, anchor: Object, directory: seq<string>, outputs: seq<Output>,
                                 entries: seq<OutputEntry>, slot: Slot, q: Object, pid: string, nonces: seq<string>,
                                 i: nat)
    requires Settled(v, w, anchor, directory, outputs, entries, slot, q, pid, nonces) && i < |entries|
    ensures Preparable(w, entries[i])
  {
    hide Ready, Grown, Reaches, Walkable, PlaceReady, PlacesApart, PlaceOf, NamesApart, Fresh, Unforeseen, AllNames,
         Beside, ClaimName, QuarantineName, Way, EntryFor, Companions, Volume.Valid, IsRegularOrAbsent, NothingIn;
    ReadyMeans(v, anchor, directory, outputs, pid, nonces);
    var e, d := entries[i], entries[i].target.directory;
    assert OnItsWay(w, anchor, directory, outputs[i], e, i, q, pid);
    SlotIsApart(v, anchor, directory, outputs, i, slot, pid, nonces);
    TargetStaysAdmissible(v, w, anchor, directory, outputs, {slot}, i, d);
    forall n | n in Companions(NameOf(outputs[i]), pid) ensures Slot(d, n) !in w.links {
      CompanionsStayFree(v, w, anchor, directory, outputs, {slot}, pid, i, d, n);
    }
    EntryIsPreparable(w, anchor, directory, outputs[i], e, i, q, pid);
  }

  /** With its target admissible and everything beside it free, an entry can be prepared. */
  lemma EntryIsPreparable(w: Volume, anchor: Object, directory: seq<string>, output: Output, e: OutputEntry, i: nat,
                          q: Object, pid: string)
    requires OnItsWay(w, anchor, directory, output, e, i, q, pid) && NothingIn(w.links, q)
    requires IsRegularOrAbsent(w, Slot(e.target.directory, NameOf(output)))
    requires forall n | n in Companions(NameOf(output), pid) :: Slot(e.target.directory, n) !in w.links
    ensures Preparable(w, e)
  {
    hide Reaches, Way, Beside, ClaimName;
  }

  lemma SettledPairIsApart(v: Volume, w: Volume, anchor: Object, directory: seq<string>, outputs: seq<Output>,
                           entries: seq<OutputEntry>, slot: Slot, q: Object, pid: string, nonces: seq<string>,
                           i: nat, j: nat)
    requires Settled(v, w, anchor, directory, outputs, entries, slot, q, pid, nonces) && i < |entries| && j < |entries|
    ensures i != j ==> entries[i].target != entries[j].target
    ensures entries[i].target !in {entries[j].temporary, entries[j].backup}
  {
    ReadyMeans(v, anchor, directory, outputs, pid, nonces);
    var a, b := entries[i], entries[j];
    assert OnItsWay(w, anchor, directory, outputs[i], a, i, q, pid);
    assert OnItsWay(w, anchor, directory, outputs[j], b, j, q, pid);
    hide Ready, Reaches, Walkable, PlaceReady, PlacesApart, PlaceOf, Fresh, Unforeseen, AllNames, Beside, ClaimName, Way;
    NamesOnWay(directory, outputs, i);
    assert outputs[j] in outputs;
    if i != j && a.target == b.target {
      TargetsAreApart(v, w, anchor, directory, outputs, i, j, a.target.directory);
    }
  }

  /** A publication that can go through meets no obstacle once all names are settled. */
  lemma SettledIsReady(v: Volume, w: Volume, anchor: Object, directory: seq<string>, outputs: seq<Output>,
                       entries: seq<OutputEntry>, slot: Slot, q: Object, pid: string, nonces: seq<string>)
    requires Settled(v, w, anchor, directory, outputs, entries, slot, q, pid, nonces)
    ensures AllPreparable(w, entries) && Collisionless(entries)
  {
    hide Settled, Preparable;
    forall i {:trigger entries[i]} | 0 <= i < |entries| ensures Preparable(w, entries[i]) {
      SettledEntryIsPreparable(v, w, anchor, directory, outputs, entries, slot, q, pid, nonces, i);
    }
    forall i, j {:trigger entries[i], entries[j]} | 0 <= i < |entries| && 0 <= j < |entries|
      ensures i != j ==> entries[i].target != entries[j].target
      ensures entries[i].target !in {entries[j].temporary, entries[j].backup}
    {
      SettledPairIsApart(v, w, anchor, directory, outputs, entries, slot, q, pid, nonces, i, j);
    }
  }
}
