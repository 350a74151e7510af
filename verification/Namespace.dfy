/**
 A file system reduced to what publication relies on: names that lead to objects,
 objects with contents and an inode number, and open descriptors.

 `Kernel` holds one volume and offers the calls that the transaction makes.  Every
 call may fail, and before every call another process may change any name outside
 the directories that only this user can write.
*/
module Namespace {
  import opened Wrappers

  /** A file or directory object.  Objects are never reused; inode numbers are. */
  type Object = nat
  type Inode = nat
  type Bytes = seq<bv8>

  datatype Slot = Slot(directory: Object, name: string)

  type Links = map<Slot, Object>

  datatype Node = File(contents: Bytes) | Directory

  datatype Volume = Volume(links: Links, nodes: map<Object, Node>, inode: map<Object, Inode>, open: set<Object>) {
    /** A live object has a name or an open descriptor. */
    function Live(): set<Object> {
      links.Values + open
    }

    /** Only live objects are sure to have an inode number of their own. */
    predicate Valid() {
      && links.Values <= nodes.Keys && open <= nodes.Keys
      && nodes.Keys == inode.Keys
      && (forall s | s in links :: s.directory in nodes)
      && (forall a, b | a in Live() && b in Live() :: inode[a] == inode[b] ==> a == b)
    }
  }

  predicate Holds(links: Links, s: Slot, o: Object) {
    s in links && links[s] == o
  }

  /** What a flush puts on the disk: the names in a directory, or the contents of a file. */
  datatype Image = Gone | Listing(links: Links) | Text(contents: Bytes)

  function ImageOf(v: Volume, o: Object): Image {
    if o !in v.nodes then Gone
    else if v.nodes[o].File? then Text(v.nodes[o].contents)
    else Listing(map s | s in v.links && s.directory == o :: v.links[s])
  }

  /** The disk has the object as it is now: nothing has changed since it was last flushed. */
  ghost predicate IsStored(v: Volume, stored: map<Object, Image>, o: Object) {
    o in stored && stored[o] == ImageOf(v, o)
  }

  /** No name lies in the directory. */
  ghost predicate NothingIn(links: Links, directory: Object) {
    forall s | s in links :: s.directory != directory
  }

  ghost predicate IsEmptyDirectory(v: Volume, s: Slot) {
    s in v.links && v.links[s] in v.nodes && v.nodes[v.links[s]].Directory? && NothingIn(v.links, v.links[s])
  }

  /** The two namespaces agree on every name outside `changed`. */
  ghost predicate AgreeOutside(a: Links, b: Links, changed: set<Slot>) {
    forall s :: s !in changed ==> (s in a <==> s in b) && (s in a ==> a[s] == b[s])
  }

  /** Every name outside `changed` still leads where it led. */
  ghost predicate KeepsAllBut(a: Links, b: Links, changed: set<Slot>) {
    forall s | s in a && s !in changed :: s in b && b[s] == a[s]
  }

  function Moved(links: Links, src: Slot, dst: Slot): Links
    requires src in links
  {
    (links - {src})[dst := links[src]]
  }

  lemma MovedAgrees(links: Links, src: Slot, dst: Slot)
    requires src in links
    ensures AgreeOutside(links, Moved(links, src, dst), {src, dst})
  {
  }

  lemma MovedTwice(links: Links, src: Slot, via: Slot, dst: Slot)
    requires src in links && via !in links
    ensures Moved(Moved(links, src, via), via, dst) == (links - {src})[dst := links[src]]
    ensures dst !in links && dst != via ==> dst !in Moved(links, src, via)
  {
    assert Moved(links, src, via) - {via} == links - {src};
  }

  lemma AgreementIsTransitive(a: Links, b: Links, c: Links, changed: set<Slot>)
    requires AgreeOutside(a, b, changed) && AgreeOutside(b, c, changed)
    ensures AgreeOutside(a, c, changed)
  {
  }

  lemma AgreementWidens(a: Links, b: Links, changed: set<Slot>, more: set<Slot>)
    requires AgreeOutside(a, b, changed) && changed <= more
    ensures AgreeOutside(a, b, more)
  {
  }

  lemma MovedKeepsObjects(links: Links, src: Slot, dst: Slot)
    requires src in links && dst !in links
    ensures Moved(links, src, dst).Values == links.Values
  {
    var moved := Moved(links, src, dst);
    forall o | o in links.Values ensures o in moved.Values {
      var s :| s in links && links[s] == o;
      assert if s == src then Holds(moved, dst, o) else Holds(moved, s, o);
    }
  }

  lemma UnlinkedKeepsOthers(links: Links, s: Slot)
    requires s in links
    ensures links.Values - {links[s]} <= (links - {s}).Values <= links.Values
  {
    forall o | o in links.Values && o != links[s] ensures o in (links - {s}).Values {
      var r :| r in links && links[r] == o;
      assert Holds(links - {s}, r, o);
    }
  }

  lemma LinkedAddsOne(links: Links, s: Slot, o: Object)
    requires s !in links
    ensures links[s := o].Values == links.Values + {o}
  {
    forall p | p in links.Values ensures p in links[s := o].Values {
      var r :| r in links && links[r] == p;
      assert Holds(links[s := o], r, p);
    }
    assert Holds(links[s := o], s, o);
  }

  /** A file that stood at a target name before publication, and the places it may pass through. */
  datatype Original = Original(file: Object, target: Slot, backup: Slot, claim: Slot) {
    function Places(): set<Slot> {
      {target, backup, claim}
    }

    predicate AtExactlyOne(links: Links) {
      target != backup && target != claim && backup != claim &&
      var t, b, c := Holds(links, target, file), Holds(links, backup, file), Holds(links, claim, file);
      (t && !b && !c) || (!t && b && !c) || (!t && !b && c)
    }

    /** Moving src to dst leaves the original at exactly one of its places. */
    predicate KeptByMove(links: Links, src: Slot, dst: Slot)
      requires src in links
    {
      || links[src] != file
      || (src in Places() && dst in Places())
      || (src !in Places() && dst !in Places())
    }
  }

  ghost predicate AllKeptByMove(originals: set<Original>, links: Links, src: Slot, dst: Slot) {
    src in links && dst !in links ==> forall w | w in originals :: w.KeptByMove(links, src, dst)
  }

  /** What another process may do: change any name outside the shielded directories, create objects, write files. */
  predicate Interference(v: Volume, w: Volume, shield: set<Object>) {
    && w.Valid()
    && v.nodes.Keys <= w.nodes.Keys
    && (forall o | o in v.nodes.Keys ::
          o in v.inode && w.inode[o] == v.inode[o] && w.nodes[o].File? == v.nodes[o].File?)
    && (forall s | s in v.links.Keys && s.directory in shield :: s in w.links && w.links[s] == v.links[s])
    && (forall s | s in w.links.Keys && s.directory in shield :: s in v.links)
    && w.open == v.open
  }

  lemma InterferenceKeepsShape(v: Volume, w: Volume, shield: set<Object>)
    requires Interference(v, w, shield) && v.Valid()
    ensures w.Valid() && w.open == v.open && v.nodes.Keys <= w.nodes.Keys
    ensures w == v ==> Lost(v, w) == {}
  {
  }

  lemma MoveKeepsVolume(v: Volume, src: Slot, dst: Slot)
    requires v.Valid() && src in v.links && dst !in v.links && dst.directory in v.nodes
    ensures v.(links := Moved(v.links, src, dst)).Valid()
    ensures Moved(v.links, src, dst).Values == v.links.Values
  {
    MovedKeepsObjects(v.links, src, dst);
  }

  lemma MoveKeepsOriginals(originals: set<Original>, origin: Volume, links: Links, src: Slot, dst: Slot)
    requires src in links && dst !in links
    requires AllKeptByMove(originals, links, src, dst)
    requires Observed(originals, origin, links)
    ensures Observed(originals, origin, Moved(links, src, dst))
  {
  }

  lemma UnlinkKeepsVolume(v: Volume, s: Slot)
    requires v.Valid() && s in v.links
    ensures v.(links := v.links - {s}).Valid()
    ensures v.links.Values - {v.links[s]} <= (v.links - {s}).Values <= v.links.Values
  {
    UnlinkedKeepsOthers(v.links, s);
  }

  /** A new object under a free name, with an inode number that no live object has. */
  function WithObject(v: Volume, s: Slot, o: Object, i: Inode, node: Node, descriptors: set<Object>): Volume {
    Volume(v.links[s := o], v.nodes[o := node], v.inode[o := i], v.open + descriptors)
  }

  lemma CreationKeepsVolume(v: Volume, s: Slot, o: Object, i: Inode, node: Node, descriptors: set<Object>)
    requires v.Valid() && s !in v.links && s.directory in v.nodes && o !in v.nodes && descriptors <= {o}
    requires forall p | p in v.Live() :: v.inode[p] != i
    ensures WithObject(v, s, o, i, node, descriptors).Valid()
    ensures v.links[s := o].Values == v.links.Values + {o}
    ensures forall t | t in v.links :: t.directory != o
  {
    LinkedAddsOne(v.links, s, o);
    var w := WithObject(v, s, o, i, node, descriptors);
    assert w.Live() == v.Live() + {o};
    forall a, b | a in w.Live() && b in w.Live() && w.inode[a] == w.inode[b] ensures a == b {
    }
  }

  lemma CreationKeepsRecords(origin: Volume, recorded: map<Object, Inode>, v: Volume, s: Slot, o: Object, i: Inode,
                             node: Node, descriptors: set<Object>)
    requires o !in v.nodes && v.Valid() && Succeeds(origin, v) && Consistent(recorded, v.inode)
    ensures var w := WithObject(v, s, o, i, node, descriptors);
            && Succeeds(origin, w) && Consistent(recorded, w.inode) && InodesKept(v, w)
            && (Unchanged(origin.nodes, v.nodes) ==> Unchanged(origin.nodes, w.nodes))
  {
  }

  lemma CreationKeepsFiles(origin: Volume, staged: set<Object>, met: set<(Slot, Object)>, v: Volume, s: Slot,
                           o: Object, i: Inode, node: Node, descriptors: set<Object>)
    requires o !in v.nodes && OwnFiles(origin, v, staged) && MetFiles(v.nodes, met)
    ensures var w := WithObject(v, s, o, i, node, descriptors); OwnFiles(origin, w, staged) && MetFiles(w.nodes, met)
  {
  }

  lemma CreationKeepsClauses(origin: Volume, recorded: map<Object, Inode>, staged: set<Object>,
                             met: set<(Slot, Object)>, unlinked: set<Object>, touched: set<Object>, v: Volume, s: Slot,
                             o: Object, i: Inode, node: Node, descriptors: set<Object>)
    requires o !in v.nodes && s !in v.links && v.Valid() && Succeeds(origin, v) && Consistent(recorded, v.inode)
    requires OwnFiles(origin, v, staged) && MetFiles(v.nodes, met) && Survives(origin, v, unlinked, touched)
    ensures var w := WithObject(v, s, o, i, node, descriptors);
            && Succeeds(origin, w) && Consistent(recorded, w.inode) && InodesKept(v, w)
            && OwnFiles(origin, w, staged) && MetFiles(w.nodes, met) && Survives(origin, w, unlinked, touched)
            && (Unchanged(origin.nodes, v.nodes) ==> Unchanged(origin.nodes, w.nodes))
  {
    hide Succeeds, Consistent, Survives, Unchanged, InodesKept, OwnFiles, MetFiles;
    CreationKeepsRecords(origin, recorded, v, s, o, i, node, descriptors);
    CreationKeepsFiles(origin, staged, met, v, s, o, i, node, descriptors);
    CreationKeepsBooks(origin, v, s, o, i, node, descriptors, unlinked, touched);
  }

  lemma CreationKeepsOriginals(originals: set<Original>, origin: Volume, links: Links, s: Slot, o: Object)
    requires s !in links && o !in origin.nodes
    requires Observed(originals, origin, links)
    ensures Observed(originals, origin, links[s := o])
  {
  }

  lemma UnlinkKeepsOriginals(originals: set<Original>, origin: Volume, links: Links, s: Slot)
    requires s in links && forall w | w in originals :: w.file != links[s]
    requires Observed(originals, origin, links)
    ensures Observed(originals, origin, links - {s})
  {
  }

  // --- The clauses of the kernel's invariant ----------------------------------

  /** Objects persist, and files stay files. */
  ghost predicate Succeeds(origin: Volume, v: Volume) {
    && origin.links.Values <= origin.nodes.Keys <= v.nodes.Keys
    && forall o | o in origin.nodes :: v.nodes[o].File? == origin.nodes[o].File?
  }

  ghost predicate InodesKept(v: Volume, w: Volume) {
    forall o | o in v.inode :: o in w.inode && w.inode[o] == v.inode[o]
  }

  lemma OriginIsOld(origin: Volume, v: Volume)
    requires Succeeds(origin, v)
    ensures origin.nodes.Keys <= v.nodes.Keys
  {
  }

  lemma NamesDoNotMatter(origin: Volume, v: Volume, links: Links, staged: set<Object>)
    requires Succeeds(origin, v) && OwnFiles(origin, v, staged)
    ensures Succeeds(origin, v.(links := links)) && OwnFiles(origin, v.(links := links), staged)
  {
  }

  /** Inode numbers read once stay right. */
  ghost predicate Consistent(recorded: map<Object, Inode>, inode: map<Object, Inode>) {
    forall o | o in recorded :: o in inode && inode[o] == recorded[o]
  }

  /**
   Every file that had a name in the origin, and every file that has appeared since,
   has a name or lost its last one to an accounted removal.
  */
  ghost predicate Survives(origin: Volume, v: Volume, unlinked: set<Object>, touched: set<Object>) {
    forall o | o in v.nodes && v.nodes[o].File? && (o in origin.nodes ==> o in origin.links.Values) ::
      o in v.links.Values || o in unlinked || o in touched
  }

  /** The files created by this process are files, and new. */
  ghost predicate OwnFiles(origin: Volume, v: Volume, staged: set<Object>) {
    staged !! origin.nodes.Keys && AllFiles(v.nodes, staged)
  }

  ghost predicate AllFiles(nodes: map<Object, Node>, some: set<Object>) {
    forall o | o in some :: o in nodes && nodes[o].File?
  }

  /** Whatever was opened under a name as a regular file is one. */
  ghost predicate MetFiles(nodes: map<Object, Node>, met: set<(Slot, Object)>) {
    forall p | p in met :: p.1 in nodes && nodes[p.1].File?
  }

  ghost predicate Unchanged(before: map<Object, Node>, after: map<Object, Node>) {
    forall o | o in before :: o in after && after[o] == before[o]
  }

  ghost predicate Observed(watched: set<Original>, origin: Volume, links: Links) {
    forall w | w in watched :: w.file in origin.nodes && w.AtExactlyOne(links)
  }

  /** A rename that was allowed may also be undone. */
  lemma MoveBackIsKept(originals: set<Original>, links: Links, src: Slot, dst: Slot)
    requires src in links && dst !in links && AllKeptByMove(originals, links, src, dst)
    ensures AllKeptByMove(originals, Moved(links, src, dst), dst, src)
  {
  }

  /** Every original at `file` either has all of `places` among its places, or none. */
  ghost predicate TravelsWithin(originals: set<Original>, file: Object, places: set<Slot>) {
    forall w | w in originals :: w.file != file || places <= w.Places() || places !! w.Places()
  }

  lemma JourneyIsKept(originals: set<Original>, links: Links, src: Slot, dst: Slot, file: Object, places: set<Slot>)
    requires TravelsWithin(originals, file, places) && Holds(links, src, file) && src in places && dst in places
    ensures AllKeptByMove(originals, links, src, dst)
  {
    forall w | w in originals ensures w.KeptByMove(links, src, dst) {
    }
  }

  lemma MoveKeepsBooks(origin: Volume, v: Volume, src: Slot, dst: Slot, unlinked: set<Object>, touched: set<Object>)
    requires src in v.links && dst !in v.links
    requires Survives(origin, v, unlinked, touched)
    ensures Survives(origin, v.(links := Moved(v.links, src, dst)), unlinked, touched)
  {
    MovedKeepsObjects(v.links, src, dst);
  }

  lemma CreationKeepsBooks(origin: Volume, v: Volume, s: Slot, o: Object, i: Inode, node: Node,
                           descriptors: set<Object>, unlinked: set<Object>, touched: set<Object>)
    requires s !in v.links
    requires Survives(origin, v, unlinked, touched)
    ensures Survives(origin, WithObject(v, s, o, i, node, descriptors), unlinked, touched)
  {
    LinkedAddsOne(v.links, s, o);
  }

  lemma UnlinkKeepsBooks(origin: Volume, v: Volume, s: Slot, unlinked: set<Object>, touched: set<Object>)
    requires s in v.links && v.links[s] in v.nodes
    requires Survives(origin, v, unlinked, touched)
    requires v.links[s] in unlinked || v.nodes[v.links[s]].Directory?
    ensures Survives(origin, v.(links := v.links - {s}), unlinked, touched)
  {
    UnlinkedKeepsOthers(v.links, s);
  }

  /** What another process leaves without a name: files whose last name it removed, and files it made and removed. */
  function Lost(v: Volume, w: Volume): set<Object> {
    (v.links.Values + (w.nodes.Keys - v.nodes.Keys)) - w.links.Values
  }

  lemma InterferenceKeepsBooks(origin: Volume, v: Volume, w: Volume, shield: set<Object>, unlinked: set<Object>,
                               touched: set<Object>)
    requires Interference(v, w, shield)
    requires Survives(origin, v, unlinked, touched)
    ensures Survives(origin, w, unlinked, touched + Lost(v, w))
  {
  }

  lemma InterferenceKeepsRecords(origin: Volume, v: Volume, w: Volume, shield: set<Object>, staged: set<Object>,
                                 recorded: map<Object, Inode>, met: set<(Slot, Object)>)
    requires Interference(v, w, shield) && v.Valid()
    requires Succeeds(origin, v) && OwnFiles(origin, v, staged) && Consistent(recorded, v.inode) && MetFiles(v.nodes, met)
    ensures Succeeds(origin, w) && OwnFiles(origin, w, staged) && Consistent(recorded, w.inode) && MetFiles(w.nodes, met)
  {
  }

  datatype Moving = Done | Missing | Occupied | Fault

  datatype Creating = Created(made: Object) | Exists | CreateFault

  datatype Lookup = Found(found: Object) | NotFound | Refused

  datatype Target = Regular | Absent | Irregular

  /** An inode number that no live object has: possibly one that a removed file had before. */
  method UnusedInode(v: Volume) returns (i: Inode)
    requires v.Valid()
    ensures forall p | p in v.Live() :: v.inode[p] != i
  {
    var taken := set p | p in v.Live() :: v.inode[p];
    i := FreshAbove(taken);
    var recycled: Inode := *;
    if recycled !in taken {
      i := recycled;
    }
    assert forall p | p in v.Live() :: v.inode[p] in taken;
  }

  class Kernel {
    var volume: Volume
    /** Private directories: no other process can change the names in them. */
    var shield: set<Object>

    /** No other process has changed the volume so far. */
    ghost var calm: bool
    /** How many calls have failed without a reason in the namespace. */
    ghost var faults: nat
    /** Objects that this process had just made and could not inspect, so that nothing may be removed in their place. */
    ghost var uninspected: set<Object>
    /** Files created by this process. */
    ghost var staged: set<Object>
    /** Replaced originals, once every output is published. */
    ghost var retired: set<Object>
    /** Files of which this process removed a name. */
    ghost var unlinked: set<Object>
    /** Objects that another process left without a name. */
    ghost var touched: set<Object>
    /** Regular files that were opened, and the name under which each was found. */
    ghost var met: set<(Slot, Object)>
    /** Rename probes that could not be removed. */
    ghost var stranded: set<Object>
    /** What the disk is sure to have of every object that has been flushed. */
    ghost var stored: map<Object, Image>
    /** Inode numbers read from descriptors. */
    ghost var recorded: map<Object, Inode>
    /** The originals under observation. */
    ghost var watched: set<Original>
    /** The volume when observation began. */
    ghost var origin: Volume

    /**
     Holds before and after every call, hence at every point of every run.  Besides
     the shape of the volume it says: only files created here, and retired
     originals, were ever unlinked; every other file, whether it was there at the
     start or appeared later, has a name unless another process removed it; and
     without interference no file was lost to anyone, every watched original is at
     exactly one of its places, and no original file changed.
    */
    ghost predicate Valid()
      reads this
    {
      && volume.Valid()
      && shield <= volume.nodes.Keys
      && Succeeds(origin, volume)
      && OwnFiles(origin, volume, staged)
      && uninspected <= volume.nodes.Keys && uninspected !! origin.nodes.Keys
      && Consistent(recorded, volume.inode)
      && MetFiles(volume.nodes, met)
      && unlinked <= staged + retired && unlinked <= volume.nodes.Keys
      && Survives(origin, volume, unlinked, touched)
      && (calm ==> touched == {} && Unchanged(origin.nodes, volume.nodes))
      && (calm ==> Observed(watched, origin, volume.links))
    }

    constructor (v: Volume)
      requires v.Valid()
      ensures Valid()
      ensures volume == origin == v && shield == {} && calm && faults == 0
      ensures staged == retired == unlinked == touched == stranded == uninspected == {} && watched == {} && met == {}
      ensures recorded == map[] && stored == map[]
    {
      volume, origin, shield := v, v, {};
      calm, faults := true, 0;
      staged, retired, unlinked, touched, stranded, uninspected := {}, {}, {}, {}, {}, {};
      watched, met, recorded, stored := {}, {}, map[], map[];
    }

    method Interfere()
      requires Valid()
      modifies `volume, `calm, `touched
      ensures Valid()
      ensures Interference(old(volume), volume, shield) || volume == old(volume)
      ensures volume.open == old(volume.open) && old(volume.nodes.Keys) <= volume.nodes.Keys
      ensures calm ==> old(calm) && volume == old(volume)
    {
      var next: Volume := *;
      if Interference(volume, next, shield) {
        hide Interference, Volume.Valid, Lost, Succeeds, OwnFiles, Consistent, MetFiles, Survives, Unchanged, Observed;
        InterferenceKeepsBooks(origin, volume, next, shield, unlinked, touched);
        InterferenceKeepsRecords(origin, volume, next, shield, staged, recorded, met);
        InterferenceKeepsShape(volume, next, shield);
        touched := touched + Lost(volume, next);
        calm := calm && next == volume;
        volume := next;
      }
    }

    /** A call that changes nothing: a hook, a permission check. */
    method Attempt() returns (ok: bool)
      requires Valid()
      modifies `volume, `calm, `touched, `faults
      ensures Valid() && volume.open == old(volume.open) && old(volume.nodes.Keys) <= volume.nodes.Keys
      ensures faults == if ok then old(faults) else old(faults) + 1
      ensures calm ==> old(calm) && volume == old(volume)
    {
      Interfere();
      ok := AttemptNow();
    }

    /** `fsync`: from now on the disk has the object as it is, unless the call fails. */
    method Flush(o: Object) returns (ok: bool)
      requires Valid()
      modifies `volume, `calm, `touched, `faults, `stored
      ensures Valid() && volume.open == old(volume.open) && old(volume.nodes.Keys) <= volume.nodes.Keys
      ensures faults == if ok then old(faults) else old(faults) + 1
      ensures calm ==> old(calm) && volume == old(volume)
      ensures stored == if ok then old(stored)[o := ImageOf(volume, o)] else old(stored)
    {
      hide Kernel.Valid;
      ok := Attempt();
      if ok {
        Store(o);
      }
    }

    ghost method Store(o: Object)
      requires Valid()
      modifies `stored
      ensures Valid() && stored == old(stored)[o := ImageOf(volume, o)]
    {
      stored := stored[o := ImageOf(volume, o)];
    }

    /** The same with nothing happening in between. */
    method AttemptNow() returns (ok: bool)
      requires Valid()
      modifies `faults
      ensures Valid() && faults == if ok then old(faults) else old(faults) + 1
    {
      ok := *;
      if !ok {
        faults := faults + 1;
      }
    }

    // --- Names ----------------------------------------------------------------

    /** Rename without replacing, with nothing happening in between. */
    method RenameNow(src: Slot, dst: Slot) returns (r: Moving)
      requires Valid() && dst.directory in volume.nodes
      requires calm ==> AllKeptByMove(watched, volume.links, src, dst)
      modifies `volume, `faults
      ensures Valid()
      ensures faults == if r == Fault then old(faults) + 1 else old(faults)
      ensures r == Done ==> src in old(volume.links) && dst !in old(volume.links)
      ensures volume == if r == Done then old(volume).(links := Moved(old(volume.links), src, dst)) else old(volume)
      ensures r == Missing <==> src !in old(volume.links) && r != Fault
      ensures r == Occupied ==> dst in old(volume.links)
    {
      hide Succeeds, OwnFiles, Consistent, MetFiles, Survives, Unchanged, Observed;
      var fault: bool := *;
      if fault {
        faults := faults + 1;
        return Fault;
      }
      if src !in volume.links {
        return Missing;
      }
      if dst in volume.links {
        return Occupied;
      }
      MoveKeepsVolume(volume, src, dst);
      MoveKeepsBooks(origin, volume, src, dst, unlinked, touched);
      NamesDoNotMatter(origin, volume, Moved(volume.links, src, dst), staged);
      if calm {
        MoveKeepsOriginals(watched, origin, volume.links, src, dst);
      }
      volume := volume.(links := Moved(volume.links, src, dst));
      r := Done;
    }

    /** After interference; a name in a private directory still leads to what was put there. */
    method Rename(src: Slot, dst: Slot) returns (r: Moving)
      requires Valid() && dst.directory in volume.nodes
      requires calm ==> AllKeptByMove(watched, volume.links, src, dst)
      modifies `volume, `calm, `touched, `faults
      ensures Valid() && volume.open == old(volume.open) && old(volume.nodes.Keys) <= volume.nodes.Keys
      ensures faults == if r == Fault then old(faults) + 1 else old(faults)
      ensures r == Done ==> dst in volume.links
      ensures src.directory in shield && src in old(volume.links) ==>
                Holds(volume.links, if r == Done then dst else src, old(volume.links)[src])
      ensures calm ==> old(calm)
      ensures calm && r == Done ==> src in old(volume.links) && dst !in old(volume.links)
      ensures calm ==>
                volume == if r == Done then old(volume).(links := Moved(old(volume.links), src, dst)) else old(volume)
      ensures calm ==> (r == Missing <==> src !in old(volume.links) && r != Fault)
      ensures calm && r == Occupied ==> dst in old(volume.links)
      ensures calm ==> AgreeOutside(old(volume.links), volume.links, {src, dst})
    {
      hide Kernel.Valid;
      VolumeIsValid(this);
      Interfere();
      r := RenameNow(src, dst);
      if r == Done && calm {
        MovedAgrees(old(volume.links), src, dst);
      }
    }

    /**
     Remove a file name.  The precondition is the rule of the transaction: the file
     is one that this process created, or a retired original.
    */
    method UnlinkNow(s: Slot) returns (ok: bool)
      requires Valid() && s in volume.links
      requires volume.links[s] in staged + retired
      requires calm ==> forall w | w in watched :: w.file != volume.links[s]
      modifies `volume, `faults, `unlinked
      ensures Valid()
      ensures faults == if ok then old(faults) else old(faults) + 1
      ensures volume == if ok then old(volume).(links := old(volume.links) - {s}) else old(volume)
      ensures unlinked == if ok then old(unlinked) + {old(volume.links)[s]} else old(unlinked)
    {
      var fault: bool := *;
      if fault {
        faults := faults + 1;
        return false;
      }
      unlinked := unlinked + {volume.links[s]};
      DropName(s);
      ok := true;
    }

    /** Removes a name whose loss is already accounted for. */
    method DropName(s: Slot)
      requires Valid() && s in volume.links
      requires volume.links[s] in unlinked || volume.nodes[volume.links[s]].Directory?
      requires calm ==> forall w | w in watched :: w.file != volume.links[s]
      modifies `volume
      ensures Valid()
      ensures volume == old(volume).(links := old(volume.links) - {s})
    {
      UnlinkKeepsVolume(volume, s);
      UnlinkKeepsBooks(origin, volume, s, unlinked, touched);
      NamesDoNotMatter(origin, volume, volume.links - {s}, staged);
      if calm {
        UnlinkKeepsOriginals(watched, origin, volume.links, s);
      }
      volume := volume.(links := volume.links - {s});
    }

    /** Removal inside a private directory, where the name cannot have changed hands. */
    method Unlink(s: Slot) returns (ok: bool)
      requires Valid() && s in volume.links && s.directory in shield
      requires volume.links[s] in staged + retired
      requires calm ==> forall w | w in watched :: w.file != volume.links[s]
      modifies `volume, `calm, `touched, `faults, `unlinked
      ensures Valid() && volume.open == old(volume.open) && old(volume.nodes.Keys) <= volume.nodes.Keys
      ensures faults == if ok then old(faults) else old(faults) + 1
      ensures unlinked == if ok then old(unlinked) + {old(volume.links)[s]} else old(unlinked)
      ensures if ok then s !in volume.links else Holds(volume.links, s, old(volume.links)[s])
      ensures calm ==> old(calm)
      ensures calm ==> volume == if ok then old(volume).(links := old(volume.links) - {s}) else old(volume)
    {
      Interfere();
      ok := UnlinkNow(s);
    }

    // --- Files ----------------------------------------------------------------

    /** Puts a new object under a free name. */
    method LinkNew(s: Slot, node: Node, keepOpen: bool) returns (o: Object)
      requires Valid() && s.directory in volume.nodes && s !in volume.links
      modifies `volume
      ensures Valid()
      ensures o !in old(volume.nodes) && o !in origin.nodes && old(volume.nodes.Keys) <= volume.nodes.Keys
      ensures volume.links == old(volume.links)[s := o]
      ensures volume.nodes == old(volume.nodes)[o := node]
      ensures volume.open == if keepOpen then old(volume.open) + {o} else old(volume.open)
      ensures InodesKept(old(volume), volume)
      ensures forall t | t in old(volume.links) :: t.directory != o
    {
      hide Volume.Valid, Succeeds, Consistent, Survives, Unchanged, Observed, InodesKept, OwnFiles, MetFiles;
      OriginIsOld(origin, volume);
      o := FreshAbove(volume.nodes.Keys);
      var i := UnusedInode(volume);
      var descriptors := if keepOpen then {o} else {};
      CreationKeepsVolume(volume, s, o, i, node, descriptors);
      CreationKeepsClauses(origin, recorded, staged, met, unlinked, touched, volume, s, o, i, node, descriptors);
      if calm {
        CreationKeepsOriginals(watched, origin, volume.links, s, o);
      }
      volume := WithObject(volume, s, o, i, node, descriptors);
    }

    /** A new file counts as created by this process. */
    ghost method Own(o: Object)
      requires Valid() && o in volume.nodes && o !in origin.nodes && volume.nodes[o].File?
      modifies `staged
      ensures Valid() && staged == old(staged) + {o}
    {
      staged := staged + {o};
    }

    /** Exclusive creation; the descriptor stays open. */
    method CreateFileNow(s: Slot) returns (r: Creating)
      requires Valid() && s.directory in volume.nodes
      modifies `volume, `faults, `staged
      ensures Valid() && old(volume.nodes.Keys) <= volume.nodes.Keys
      ensures faults == if r.CreateFault? then old(faults) + 1 else old(faults)
      ensures staged == if r.Created? then old(staged) + {r.made} else old(staged)
      ensures r.Exists? ==> s in volume.links
      ensures if r.Created? then
                && s !in old(volume.links) && r.made !in old(volume.nodes)
                && volume.links == old(volume.links)[s := r.made]
                && volume.nodes == old(volume.nodes)[r.made := File([])]
                && InodesKept(old(volume), volume)
                && volume.open == old(volume.open) + {r.made}
              else volume == old(volume)
    {
      var fault: bool := *;
      if fault {
        faults := faults + 1;
        return CreateFault;
      }
      if s in volume.links {
        return Exists;
      }
      hide Kernel.Valid;
      var o := LinkNew(s, File([]), true);
      Own(o);
      r := Created(o);
    }

    method CreateFile(s: Slot) returns (r: Creating)
      requires Valid() && s.directory in volume.nodes
      modifies `volume, `calm, `touched, `faults, `staged
      ensures Valid() && old(volume.nodes.Keys) <= volume.nodes.Keys
      ensures faults == if r.CreateFault? then old(faults) + 1 else old(faults)
      ensures staged == if r.Created? then old(staged) + {r.made} else old(staged)
      ensures volume.open == if r.Created? then old(volume.open) + {r.made} else old(volume.open)
      ensures r.Created? ==> Holds(volume.links, s, r.made) && r.made !in old(volume.nodes)
      ensures r.Created? ==> r.made in volume.nodes && volume.nodes[r.made].File?
      ensures r.Exists? ==> s in volume.links
      ensures calm ==> old(calm)
      ensures calm ==>
                if r.Created? then
                  && s !in old(volume.links)
                  && volume.links == old(volume.links)[s := r.made]
                  && volume.nodes == old(volume.nodes)[r.made := File([])]
                  && InodesKept(old(volume), volume)
                else volume == old(volume)
    {
      hide Kernel.Valid, Interference;
      Interfere();
      r := CreateFileNow(s);
    }

    /** `drop(file)`. */
    method Close(o: Object)
      requires Valid()
      modifies `volume
      ensures Valid() && volume == old(volume).(open := old(volume.open) - {o})
    {
      volume := volume.(open := volume.open - {o});
    }

    /** The inode number of an open object. */
    method Inspect(o: Object) returns (r: Option<Inode>)
      requires Valid() && o in volume.nodes
      modifies `volume, `calm, `touched, `faults
      ensures Valid() && volume.open == old(volume.open) && old(volume.nodes.Keys) <= volume.nodes.Keys
      ensures faults == if r.Some? then old(faults) else old(faults) + 1
      ensures r.Some? ==> r.value == volume.inode[o]
      ensures calm ==> old(calm) && volume == old(volume)
    {
      var ok := Attempt();
      r := if ok then Some(volume.inode[o]) else None;
    }

    /** The inode number of an open object, where this process has just made `made`: without it, `made` stays uninspected. */
    method InspectMade(o: Object, ghost made: Object) returns (r: Option<Inode>)
      requires Valid() && o in volume.nodes && made in volume.nodes && made !in origin.nodes
      modifies `volume, `calm, `touched, `faults, `uninspected
      ensures Valid() && volume.open == old(volume.open) && old(volume.nodes.Keys) <= volume.nodes.Keys
      ensures faults == if r.Some? then old(faults) else old(faults) + 1
      ensures uninspected == if r.Some? then old(uninspected) else old(uninspected) + {made}
      ensures r.Some? ==> r.value == volume.inode[o]
      ensures calm ==> old(calm) && volume == old(volume)
    {
      r := Inspect(o);
      if r.None? {
        uninspected := uninspected + {made};
      }
    }

    /** Remembers the inode number of an object for good. */
    ghost method Record(o: Object)
      requires Valid() && o in volume.nodes
      modifies `recorded
      ensures Valid() && recorded == old(recorded)[o := volume.inode[o]]
      ensures forall p | p in old(recorded) :: recorded[p] == old(recorded)[p]
    {
      recorded := recorded[o := volume.inode[o]];
    }

    /** From now on these originals are under observation. */
    ghost method Watch(originals: set<Original>)
      requires Valid() && (calm ==> Observed(originals, origin, volume.links))
      modifies `watched
      ensures Valid() && watched == originals
    {
      watched := originals;
    }

    /** The originals are where they belong, as far as this process can tell. */
    ghost method StopWatching()
      requires Valid()
      modifies `watched
      ensures Valid() && watched == {}
    {
      watched := {};
    }

    /** Every output is published: these originals are no longer needed. */
    ghost method Retire(originals: set<Object>)
      requires Valid()
      modifies `watched, `retired
      ensures Valid() && watched == {} && retired == old(retired) + originals
    {
      watched, retired := {}, retired + originals;
    }

    /** Writes everything, or fails after writing the beginning of it. */
    method WriteAll(o: Object, contents: Bytes) returns (ok: bool)
      requires Valid() && o in staged
      modifies `volume, `calm, `touched, `faults
      ensures Valid() && volume.open == old(volume.open) && old(volume.nodes.Keys) <= volume.nodes.Keys
      ensures faults == if ok then old(faults) else old(faults) + 1
      ensures calm ==> old(calm) && volume.links == old(volume.links) && volume.inode == old(volume.inode)
      ensures o in volume.nodes && volume.nodes[o].File? && volume.nodes[o].contents <= contents
      ensures ok ==> volume.nodes[o].contents == contents
      ensures calm ==> volume.nodes == old(volume.nodes)[o := volume.nodes[o]]
    {
      hide Kernel.Valid;
      ok := Attempt();
      var part: int := *;
      Overwrite(o, if ok || !(0 <= part <= |contents|) then contents else contents[..part]);
    }

    method Overwrite(o: Object, contents: Bytes)
      requires Valid() && o in staged
      modifies `volume
      ensures Valid() && o in old(volume.nodes) && volume == old(volume).(nodes := old(volume.nodes)[o := File(contents)])
    {
      volume := volume.(nodes := volume.nodes[o := File(contents)]);
    }

    /** Opens a regular file and keeps the descriptor. */
    method OpenRegular(s: Slot) returns (r: Option<Object>)
      requires Valid()
      modifies `volume, `calm, `touched, `faults, `met
      ensures Valid() && old(volume.nodes.Keys) <= volume.nodes.Keys
      ensures volume.open == if r.Some? then old(volume.open) + {r.value} else old(volume.open)
      ensures met == if r.Some? then old(met) + {(s, r.value)} else old(met)
      ensures r.Some? ==> Holds(volume.links, s, r.value) && r.value in volume.nodes && volume.nodes[r.value].File?
      ensures old(faults) <= faults <= old(faults) + 1 && (r.Some? ==> faults == old(faults))
      ensures calm ==> old(calm) && volume == old(volume).(open := volume.open)
      ensures faults == old(faults) && s in volume.links && volume.nodes[volume.links[s]].File? ==> r.Some?
    {
      var ok := Attempt();
      if !ok || s !in volume.links || !volume.nodes[volume.links[s]].File? {
        return None;
      }
      hide Kernel.Valid;
      Retain(volume.links[s]);
      Meet(s);
      r := Some(volume.links[s]);
    }

    /** Notes which regular file stands at a name. */
    ghost method Meet(s: Slot)
      requires Valid() && s in volume.links && volume.nodes[volume.links[s]].File?
      modifies `met
      ensures Valid() && met == old(met) + {(s, volume.links[s])}
    {
      met := met + {(s, volume.links[s])};
    }

    /** Keeps a descriptor on a linked object. */
    method Retain(o: Object)
      requires Valid() && o in volume.links.Values
      modifies `volume
      ensures Valid()
      ensures volume == old(volume).(open := old(volume.open) + {o})
    {
      volume := volume.(open := volume.open + {o});
    }

    /** The inode number behind a name, if it is a regular file. */
    method IdentifyNow(s: Slot) returns (r: Option<Inode>)
      requires Valid()
      modifies `faults
      ensures Valid() && old(faults) <= faults <= old(faults) + 1
      ensures r.Some? ==> s in volume.links && r.value == volume.inode[volume.links[s]] && faults == old(faults)
      ensures s in volume.links && volume.nodes[volume.links[s]].File? && faults == old(faults) ==> r.Some?
    {
      var fault: bool := *;
      if fault {
        faults := faults + 1;
        return None;
      }
      if s !in volume.links || !volume.nodes[volume.links[s]].File? {
        return None;
      }
      r := Some(volume.inode[volume.links[s]]);
    }

    method Identify(s: Slot) returns (r: Option<Inode>)
      requires Valid()
      modifies `volume, `calm, `touched, `faults
      ensures Valid() && volume.open == old(volume.open) && old(volume.nodes.Keys) <= volume.nodes.Keys
      ensures old(faults) <= faults <= old(faults) + 1 && (r.Some? ==> faults == old(faults))
      ensures r.Some? ==> s in volume.links && r.value == volume.inode[volume.links[s]]
      ensures s.directory in shield ==>
                (s in volume.links <==> s in old(volume.links))
                && (s in volume.links ==> volume.links[s] == old(volume.links)[s])
      ensures calm ==> old(calm) && volume == old(volume)
      ensures calm && s in volume.links && volume.nodes[volume.links[s]].File? && faults == old(faults) ==> r.Some?
    {
      Interfere();
      r := IdentifyNow(s);
    }

    /** Identifies a rename probe that is to be removed; without that, it is stranded. */
    method IdentifyProbeNow(s: Slot) returns (r: Option<Inode>)
      requires Valid() && s in volume.links && volume.nodes[volume.links[s]].File?
      modifies `faults, `stranded
      ensures Valid() && faults == if r.Some? then old(faults) else old(faults) + 1
      ensures stranded == if r.Some? then old(stranded) else old(stranded) + {volume.links[s]}
      ensures r.Some? ==> r.value == volume.inode[volume.links[s]]
    {
      r := IdentifyNow(s);
      if r.None? {
        stranded := stranded + {volume.links[s]};
      }
    }

    /** Removes a rename probe, or strands it. */
    method UnlinkProbeNow(s: Slot) returns (ok: bool)
      requires Valid() && s in volume.links && volume.links[s] in staged
      modifies `volume, `faults, `unlinked, `stranded
      ensures Valid() && faults == if ok then old(faults) else old(faults) + 1
      ensures volume == if ok then old(volume).(links := old(volume.links) - {s}) else old(volume)
      ensures unlinked == if ok then old(unlinked) + {old(volume.links)[s]} else old(unlinked)
      ensures stranded == if ok then old(stranded) else old(stranded) + {old(volume.links)[s]}
    {
      StagedIsNotWatched(this, volume.links[s]);
      ok := UnlinkNow(s);
      if !ok {
        stranded := stranded + {volume.links[s]};
      }
    }

    method EnsureAbsent(s: Slot) returns (ok: bool)
      requires Valid()
      modifies `volume, `calm, `touched, `faults
      ensures Valid() && volume.open == old(volume.open) && old(volume.nodes.Keys) <= volume.nodes.Keys
      ensures old(faults) <= faults <= old(faults) + 1 && (ok ==> faults == old(faults))
      ensures faults == old(faults) ==> (ok <==> s !in volume.links)
      ensures calm ==> old(calm) && volume == old(volume)
    {
      ok := Attempt();
      ok := ok && s !in volume.links;
    }

    method InspectTarget(s: Slot) returns (r: Target)
      requires Valid()
      modifies `volume, `calm, `touched, `faults
      ensures Valid() && volume.open == old(volume.open) && old(volume.nodes.Keys) <= volume.nodes.Keys
      ensures old(faults) <= faults <= old(faults) + 1 && (r != Irregular ==> faults == old(faults))
      ensures calm ==> old(calm) && volume == old(volume)
      ensures r == Regular ==> s in volume.links && volume.nodes[volume.links[s]].File?
      ensures r == Absent ==> s !in volume.links
      ensures faults == old(faults) && r == Irregular ==> s in volume.links && volume.nodes[volume.links[s]].Directory?
    {
      var ok := Attempt();
      if !ok {
        return Irregular;
      }
      if s !in volume.links {
        return Absent;
      }
      r := if volume.nodes[volume.links[s]].File? then Regular else Irregular;
    }

    // --- Directories ----------------------------------------------------------

    method OpenDirectoryNow(s: Slot) returns (r: Lookup)
      requires Valid()
      modifies `faults
      ensures Valid() && old(faults) <= faults <= old(faults) + 1
      ensures r.Found? ==> Holds(volume.links, s, r.found) && volume.nodes[r.found].Directory?
      ensures r.Found? || r.NotFound? ==> faults == old(faults)
      ensures r.NotFound? ==> s !in volume.links
      ensures faults == old(faults) && r.Refused? ==> s in volume.links && volume.nodes[volume.links[s]].File?
    {
      var fault: bool := *;
      if fault {
        faults := faults + 1;
        return Refused;
      }
      if s !in volume.links {
        return NotFound;
      }
      var o := volume.links[s];
      r := if volume.nodes[o].Directory? then Found(o) else Refused;
    }

    method OpenDirectory(s: Slot) returns (r: Lookup)
      requires Valid()
      modifies `volume, `calm, `touched, `faults
      ensures Valid() && volume.open == old(volume.open) && old(volume.nodes.Keys) <= volume.nodes.Keys
      ensures old(faults) <= faults <= old(faults) + 1
      ensures r.Found? || r.NotFound? ==> faults == old(faults)
      ensures r.Found? ==> r.found in volume.nodes
      ensures calm ==> old(calm) && volume == old(volume)
      ensures calm && r.Found? ==> Holds(volume.links, s, r.found) && volume.nodes[r.found].Directory?
      ensures calm && r.NotFound? ==> s !in volume.links
      ensures faults == old(faults) && r.Refused? ==> s in volume.links && volume.nodes[volume.links[s]].File?
    {
      Interfere();
      r := OpenDirectoryNow(s);
    }

    /** From now on no other process can change the names in this directory. */
    method Shield(o: Object)
      requires Valid() && o in volume.nodes
      modifies `shield
      ensures Valid() && shield == old(shield) + {o}
    {
      shield := shield + {o};
    }

    /** Opens a directory by the name at which this process has just made `made`; without it, `made` stays uninspected. */
    method OpenMadeNow(s: Slot, ghost made: Object) returns (r: Lookup)
      requires Valid() && made in volume.nodes && made !in origin.nodes
      modifies `faults, `uninspected
      ensures Valid() && old(faults) <= faults <= old(faults) + 1
      ensures r.Found? ==> Holds(volume.links, s, r.found) && volume.nodes[r.found].Directory? && faults == old(faults)
      ensures uninspected == if r.Found? then old(uninspected) else old(uninspected) + {made}
      ensures faults == old(faults) && s in volume.links && volume.nodes[volume.links[s]].Directory? ==> r.Found?
    {
      r := OpenDirectoryNow(s);
      if !r.Found? {
        uninspected := uninspected + {made};
      }
    }

    method OpenMade(s: Slot, ghost made: Object) returns (r: Lookup)
      requires Valid() && made in volume.nodes && made !in origin.nodes
      modifies `volume, `calm, `touched, `faults, `uninspected
      ensures Valid() && volume.open == old(volume.open) && old(volume.nodes.Keys) <= volume.nodes.Keys
      ensures old(faults) <= faults <= old(faults) + 1 && (r.Found? ==> faults == old(faults))
      ensures uninspected == if r.Found? then old(uninspected) else old(uninspected) + {made}
      ensures r.Found? ==> Holds(volume.links, s, r.found) && r.found in volume.nodes && volume.nodes[r.found].Directory?
      ensures calm ==> old(calm) && volume == old(volume)
      ensures faults == old(faults) && s in volume.links && volume.nodes[volume.links[s]].Directory? ==> r.Found?
    {
      Interfere();
      r := OpenMadeNow(s, made);
    }

    method MakeDirectoryNow(s: Slot, private: bool) returns (r: Creating)
      requires Valid() && s.directory in volume.nodes
      modifies `volume, `faults, `shield
      ensures Valid() && old(volume.nodes.Keys) <= volume.nodes.Keys
      ensures faults == if r.CreateFault? then old(faults) + 1 else old(faults)
      ensures shield == if private && r.Created? then old(shield) + {r.made} else old(shield)
      ensures volume.open == old(volume.open)
      ensures r.Exists? ==> s in volume.links
      ensures r.Created? ==> r.made in volume.nodes && r.made !in origin.nodes
      ensures if r.Created? then
                && s !in old(volume.links) && r.made !in old(volume.nodes)
                && volume.links == old(volume.links)[s := r.made]
                && volume.nodes == old(volume.nodes)[r.made := Directory]
                && InodesKept(old(volume), volume)
                && (forall t | t in old(volume.links) :: t.directory != r.made)
              else volume == old(volume)
    {
      var fault: bool := *;
      if fault {
        faults := faults + 1;
        return CreateFault;
      }
      if s in volume.links {
        return Exists;
      }
      hide Kernel.Valid;
      var o := LinkNew(s, Directory, false);
      if private {
        Shield(o);
      }
      r := Created(o);
    }

    method MakeDirectory(s: Slot) returns (r: Creating)
      requires Valid() && s.directory in volume.nodes
      modifies `volume, `calm, `touched, `faults, `shield
      ensures Valid() && volume.open == old(volume.open) && old(volume.nodes.Keys) <= volume.nodes.Keys
      ensures faults == if r.CreateFault? then old(faults) + 1 else old(faults)
      ensures shield == old(shield)
      ensures r.Exists? ==> s in volume.links
      ensures r.Created? ==> r.made in volume.nodes && r.made !in origin.nodes
      ensures calm ==> old(calm)
      ensures calm ==>
                if r.Created? then
                  && s !in old(volume.links) && r.made !in old(volume.nodes)
                  && volume.links == old(volume.links)[s := r.made]
                  && volume.nodes == old(volume.nodes)[r.made := Directory]
                  && InodesKept(old(volume), volume)
                  && (forall t | t in old(volume.links) :: t.directory != r.made)
                else volume == old(volume)
    {
      Interfere();
      r := MakeDirectoryNow(s, false);
    }

    /** `rmdir`: only an empty directory goes away. */
    method RemoveDirectory(s: Slot) returns (ok: bool)
      requires Valid()
      requires calm && s in volume.links ==> forall w | w in watched :: w.file != volume.links[s]
      modifies `volume, `calm, `touched, `faults
      ensures Valid() && volume.open == old(volume.open) && old(volume.nodes.Keys) <= volume.nodes.Keys
      ensures old(faults) <= faults && (ok ==> faults == old(faults))
      ensures calm ==> old(calm)
      ensures calm ==> volume == if ok then old(volume).(links := old(volume.links) - {s}) else old(volume)
      ensures calm && ok ==> IsEmptyDirectory(old(volume), s)
      ensures calm && faults == old(faults) && IsEmptyDirectory(old(volume), s) ==> ok
    {
      Interfere();
      var fault: bool := *;
      if fault {
        faults := faults + 1;
        return false;
      }
      if s !in volume.links || !volume.nodes[volume.links[s]].Directory? {
        return false;
      }
      if exists t | t in volume.links.Keys :: t.directory == volume.links[s] {
        return false;
      }
      DropName(s);
      ok := true;
    }
  }

  /** Files created by this process are not among the watched originals. */
  lemma StagedIsNotWatched(k: Kernel, o: Object)
    requires k.Valid() && o in k.staged
    ensures k.calm ==> forall w | w in k.watched :: w.file != o
  {
  }

  lemma StagedIsNew(k: Kernel, o: Object)
    requires k.Valid() && o in k.staged
    ensures o in k.volume.nodes && o !in k.origin.nodes && k.volume.nodes[o].File?
  {
  }

  lemma StagedExist(k: Kernel)
    requires k.Valid()
    ensures k.staged <= k.volume.nodes.Keys && k.unlinked <= k.volume.nodes.Keys
  {
  }

  lemma StagedMayMove(k: Kernel, src: Slot, dst: Slot)
    requires k.Valid() && src in k.volume.links && k.volume.links[src] in k.staged
    ensures k.calm ==> AllKeptByMove(k.watched, k.volume.links, src, dst)
  {
  }

  lemma VolumeIsValid(k: Kernel)
    requires k.Valid()
    ensures k.volume.Valid() && k.shield <= k.volume.nodes.Keys
  {
  }

  /** A number above every member of a finite set. */
  method FreshAbove(s: set<nat>) returns (n: nat)
    ensures n !in s
  {
    var rest := s;
    n := 0;
    while rest != {}
      invariant rest <= s
      invariant forall x | x in s && x !in rest :: x < n
      decreases rest
    {
      var x :| x in rest;
      rest := rest - {x};
      if x >= n {
        n := x + 1;
      }
    }
  }
}
