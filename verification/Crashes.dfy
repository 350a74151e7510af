/**
 What a crash leaves of a publication that succeeded without a warning: all of it.
*/
module Crashes {
  import opened Namespace
  import opened Walks
  import opened Entries
  import opened Publication

  /**
   A disk after a crash: it has every object as it was flushed, if nothing has changed
   since, and every object that is as it was at the start.  Of anything else it may
   have what it likes.
  */
  ghost predicate IsLeftByCrash(disk: Volume, v: Volume, w: Volume, stored: map<Object, Image>) {
    forall o | IsStored(w, stored, o) || (o in v.nodes && ImageOf(v, o) == ImageOf(w, o)) ::
      ImageOf(disk, o) == ImageOf(w, o)
  }

  /** The same directory has the same names. */
  lemma ListedAlike(v: Volume, w: Volume, s: Slot)
    requires ImageOf(v, s.directory) == ImageOf(w, s.directory)
    requires s.directory in w.nodes && w.nodes[s.directory].Directory?
    ensures SameAt(v.links, w.links, s)
  {
    assert ImageOf(v, s.directory).Listing? && ImageOf(w, s.directory).Listing?;
    assert s in v.links <==> s in ImageOf(v, s.directory).links;
    assert s in w.links <==> s in ImageOf(w, s.directory).links;
  }

  /** A directory in which no name has changed is as it was. */
  lemma UnchangedIsAlike(v: Volume, w: Volume, d: Object)
    requires d in v.nodes && d in w.nodes && v.nodes[d].Directory? && w.nodes[d].Directory?
    requires forall s: Slot | s.directory == d :: SameAt(v.links, w.links, s)
    ensures ImageOf(v, d) == ImageOf(w, d)
  {
    var a := map s | s in v.links && s.directory == d :: v.links[s];
    var b := map s | s in w.links && s.directory == d :: w.links[s];
    forall s ensures s in a <==> s in b {
      if s.directory == d {
        assert SameAt(v.links, w.links, s);
      }
    }
    assert a == b;
  }

  /** Every directory that matters is on the disk as it is. */
  lemma DirectoryIsOnDisk(disk: Volume, v: Volume, w: Volume, stored: map<Object, Image>, anchor: Object,
                          directory: seq<string>, d: Object)
    requires v.Valid() && Unchanged(v.nodes, w.nodes) && d in w.nodes && w.nodes[d].Directory?
    requires Durable(v, w, stored, anchor, directory) && IsLeftByCrash(disk, v, w, stored)
    requires d in v.nodes || exists s :: s in w.links && s.directory == d
    ensures ImageOf(disk, d) == ImageOf(w, d)
  {
    hide IsStored, Reaches;
    if d !in v.nodes {
      var s :| s in w.links && s.directory == d;
      assert !SameAt(v.links, w.links, s);
    } else if s: Slot :| s.directory == d && !SameAt(v.links, w.links, s) {
      assert IsStored(w, stored, d);
    } else {
      UnchangedIsAlike(v, w, d);
    }
  }

  /** A path leads on the disk where it leads now, if every directory with a name in it is on the disk. */
  lemma {:induction false} ReachesOnDisk(disk: Volume, w: Volume, start: Object, path: seq<string>, last: Slot)
    requires forall s | s in w.links && s.directory in w.nodes && w.nodes[s.directory].Directory? ::
               ImageOf(disk, s.directory) == ImageOf(w, s.directory)
    requires start in w.nodes && w.nodes[start].Directory?
    requires Reaches(w, start, path, last.directory) && last in w.links
    ensures Reaches(disk, start, path, last.directory)
    ensures Holds(disk.links, last, w.links[last])
    decreases |path|
  {
    hide ImageOf;
    if path == [] {
      ListedAlike(disk, w, last);
    } else {
      var s := Slot(start, path[0]);
      var next := w.links[s];
      ListedAlike(disk, w, s);
      assert ImageOf(disk, next) == ImageOf(w, next) by {
        var t := if |path| == 1 then last else Slot(next, path[1]);
        assert t in w.links && t.directory == next;
      }
      SameKind(disk, w, next);
      ReachesOnDisk(disk, w, next, path[1..], last);
    }
  }

  lemma SameKind(v: Volume, w: Volume, o: Object)
    requires ImageOf(v, o) == ImageOf(w, o) && o in w.nodes
    ensures o in v.nodes && v.nodes[o].File? == w.nodes[o].File?
    ensures w.nodes[o].File? ==> v.nodes[o] == w.nodes[o]
  {
  }

  /**
   A crash after a durable publication takes nothing back: every output is delivered,
   every other name leads where it led, and every file from the start has its contents.
  */
  lemma CrashKeepsPublication(disk: Volume, v: Volume, w: Volume, stored: map<Object, Image>, anchor: Object,
                              directory: seq<string>, outputs: seq<Output>, targets: seq<Slot>)
    requires v.Valid() && Unchanged(v.nodes, w.nodes) && anchor in v.nodes && v.nodes[anchor].Directory?
    requires Durable(v, w, stored, anchor, directory) && OutputsStored(w, stored, targets)
    requires Delivered(w, anchor, directory, outputs, targets) && IsLeftByCrash(disk, v, w, stored)
    ensures Delivered(disk, anchor, directory, outputs, targets)
    ensures forall s | s in w.links && s.directory in w.nodes && w.nodes[s.directory].Directory? ::
              Holds(disk.links, s, w.links[s])
    ensures forall s | s in disk.links && s.directory in v.nodes && v.nodes[s.directory].Directory? ::
              Holds(w.links, s, disk.links[s])
    ensures forall o | o in v.nodes && v.nodes[o].File? :: o in disk.nodes && disk.nodes[o] == v.nodes[o]
  {
    hide ImageOf, IsStored, Durable, Reaches, Parents;
    forall d | d in w.nodes && w.nodes[d].Directory? && (d in v.nodes || exists s :: s in w.links && s.directory == d)
      ensures ImageOf(disk, d) == ImageOf(w, d)
    {
      DirectoryIsOnDisk(disk, v, w, stored, anchor, directory, d);
    }
    forall s: Slot | s.directory in w.nodes && w.nodes[s.directory].Directory? && (s in w.links || s.directory in v.nodes)
      ensures SameAt(disk.links, w.links, s)
    {
      ListedAlike(disk, w, s);
    }
    forall o | o in v.nodes && v.nodes[o].File? ensures o in disk.nodes && disk.nodes[o] == v.nodes[o] {
      SameFile(v, w, o);
      SameKind(disk, w, o);
    }
    forall i | 0 <= i < |outputs| ensures DeliveredAt(disk, anchor, directory, outputs[i], targets[i]) {
      var t := targets[i];
      assert t in targets && DeliveredAt(w, anchor, directory, outputs[i], t);
      var path := outputs[i].path;
      ReachesOnDisk(disk, w, anchor, directory + path[..|path| - 1], t);
      StoredIsOnDisk(disk, v, w, stored, w.links[t]);
      SameKind(disk, w, w.links[t]);
    }
  }

  lemma SameFile(v: Volume, w: Volume, o: Object)
    requires o in v.nodes && o in w.nodes && v.nodes[o].File? && v.nodes[o] == w.nodes[o]
    ensures ImageOf(v, o) == ImageOf(w, o)
  {
  }

  lemma StoredIsOnDisk(disk: Volume, v: Volume, w: Volume, stored: map<Object, Image>, o: Object)
    requires IsLeftByCrash(disk, v, w, stored) && IsStored(w, stored, o)
    ensures ImageOf(disk, o) == ImageOf(w, o)
  {
  }
}
