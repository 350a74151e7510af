/**
 The directories a publication makes: missing ancestors of its outputs, and the
 private quarantine.  Every directory is registered before anything else can fail.
*/
module Directories {
  import opened Wrappers
  import opened Namespace
  import opened Cleanup
  import opened Rollback
  import opened Walks

  // --- The stack of created directories ---------------------------------------

  /** The names that are neither hidden nor taken by created directories. */
  function Remaining(links: Links, hidden: set<Slot>, created: seq<CreatedDirectory>): Links {
    links - hidden - Slots(created)
  }

  ghost predicate StackedBut(v: Volume, hidden: set<Slot>, created: seq<CreatedDirectory>) {
    Stacked(v.(links := v.links - hidden), created)
  }

  lemma PushedSlots(created: seq<CreatedDirectory>, d: CreatedDirectory, i: nat)
    requires i <= |created|
    ensures Slots((created + [d])[i..]) == Slots(created[i..]) + {d.slot}
  {
    assert (created + [d])[i..] == created[i..] + [d];
    var a, b := created[i..], [d];
    forall s | s in Slots(a) + {d.slot} ensures s in Slots(a + b) {
      if s in Slots(a) {
        var e :| e in a && e.slot == s;
        assert e in a + b;
      } else {
        assert d in a + b;
      }
    }
  }

  /** A directory made at a free name goes on top of the stack, and removing it undoes its creation. */
  lemma DirectoryPushed(v: Volume, w: Volume, hidden: set<Slot>, created: seq<CreatedDirectory>, d: CreatedDirectory,
                        o: Object)
    requires v.Valid() && hidden <= v.links.Keys
    requires d.slot !in v.links && o !in v.nodes && d.slot.directory in v.nodes
    requires w.links == v.links[d.slot := o] && w.nodes == v.nodes[o := Directory] && InodesKept(v, w) && o in w.inode
    ensures Remaining(w.links, hidden, created + [d]) == Remaining(v.links, hidden, created)
    ensures StackedBut(v, hidden, created) && d.identity == Some(w.inode[o]) ==>
            d.cleanup.directory == d.slot.directory && d.cleanup != d.slot && d.cleanup !in v.links ==>
              StackedBut(w, hidden, created + [d])
  {
    PushedSlots(created, d, 0);
    assert created[0..] == created && (created + [d])[0..] == created + [d];
    assert Remaining(w.links, hidden, created + [d]) == Remaining(v.links, hidden, created);
    if StackedBut(v, hidden, created) && d.identity == Some(w.inode[o])
       && d.cleanup.directory == d.slot.directory && d.cleanup != d.slot && d.cleanup !in v.links {
      StackGrows(v, w, hidden, created, d, o);
    }
  }

  lemma StackGrows(v: Volume, w: Volume, hidden: set<Slot>, created: seq<CreatedDirectory>, d: CreatedDirectory,
                   o: Object)
    requires v.Valid() && hidden <= v.links.Keys
    requires d.slot !in v.links && o !in v.nodes && d.slot.directory in v.nodes
    requires w.links == v.links[d.slot := o] && w.nodes == v.nodes[o := Directory] && InodesKept(v, w) && o in w.inode
    requires StackedBut(v, hidden, created) && d.identity == Some(w.inode[o])
    requires d.cleanup.directory == d.slot.directory && d.cleanup != d.slot && d.cleanup !in v.links
    ensures StackedBut(w, hidden, created + [d])
  {
    var all := created + [d];
    forall i | 0 <= i < |all| ensures StackedAt(w.(links := w.links - hidden), all, i) {
      if i < |created| {
        assert StackedAt(v.(links := v.links - hidden), created, i);
        PushedSlots(created, d, i + 1);
        StackedAtStays(v.(links := v.links - hidden), w.(links := w.links - hidden), created, d, o, i);
      }
    }
    forall i, j | 0 <= i < j < |all| ensures all[i].slot != all[j].slot {
      assert StackedAt(v.(links := v.links - hidden), created, i);
    }
  }

  lemma StackedAtStays(v: Volume, w: Volume, created: seq<CreatedDirectory>, d: CreatedDirectory, o: Object, i: nat)
    requires i < |created| && StackedAt(v, created, i) && d.slot !in v.links && o !in v.nodes
    requires w.links == v.links[d.slot := o] && w.nodes == v.nodes[o := Directory] && InodesKept(v, w)
    requires Slots((created + [d])[i + 1..]) == Slots(created[i + 1..]) + {d.slot}
    ensures StackedAt(w, created + [d], i)
  {
    hide Slots;
    assert (created + [d])[i] == created[i];
  }

  ghost predicate AllUsable(known: set<Object>, created: seq<CreatedDirectory>) {
    forall d | d in created :: DirectoryUsable(known, d)
  }

  // --- Walking and creating ---------------------------------------------------

  /** Opens a directory, and reads its identity if this process has just made it. */
  method Adopt(k: Kernel, slot: Slot, ours: bool, ghost made: Object)
    returns (child: Option<Object>, identity: Option<Inode>)
    requires k.Valid() && (ours ==> made in k.volume.nodes && made !in k.origin.nodes)
    modifies k`volume, k`calm, k`touched, k`faults, k`uninspected
    ensures k.Valid() && old(k.volume.nodes.Keys) <= k.volume.nodes.Keys && k.volume.open == old(k.volume.open)
    ensures old(k.faults) <= k.faults <= old(k.faults) + 1
    ensures k.uninspected == old(k.uninspected) || (ours && k.uninspected == old(k.uninspected) + {made})
    ensures child.Some? ==> child.value in k.volume.nodes && k.faults == old(k.faults)
    ensures child.Some? ==> k.uninspected == old(k.uninspected)
    ensures k.calm ==> old(k.calm) && k.volume == old(k.volume)
    ensures k.calm && k.faults == old(k.faults) && LeadsOn(k.volume, slot) ==>
              child.Some? && k.uninspected == old(k.uninspected)
    ensures k.calm && child.Some? ==> Holds(k.volume.links, slot, child.value) && k.volume.nodes[child.value].Directory?
    ensures k.calm && ours && k.uninspected == {} && slot in k.volume.links ==>
              k.volume.links[slot] in k.volume.inode && identity == Some(k.volume.inode[k.volume.links[slot]])
  {
    hide Kernel.Valid;
    VolumeIsValid(k);
    child, identity := None, None;
    var lookup;
    if ours {
      lookup := k.OpenMade(slot, made);
      if lookup.Found? {
        identity := k.InspectMade(lookup.found, made);
      }
    } else {
      lookup := k.OpenDirectory(slot);
    }
    if !lookup.Found? || (ours && identity.None?) {
      return;
    }
    var private := k.Attempt();
    if private {
      child := Some(lookup.found);
    }
  }

  /**
   Makes a directory and registers it.  A directory that someone else made in the
   meantime is used but not owned.
  */
  method MakeChild(k: Kernel, parent: Object, name: string, cleanup: Slot, created: seq<CreatedDirectory>,
                   ghost hidden: set<Slot>, ghost names: set<string>, ghost avoid: set<Object>)
    returns (child: Option<Object>, all: seq<CreatedDirectory>)
    requires k.Valid() && parent in k.volume.nodes && AllUsable(k.volume.nodes.Keys, created)
    requires k.calm ==> Slot(parent, name) !in k.volume.links && hidden <= k.volume.links.Keys
    requires k.calm ==> cleanup !in k.volume.links
    requires cleanup.directory == parent && cleanup.name != name
    requires name in names && (k.calm ==> parent !in avoid) && avoid <= k.volume.nodes.Keys
    modifies k`volume, k`calm, k`touched, k`faults, k`shield, k`uninspected
    ensures k.Valid() && old(k.volume.nodes.Keys) <= k.volume.nodes.Keys && k.volume.open == old(k.volume.open)
    ensures k.shield == old(k.shield) && old(k.uninspected) <= k.uninspected
    ensures old(k.faults) <= k.faults <= old(k.faults) + 1 && (child.Some? ==> k.faults == old(k.faults))
    ensures child.Some? || (k.calm && k.faults == old(k.faults)) ==> k.uninspected == old(k.uninspected)
    ensures AllUsable(k.volume.nodes.Keys, all)
    ensures child.Some? ==> child.value in k.volume.nodes
    ensures k.calm ==> old(k.calm) && Extended(old(k.volume), k.volume, names, avoid)
    ensures k.calm ==> AgreeOutside(old(k.volume.links), k.volume.links, {Slot(parent, name)})
    ensures k.calm && k.faults == old(k.faults) ==> child.Some?
    ensures k.calm ==> Remaining(k.volume.links, hidden, all) == Remaining(old(k.volume.links), hidden, created)
    ensures k.calm && child.Some? ==>
              Holds(k.volume.links, Slot(parent, name), child.value) && k.volume.nodes[child.value].Directory?
    ensures k.calm && k.uninspected == {} && StackedBut(old(k.volume), hidden, created) ==>
              StackedBut(k.volume, hidden, all)
  {
    hide StackedBut, Remaining, Slots, Extended, Kernel.Valid, AllUsable, InodesKept, AgreeOutside;
    child, all := None, created;
    VolumeIsValid(k);
    SameNamesAgree(k.volume.links, {Slot(parent, name)}, {});
    ExtendedSelf(k.volume, names, avoid);
    var slot := Slot(parent, name);
    var making := k.MakeDirectory(slot);
    MoreUsable(old(k.volume.nodes.Keys), k.volume.nodes.Keys, created);
    if making.CreateFault? {
      return;
    }
    ghost var made := k.volume;
    VolumeIsValid(k);
    var identity;
    child, identity := Adopt(k, slot, making.Created?, if making.Created? then making.made else 0);
    MoreUsable(made.nodes.Keys, k.volume.nodes.Keys, created);
    if making.Created? {
      var d := CreatedDirectory(slot, cleanup, identity);
      all := created + [d];
      OneMoreUsable(k.volume.nodes.Keys, created, d);
      if k.calm {
        ChildMade(old(k.volume), made, hidden, created, d, making.made, names, avoid);
      }
    }
  }

  lemma MoreUsable(known: set<Object>, more: set<Object>, created: seq<CreatedDirectory>)
    requires AllUsable(known, created) && known <= more
    ensures AllUsable(more, created)
  {
  }

  lemma OneMoreUsable(known: set<Object>, created: seq<CreatedDirectory>, d: CreatedDirectory)
    requires AllUsable(known, created) && DirectoryUsable(known, d)
    ensures AllUsable(known, created + [d])
  {
  }

  lemma ChildMade(v: Volume, w: Volume, hidden: set<Slot>, created: seq<CreatedDirectory>, d: CreatedDirectory,
                  o: Object, names: set<string>, avoid: set<Object>)
    requires v.Valid() && hidden <= v.links.Keys
    requires d.slot !in v.links && o !in v.nodes && d.slot.directory in v.nodes && d.slot.name in names
    requires d.slot.directory !in avoid && w.open == v.open && o in w.inode
    requires w.links == v.links[d.slot := o] && w.nodes == v.nodes[o := Directory] && InodesKept(v, w)
    requires d.cleanup.directory == d.slot.directory && d.cleanup != d.slot && d.cleanup !in v.links
    ensures Extended(v, w, names, avoid) && AgreeOutside(v.links, w.links, {d.slot})
    ensures Remaining(w.links, hidden, created + [d]) == Remaining(v.links, hidden, created)
    ensures StackedBut(v, hidden, created) && d.identity == Some(w.inode[o]) ==> StackedBut(w, hidden, created + [d])
  {
    hide Remaining, StackedBut;
    DirectoryPushed(v, w, hidden, created, d, o);
    ExtendedByDirectory(v, w, d.slot, o, names, avoid);
  }

  /** Makes the directory `name`, which was missing a moment ago, once its cleanup name is known to be free. */
  method CreateChild(k: Kernel, parent: Object, name: string, pid: string, created: seq<CreatedDirectory>,
                     ghost hidden: set<Slot>, ghost names: set<string>, ghost avoid: set<Object>)
    returns (child: Option<Object>, all: seq<CreatedDirectory>)
    requires k.Valid() && parent in k.volume.nodes && AllUsable(k.volume.nodes.Keys, created)
    requires k.calm ==> Slot(parent, name) !in k.volume.links && hidden <= k.volume.links.Keys
    requires name in names && (k.calm ==> parent !in avoid) && avoid <= k.volume.nodes.Keys
    modifies k`volume, k`calm, k`touched, k`faults, k`shield, k`uninspected
    ensures k.Valid() && old(k.volume.nodes.Keys) <= k.volume.nodes.Keys && k.volume.open == old(k.volume.open)
    ensures k.shield == old(k.shield) && old(k.uninspected) <= k.uninspected
    ensures old(k.faults) <= k.faults <= old(k.faults) + 1 && (child.Some? ==> k.faults == old(k.faults))
    ensures child.Some? || (k.calm && k.faults == old(k.faults)) ==> k.uninspected == old(k.uninspected)
    ensures AllUsable(k.volume.nodes.Keys, all)
    ensures child.Some? ==> child.value in k.volume.nodes
    ensures k.calm ==> old(k.calm) && Extended(old(k.volume), k.volume, names, avoid)
    ensures k.calm ==> AgreeOutside(old(k.volume.links), k.volume.links, {Slot(parent, name)})
    ensures k.calm && k.faults == old(k.faults) && Slot(parent, CleanupName(name, pid)) !in old(k.volume.links) ==>
              child.Some?
    ensures k.calm ==> Remaining(k.volume.links, hidden, all) == Remaining(old(k.volume.links), hidden, created)
    ensures k.calm && child.Some? ==>
              Holds(k.volume.links, Slot(parent, name), child.value) && k.volume.nodes[child.value].Directory?
    ensures k.calm && k.uninspected == {} && StackedBut(old(k.volume), hidden, created) ==>
              StackedBut(k.volume, hidden, all)
  {
    hide StackedBut, Remaining, Slots, Kernel.Valid, CleanupName;
    child, all := None, created;
    CleanupNameDiffers(name, pid);
    VolumeIsValid(k);
    ExtendedSelf(k.volume, names, avoid);
    var cleanup := Slot(parent, CleanupName(name, pid));
    var allowed := k.Attempt();
    if allowed {
      var free := k.EnsureAbsent(cleanup);
      if free {
        child, all := MakeChild(k, parent, name, cleanup, created, hidden, names, avoid);
      }
    }
  }

  /** Opens one component of a path: an existing child, or else a new one. */
  method EnterChild(k: Kernel, parent: Object, name: string, isFinal: bool, pid: string,
                    created: seq<CreatedDirectory>, ghost hidden: set<Slot>, ghost names: set<string>,
                    ghost avoid: set<Object>)
    returns (child: Option<Object>, all: seq<CreatedDirectory>)
    requires k.Valid() && parent in k.volume.nodes && AllUsable(k.volume.nodes.Keys, created)
    requires k.calm ==> hidden <= k.volume.links.Keys && Unreachable(k.volume.links, names, avoid)
    requires name in names && (k.calm ==> parent !in avoid) && avoid <= k.volume.nodes.Keys
    modifies k`volume, k`calm, k`touched, k`faults, k`shield, k`uninspected
    ensures k.Valid() && old(k.volume.nodes.Keys) <= k.volume.nodes.Keys && k.volume.open == old(k.volume.open)
    ensures k.shield == old(k.shield) && old(k.uninspected) <= k.uninspected
    ensures old(k.faults) <= k.faults <= old(k.faults) + 1 && (child.Some? ==> k.faults == old(k.faults))
    ensures child.Some? || (k.calm && k.faults == old(k.faults)) ==> k.uninspected == old(k.uninspected)
    ensures AllUsable(k.volume.nodes.Keys, all)
    ensures child.Some? ==> child.value in k.volume.nodes
    ensures k.calm ==> old(k.calm) && Extended(old(k.volume), k.volume, names, avoid)
    ensures k.calm ==> AgreeOutside(old(k.volume.links), k.volume.links, {Slot(parent, name)})
    ensures k.calm && Slot(parent, name) in old(k.volume.links) ==> k.volume == old(k.volume)
    ensures k.calm && k.faults == old(k.faults) && Enterable(old(k.volume), parent, name, pid) ==> child.Some?
    ensures k.calm ==> Remaining(k.volume.links, hidden, all) == Remaining(old(k.volume.links), hidden, created)
    ensures k.calm && child.Some? ==>
              Holds(k.volume.links, Slot(parent, name), child.value) && k.volume.nodes[child.value].Directory?
    ensures k.calm && child.Some? ==> child.value !in avoid
    ensures k.calm && k.uninspected == {} && StackedBut(old(k.volume), hidden, created) ==>
              StackedBut(k.volume, hidden, all)
  {
    hide StackedBut, Remaining, Slots, Kernel.Valid, CleanupName;
    VolumeIsValid(k);
    ExtendedSelf(k.volume, names, avoid);
    child, all := None, created;
    var lookup := k.OpenDirectory(Slot(parent, name));
    match lookup {
      case Refused =>
      case Found(existing) =>
        var valid := true;
        if !isFinal {
          valid := k.Attempt();
        }
        if valid {
          child := Some(existing);
        }
      case NotFound =>
        child, all := CreateChild(k, parent, name, pid, created, hidden, names, avoid);
        if k.calm {
          StaysUnreachable(old(k.volume), k.volume, names, avoid);
        }
    }
  }

  /**
   Opens the directory at `path`, making what is missing of it.  On failure, the
   directories made so far are still in the result.
  */
  method CreatePath(k: Kernel, root: Object, path: seq<string>, pid: string, created: seq<CreatedDirectory>,
                    ghost hidden: set<Slot>, ghost avoid: set<Object>)
    returns (directory: Option<Object>, all: seq<CreatedDirectory>)
    requires k.Valid() && root in k.volume.nodes && AllUsable(k.volume.nodes.Keys, created)
    requires k.calm ==> hidden <= k.volume.links.Keys && Unreachable(k.volume.links, Names(path), avoid)
    requires (k.calm ==> root !in avoid) && avoid <= k.volume.nodes.Keys
    modifies k`volume, k`calm, k`touched, k`faults, k`shield, k`uninspected
    ensures k.Valid() && old(k.volume.nodes.Keys) <= k.volume.nodes.Keys && k.volume.open == old(k.volume.open)
    ensures k.shield == old(k.shield) && old(k.uninspected) <= k.uninspected
    ensures old(k.faults) <= k.faults <= old(k.faults) + 1 && (directory.Some? ==> k.faults == old(k.faults))
    ensures directory.Some? || (k.calm && k.faults == old(k.faults)) ==> k.uninspected == old(k.uninspected)
    ensures AllUsable(k.volume.nodes.Keys, all)
    ensures directory.Some? ==> directory.value in k.volume.nodes
    ensures k.calm ==> old(k.calm) && Extended(old(k.volume), k.volume, Names(path), avoid)
    ensures k.calm ==> Along(old(k.volume), k.volume, root, path, |path|)
    ensures k.calm && k.faults == old(k.faults) && Walkable(old(k.volume), root, path, pid) ==> directory.Some?
    ensures k.calm ==> Remaining(k.volume.links, hidden, all) == Remaining(old(k.volume.links), hidden, created)
    ensures k.calm && directory.Some? ==>
              Reaches(k.volume, root, path, directory.value) && directory.value !in avoid
    ensures k.calm && k.uninspected == {} && StackedBut(old(k.volume), hidden, created) ==>
              StackedBut(k.volume, hidden, all)
  {
    hide StackedBut, Remaining, Slots, Kernel.Valid, Extended, KeepsPaths, Along, Walkable, Enterable, AgreeOutside,
         Unreachable, AllUsable, Names;
    NamesHave(path);
    VolumeIsValid(k);
    ghost var names := Names(path);
    ExtendedSelf(k.volume, names, avoid);
    AlongSelf(k.volume, root, path);
    directory, all := None, created;
    var current := root;
    for index := 0 to |path|
      invariant k.Valid() && old(k.volume.nodes.Keys) <= k.volume.nodes.Keys && k.volume.open == old(k.volume.open)
      invariant k.shield == old(k.shield) && k.faults == old(k.faults) && k.uninspected == old(k.uninspected)
      invariant AllUsable(k.volume.nodes.Keys, all)
      invariant k.calm ==> Along(old(k.volume), k.volume, root, path, index)
      invariant k.calm && Walkable(old(k.volume), root, path, pid) ==> Walkable(k.volume, current, path[index..], pid)
      invariant current in k.volume.nodes && (k.calm ==> current !in avoid)
      invariant k.calm ==> old(k.calm) && Extended(old(k.volume), k.volume, names, avoid)
      invariant k.calm ==> hidden <= k.volume.links.Keys && Unreachable(k.volume.links, names, avoid)
      invariant k.calm ==> Remaining(k.volume.links, hidden, all) == Remaining(old(k.volume.links), hidden, created)
      invariant k.calm ==> Reaches(k.volume, root, path[..index], current)
      invariant k.calm && k.uninspected == {} && StackedBut(old(k.volume), hidden, created) ==>
                  StackedBut(k.volume, hidden, all)
    {
      ghost var before := k.volume;
      ghost var parent := current;
      VolumeIsValid(k);
      if Walkable(k.volume, current, path[index..], pid) {
        WalkableStep(k.volume, current, path[index..], pid);
      }
      var child;
      child, all := EnterChild(k, current, path[index], index + 1 == |path|, pid, all, hidden, names, avoid);
      if k.calm {
        Stepped(old(k.volume), before, k.volume, hidden, names, avoid, root, path, index, parent);
      }
      if child.None? {
        return;
      }
      current := child.value;
      if k.calm {
        EnteredNew(before, k.volume, parent, path[index], current, names, avoid, path[index + 1..], pid);
        WalkedOn(before, k.volume, names, avoid, root, path, index, parent, current);
      }
    }
    assert path[..|path|] == path;
    ghost var known := k.volume.nodes.Keys;
    var valid := k.Attempt();
    MoreUsable(known, k.volume.nodes.Keys, all);
    if valid {
      directory := Some(current);
    }
  }

  /** A directory that was missing is empty once it has been made. */
  lemma EnteredNew(v: Volume, w: Volume, parent: Object, name: string, child: Object, names: set<string>,
                   avoid: set<Object>, rest: seq<string>, pid: string)
    requires v.Valid() && parent in v.nodes && Extended(v, w, names, avoid)
    requires AgreeOutside(v.links, w.links, {Slot(parent, name)}) && Holds(w.links, Slot(parent, name), child)
    ensures Slot(parent, name) !in v.links ==> Walkable(w, child, rest, pid)
  {
    if Slot(parent, name) !in v.links {
      assert NothingIn(w.links, child);
      WalkableBelowNew(w, child, rest, pid);
    }
  }

  lemma NamesHave(path: seq<string>)
    ensures forall i | 0 <= i < |path| :: path[i] in Names(path)
  {
  }

  /** One more component has been entered or made. */
  lemma Stepped(start: Volume, v: Volume, w: Volume, hidden: set<Slot>, names: set<string>, avoid: set<Object>,
                root: Object, path: seq<string>, index: nat, parent: Object)
    requires index < |path| && Extended(start, v, names, avoid) && Extended(v, w, names, avoid)
    requires Unreachable(v.links, names, avoid) && avoid <= v.nodes.Keys && hidden <= v.links.Keys
    requires Along(start, v, root, path, index) && Reaches(v, root, path[..index], parent)
    requires AgreeOutside(v.links, w.links, {Slot(parent, path[index])})
    ensures Extended(start, w, names, avoid) && Unreachable(w.links, names, avoid) && hidden <= w.links.Keys
    ensures Along(start, w, root, path, index + 1) && Along(start, w, root, path, |path|)
  {
    hide Extended, Unreachable, Along, Reaches, AgreeOutside;
    ExtensionIsTransitive(start, v, w, names, avoid);
    StaysUnreachable(v, w, names, avoid);
    NothingLost(v, w, names, avoid);
    ExtendedParts(v, w, names, avoid);
    AlongStep(start, v, w, root, path, index, parent);
    AlongWidens(start, w, root, path, index + 1, |path|);
  }

  lemma WalkedOn(v: Volume, w: Volume, names: set<string>, avoid: set<Object>, root: Object, path: seq<string>,
                 index: nat, parent: Object, child: Object)
    requires index < |path| && Reaches(v, root, path[..index], parent) && Extended(v, w, names, avoid)
    requires LeadsOn(w, Slot(parent, path[index])) && w.links[Slot(parent, path[index])] == child
    ensures Reaches(w, root, path[..index + 1], child)
  {
    ExtensionKeepsPaths(v, w, names, avoid, Names(path[..index]));
    StillReaches(v, w, root, path[..index], parent);
    ReachesOneMore(w, root, path[..index], Slot(parent, path[index]));
    assert path[..index + 1] == path[..index] + [path[index]];
  }

  /** A missing ancestor is fine, and so is a missing or a regular target; a file where a directory is needed is not. */
  ghost predicate Admissible(v: Volume, o: Object, parents: seq<string>, name: string)
    decreases |parents|
  {
    if parents == [] then IsRegularOrAbsent(v, Slot(o, name))
    else
      var s := Slot(o, parents[0]);
      s in v.links ==> LeadsOn(v, s) && Admissible(v, v.links[s], parents[1..], name)
  }

  ghost predicate IsRegularOrAbsent(v: Volume, s: Slot) {
    s in v.links ==> v.links[s] in v.nodes && v.nodes[v.links[s]].File?
  }

  /** Looks at an output's target without changing anything, and refuses it exactly when it is not admissible. */
  method InspectExisting(k: Kernel, root: Object, parents: seq<string>, name: string) returns (ok: bool)
    requires k.Valid()
    modifies k`volume, k`calm, k`touched, k`faults
    ensures k.Valid() && old(k.volume.nodes.Keys) <= k.volume.nodes.Keys && k.volume.open == old(k.volume.open)
    ensures old(k.faults) <= k.faults <= old(k.faults) + 1 && (ok ==> k.faults == old(k.faults))
    ensures k.calm ==> old(k.calm) && k.volume == old(k.volume)
    ensures k.calm && k.faults == old(k.faults) ==> (ok <==> Admissible(k.volume, root, parents, name))
  {
    hide Kernel.Valid;
    VolumeIsValid(k);
    var current := root;
    for index := 0 to |parents|
      invariant k.Valid() && old(k.volume.nodes.Keys) <= k.volume.nodes.Keys && k.volume.open == old(k.volume.open)
      invariant k.faults == old(k.faults)
      invariant k.calm ==> old(k.calm) && k.volume == old(k.volume)
      invariant k.calm ==>
                  (Admissible(k.volume, root, parents, name) <==> Admissible(k.volume, current, parents[index..], name))
    {
      var lookup := k.OpenDirectory(Slot(current, parents[index]));
      match lookup {
        case Refused => return false;
        case NotFound => return true;
        case Found(child) => current := child;
      }
    }
    var target := k.InspectTarget(Slot(current, name));
    ok := target != Irregular;
  }

  // --- The quarantine ---------------------------------------------------------

  const QUARANTINE_ATTEMPTS := 16

  function QuarantineName(pid: string, nonce: string): string {
    ".circuitc-transaction-" + pid + "-" + nonce
  }

  /** The quarantine is a new private directory under a name that was free, and nothing else changed. */
  ghost predicate QuarantineMade(v: Volume, w: Volume, root: Object, pid: string, nonces: seq<string>, q: Quarantine) {
    var slot, o := q.created.slot, q.directory;
    && slot.directory == root && (exists n :: n in nonces && slot.name == QuarantineName(pid, n))
    && q.created.cleanup == Slot(root, CleanupName(slot.name, pid))
    && slot !in v.links && o !in v.nodes
    && w.links == v.links[slot := o] && w.nodes == v.nodes[o := Directory] && InodesKept(v, w)
    && o in w.inode && q.created.identity == Some(w.inode[o])
  }

  /** The name to which the quarantine would be moved for removal is free, whichever nonce is drawn. */
  ghost predicate CleanupNamesFree(links: Links, root: Object, pid: string, nonces: seq<string>) {
    forall n | n in nonces :: Slot(root, CleanupName(QuarantineName(pid, n), pid)) !in links
  }

  /** A new directory that has not been registered yet goes away, or the report is not clean. */
  ghost predicate Discarded(v: Volume, w: Volume) {
    && w.links == v.links
    && (forall o | o in v.nodes :: o in w.nodes && w.nodes[o] == v.nodes[o])
    && InodesKept(v, w)
  }

  lemma NothingDiscarded(v: Volume)
    requires v.Valid()
    ensures Discarded(v, v)
  {
  }

  lemma NewIsRemovable(v: Volume, slot: Slot, cleanup: Slot, o: Object)
    requires v.Valid() && Holds(v.links, slot, o) && v.nodes[o].Directory?
    requires cleanup !in v.links && cleanup.directory != o && NothingIn(v.links, o)
    ensures Removable(v, CreatedDirectory(slot, cleanup, Some(v.inode[o])))
  {
  }

  method InspectQuarantine(k: Kernel, slot: Slot, ghost made: Object) returns (identity: Option<Inode>)
    requires k.Valid() && LeadsOn(k.volume, slot) && made in k.volume.nodes && made !in k.origin.nodes
    modifies k`volume, k`calm, k`touched, k`faults, k`uninspected
    ensures k.Valid() && old(k.volume.nodes.Keys) <= k.volume.nodes.Keys && k.volume.open == old(k.volume.open)
    ensures k.faults == if identity.Some? then old(k.faults) else old(k.faults) + 1
    ensures k.uninspected == if identity.Some? then old(k.uninspected) else old(k.uninspected) + {made}
    ensures k.calm ==> old(k.calm) && k.volume == old(k.volume)
    ensures k.calm && identity.Some? ==>
              var o := k.volume.links[slot]; o in k.volume.inode && identity.value == k.volume.inode[o]
  {
    hide Kernel.Valid;
    VolumeIsValid(k);
    var lookup := k.OpenMadeNow(slot, made);
    identity := None;
    if lookup.Found? {
      identity := k.InspectMade(lookup.found, made);
    }
  }

  /**
   Reads and checks the directory that was just made.  Nobody else can have replaced
   it: the parent admits no other user.
  */
  method AdmitQuarantine(k: Kernel, slot: Slot, cleanup: Slot, o: Object)
    returns (r: Option<Inode>, clean: bool)
    requires k.Valid() && k.watched == {} && Holds(k.volume.links, slot, o) && o in k.volume.nodes
    requires k.volume.nodes[o].Directory? && slot.directory in k.volume.nodes && cleanup.directory == slot.directory
    requires o !in k.origin.nodes
    modifies k`volume, k`calm, k`touched, k`faults, k`uninspected
    ensures k.Valid() && old(k.volume.nodes.Keys) <= k.volume.nodes.Keys && k.volume.open == old(k.volume.open)
    ensures old(k.faults) <= k.faults && old(k.uninspected) <= k.uninspected
    ensures r.Some? <==> k.faults == old(k.faults)
    ensures r.Some? ==> k.uninspected == old(k.uninspected)
    ensures k.calm ==> old(k.calm) && OnlyLinks(old(k.volume), k.volume)
    ensures r.None? && k.calm && k.faults <= old(k.faults) + 1 ==>
              Dropped(old(k.volume.links), k.volume.links, {slot})
    ensures k.calm && r.Some? ==>
              k.volume == old(k.volume) && o in k.volume.inode && r.value == k.volume.inode[o]
    ensures r.None? && k.calm && clean ==> k.volume.links == old(k.volume.links) - {slot}
    ensures r.None? && k.calm && k.uninspected == {} && k.faults <= old(k.faults) + 1 ==>
              cleanup !in old(k.volume.links) && cleanup.directory != o && NothingIn(old(k.volume.links), o) ==> clean
  {
    hide Kernel.Valid, NothingIn, Removable, KeepsAllBut, Interference, Disposable, Dropped, AgreeOutside;
    VolumeIsValid(k);
    if cleanup !in k.volume.links && cleanup.directory != o && NothingIn(k.volume.links, o) {
      NewIsRemovable(k.volume, slot, cleanup, o);
    }
    r, clean := None, false;
    var identity := InspectQuarantine(k, slot, o);
    var private := false;
    if identity.Some? {
      private := k.Attempt();
    }
    if private {
      r := identity;
    } else {
      clean := RemoveOwnedDirectory(k, CreatedDirectory(slot, cleanup, identity));
    }
  }

  /** At most a new directory is left, at a name that a quarantine may take. */
  ghost predicate QuarantineLeft(v: Volume, w: Volume, root: Object, pid: string, nonces: seq<string>) {
    && (forall o | o in v.nodes :: o in w.nodes && w.nodes[o] == v.nodes[o]) && InodesKept(v, w)
    && (w.links == v.links
        || exists slot: Slot ::
             && slot.directory == root && (exists n :: n in nonces && slot.name == QuarantineName(pid, n))
             && slot !in v.links && slot in w.links && w.links == v.links[slot := w.links[slot]]
             && w.links[slot] !in v.nodes && LeadsOn(w, slot))
  }

  lemma NoQuarantineLeft(v: Volume, w: Volume, root: Object, pid: string, nonces: seq<string>)
    requires v.Valid() && w == v
    ensures QuarantineLeft(v, w, root, pid, nonces)
  {
  }

  lemma RefusedQuarantineLeft(v: Volume, made: Volume, w: Volume, root: Object, pid: string, nonces: seq<string>,
                              attempt: nat, o: Object)
    requires v.Valid() && attempt < |nonces|
    requires var slot := Slot(root, QuarantineName(pid, nonces[attempt]));
             && slot !in v.links && o !in v.nodes && made.links == v.links[slot := o]
             && made.nodes == v.nodes[o := Directory] && InodesKept(v, made)
             && OnlyLinks(made, w) && Dropped(made.links, w.links, {slot})
    ensures QuarantineLeft(v, w, root, pid, nonces)
  {
    hide QuarantineName, Dropped;
    var slot := Slot(root, QuarantineName(pid, nonces[attempt]));
    assert nonces[attempt] in nonces;
    LatestDropped(v.links, w.links, slot, o);
  }

  lemma LatestDropped(links: Links, after: Links, s: Slot, o: Object)
    requires s !in links && Dropped(links[s := o], after, {s})
    ensures after == links || after == links[s := o]
  {
    if s in after {
      assert after == links[s := o];
    } else {
      assert after == links;
    }
  }

  lemma QuarantineAdded(v: Volume, w: Volume, root: Object, pid: string, nonces: seq<string>, attempt: nat, o: Object,
                        identity: Option<Inode>, clean: bool)
    requires v.Valid() && w.Valid() && attempt < |nonces| && root in v.nodes
    requires var slot := Slot(root, QuarantineName(pid, nonces[attempt]));
             && slot !in v.links && o !in v.nodes && w.nodes == v.nodes[o := Directory] && InodesKept(v, w)
             && (if identity.Some? then w.links == v.links[slot := o] && o in w.inode && identity.value == w.inode[o]
                 else clean ==> w.links == v.links[slot := o] - {slot})
    ensures var name := QuarantineName(pid, nonces[attempt]);
            var slot, cleanup := Slot(root, name), Slot(root, CleanupName(name, pid));
            && (identity.Some? ==>
                  QuarantineMade(v, w, root, pid, nonces, Quarantine(o, CreatedDirectory(slot, cleanup, identity))))
            && (identity.None? && clean ==> Discarded(v, w))
            && (CleanupNamesFree(v.links, root, pid, nonces) ==> cleanup !in v.links)
  {
    assert nonces[attempt] in nonces;
  }

  /** One attempt; no result and `taken` means that the drawn name was not free. */
  method DrawQuarantine(k: Kernel, root: Object, pid: string, nonces: seq<string>, attempt: nat)
    returns (r: Option<Quarantine>, taken: bool, clean: bool)
    requires k.Valid() && k.watched == {} && root in k.volume.nodes && attempt < |nonces|
    modifies k`volume, k`calm, k`touched, k`faults, k`shield, k`uninspected
    ensures k.Valid() && old(k.volume.nodes.Keys) <= k.volume.nodes.Keys && k.volume.open == old(k.volume.open)
    ensures old(k.faults) <= k.faults && old(k.uninspected) <= k.uninspected
    ensures r.Some? || taken <==> k.faults == old(k.faults)
    ensures r.Some? || taken ==> k.uninspected == old(k.uninspected)
    ensures k.calm && r.None? && k.faults <= old(k.faults) + 1 ==>
              QuarantineLeft(old(k.volume), k.volume, root, pid, nonces)
    ensures old(k.shield) <= k.shield
    ensures r.Some? ==>
              && r.value.directory in k.shield && DirectoryUsable(k.volume.nodes.Keys, r.value.created)
              && r.value.directory in k.volume.nodes
    ensures taken ==>
              && r.None? && clean && (k.calm ==> k.volume == old(k.volume))
              && Slot(root, QuarantineName(pid, nonces[attempt])) in k.volume.links
    ensures k.calm ==> old(k.calm)
    ensures k.calm && r.Some? ==> QuarantineMade(old(k.volume), k.volume, root, pid, nonces, r.value)
    ensures k.calm && r.None? && clean ==> Discarded(old(k.volume), k.volume)
    ensures k.calm && r.None? && k.uninspected == {} && k.faults <= old(k.faults) + 1 ==>
              CleanupNamesFree(old(k.volume.links), root, pid, nonces) ==> clean
  {
    hide CleanupName, QuarantineName, Kernel.Valid, CleanupNamesFree, QuarantineMade, Discarded, QuarantineLeft, Dropped,
         InodesKept;
    r, taken, clean := None, false, true;
    VolumeIsValid(k);
    NothingDiscarded(k.volume);
    NoQuarantineLeft(k.volume, k.volume, root, pid, nonces);
    var drawn := k.Attempt();
    if !drawn {
      return;
    }
    var name := QuarantineName(pid, nonces[attempt]);
    var slot, cleanup := Slot(root, name), Slot(root, CleanupName(name, pid));
    CleanupNameDiffers(name, pid);
    var making := k.MakeDirectoryNow(slot, true);
    if !making.Created? {
      taken := making.Exists?;
      return;
    }
    ghost var made := k.volume;
    var identity;
    identity, clean := AdmitQuarantine(k, slot, cleanup, making.made);
    if identity.Some? {
      r := Some(Quarantine(making.made, CreatedDirectory(slot, cleanup, identity)));
    }
    VolumeIsValid(k);
    if k.calm {
      QuarantineDrawn(old(k.volume), made, k.volume, root, pid, nonces, attempt, making.made, identity, clean);
    }
  }

  /** What one attempt leaves: the quarantine, or nothing, or a directory that could not be removed again. */
  lemma QuarantineDrawn(v: Volume, made: Volume, w: Volume, root: Object, pid: string, nonces: seq<string>,
                        attempt: nat, o: Object, identity: Option<Inode>, clean: bool)
    requires v.Valid() && w.Valid() && attempt < |nonces| && root in v.nodes
    requires var slot := Slot(root, QuarantineName(pid, nonces[attempt]));
             && slot !in v.links && o !in v.nodes && made.links == v.links[slot := o]
             && made.nodes == v.nodes[o := Directory] && InodesKept(v, made) && OnlyLinks(made, w)
             && (if identity.Some? then w == made && o in w.inode && identity.value == w.inode[o]
                 else clean ==> w.links == made.links - {slot})
    ensures var name := QuarantineName(pid, nonces[attempt]);
            var slot, cleanup := Slot(root, name), Slot(root, CleanupName(name, pid));
            && (identity.Some? ==>
                  QuarantineMade(v, w, root, pid, nonces, Quarantine(o, CreatedDirectory(slot, cleanup, identity))))
            && (identity.None? && clean ==> Discarded(v, w))
            && (CleanupNamesFree(v.links, root, pid, nonces) ==> cleanup !in v.links)
            && (identity.None? && Dropped(made.links, w.links, {slot}) ==> QuarantineLeft(v, w, root, pid, nonces))
  {
    hide CleanupName, QuarantineName, CleanupNamesFree, QuarantineMade, Discarded, QuarantineLeft, Dropped;
    QuarantineAdded(v, w, root, pid, nonces, attempt, o, identity, clean);
    if identity.None? && Dropped(made.links, w.links, {Slot(root, QuarantineName(pid, nonces[attempt]))}) {
      RefusedQuarantineLeft(v, made, w, root, pid, nonces, attempt, o);
    }
  }

  /** Draws names until one is free. */
  method CreateQuarantine(k: Kernel, root: Object, pid: string, nonces: seq<string>)
    returns (r: Option<Quarantine>, clean: bool)
    requires k.Valid() && k.watched == {} && root in k.volume.nodes && |nonces| == QUARANTINE_ATTEMPTS
    modifies k`volume, k`calm, k`touched, k`faults, k`shield, k`uninspected
    ensures k.Valid() && old(k.volume.nodes.Keys) <= k.volume.nodes.Keys && k.volume.open == old(k.volume.open)
    ensures old(k.faults) <= k.faults && old(k.uninspected) <= k.uninspected
    ensures r.Some? ==> k.faults == old(k.faults)
    ensures r.Some? || k.faults == old(k.faults) ==> k.uninspected == old(k.uninspected)
    ensures k.calm && r.None? && k.faults <= old(k.faults) + 1 ==>
              QuarantineLeft(old(k.volume), k.volume, root, pid, nonces)
    ensures k.calm && k.faults == old(k.faults) && Slot(root, QuarantineName(pid, nonces[0])) !in old(k.volume.links) ==>
              r.Some?
    ensures old(k.shield) <= k.shield
    ensures r.Some? ==>
              && r.value.directory in k.shield && DirectoryUsable(k.volume.nodes.Keys, r.value.created)
              && r.value.directory in k.volume.nodes
    ensures k.calm ==> old(k.calm)
    ensures k.calm && r.Some? ==> QuarantineMade(old(k.volume), k.volume, root, pid, nonces, r.value)
    ensures k.calm && r.None? && clean ==> Discarded(old(k.volume), k.volume)
    ensures k.calm && r.None? && k.uninspected == {} && k.faults <= old(k.faults) + 1 ==>
              CleanupNamesFree(old(k.volume.links), root, pid, nonces) ==> clean
  {
    hide Kernel.Valid, CleanupNamesFree, QuarantineMade, Discarded, QuarantineName, QuarantineLeft;
    NoQuarantineLeft(k.volume, k.volume, root, pid, nonces) by {
      VolumeIsValid(k);
    }
    r, clean := None, true;
    VolumeIsValid(k);
    NothingDiscarded(k.volume);
    for attempt := 0 to |nonces|
      invariant k.Valid() && old(k.volume.nodes.Keys) <= k.volume.nodes.Keys && k.volume.open == old(k.volume.open)
      invariant k.faults == old(k.faults) && k.uninspected == old(k.uninspected)
      invariant k.calm && attempt > 0 ==> Slot(root, QuarantineName(pid, nonces[0])) in k.volume.links
      invariant old(k.shield) <= k.shield && r.None? && clean
      invariant k.calm ==> old(k.calm) && k.volume == old(k.volume)
    {
      var taken;
      r, taken, clean := DrawQuarantine(k, root, pid, nonces, attempt);
      if !taken {
        return;
      }
    }
  }
}
