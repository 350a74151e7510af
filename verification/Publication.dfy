/**
 Publishing a set of output files all or nothing: stage every output, move every
 existing target to a backup, publish, and only then remove the backups.  Any failure
 before the last output is published rolls everything back.
*/
module Publication {
  import opened Wrappers
  import opened Namespace
  import opened Cleanup
  import opened Rollback
  import opened Directories
  import opened Walks
  import opened Progress
  import opened Phases
  import opened Entries
  import opened Readiness
  import opened Residue

  datatype Outcome = Published(warning: bool) | Failed(clean: bool)

  // --- What lies under the transaction ----------------------------------------

  /**
   Without interference: what the volume is before the first output is staged.  Apart
   from the quarantine and new directories, it is as it was.
  */
  ghost predicate Founded(start: Volume, v: Volume, quarantine: Quarantine, created: seq<CreatedDirectory>) {
    var slot, q := quarantine.created.slot, quarantine.directory;
    && Remaining(v.links, {slot}, created) == start.links
    && NothingIn(v.links, q)
    && slot !in start.links
    && (forall s | s in v.links && s !in start.links && s != slot ::
          v.links[s] !in start.nodes && v.links[s] in v.nodes && v.nodes[v.links[s]].Directory?)
  }

  /** Every file is one from the start. */
  ghost predicate NoNewFiles(start: Volume, v: Volume) {
    forall o | o in v.nodes && v.nodes[o].File? :: o in start.nodes
  }

  lemma QuarantineIsFounded(start: Volume, v: Volume, w: Volume, root: Object, pid: string, nonces: seq<string>,
                            quarantine: Quarantine, created: seq<CreatedDirectory>, names: set<string>)
    requires start.Valid() && v.Valid() && Extended(start, v, names, {})
    requires Remaining(v.links, {}, created) == start.links
    requires QuarantineMade(v, w, root, pid, nonces, quarantine) && root in v.nodes
    ensures Founded(start, w, quarantine, created) && NoNewFiles(start, w)
  {
    hide CleanupName, QuarantineName, Slots, Remaining;
    WithoutQuarantine(v.links, w.links, quarantine, created);
    NotRemaining(v.links, created, quarantine.created.slot);
    NewLinksAreDirectories(start, v, w, root, pid, nonces, quarantine, names);
    hide Extended;
  }

  lemma NewLinksAreDirectories(start: Volume, v: Volume, w: Volume, root: Object, pid: string, nonces: seq<string>,
                               quarantine: Quarantine, names: set<string>)
    requires v.Valid() && Extended(start, v, names, {}) && QuarantineMade(v, w, root, pid, nonces, quarantine)
    ensures forall s | s in w.links && s !in start.links && s != quarantine.created.slot ::
              w.links[s] !in start.nodes && w.links[s] in w.nodes && w.nodes[w.links[s]].Directory?
    ensures NoNewFiles(start, w)
  {
    hide CleanupName, QuarantineName;
  }

  lemma WithoutQuarantine(before: Links, after: Links, quarantine: Quarantine, created: seq<CreatedDirectory>)
    requires quarantine.created.slot !in before && after == before[quarantine.created.slot := quarantine.directory]
    ensures Remaining(after, {quarantine.created.slot}, created) == Remaining(before, {}, created)
  {
    assert after - {quarantine.created.slot} == before && before - {} == before;
  }

  lemma NotRemaining(links: Links, created: seq<CreatedDirectory>, s: Slot)
    ensures s !in links ==> s !in Remaining(links, {}, created)
  {
  }

  lemma QuarantineKeepsStack(v: Volume, w: Volume, root: Object, pid: string, nonces: seq<string>,
                             quarantine: Quarantine, created: seq<CreatedDirectory>)
    requires QuarantineMade(v, w, root, pid, nonces, quarantine) && StackedBut(v, {}, created)
    ensures StackedBut(w, {quarantine.created.slot}, created)
  {
    hide CleanupName, QuarantineName, Stacked;
    var slot := quarantine.created.slot;
    assert w.links - {slot} == v.links && v.links - {} == v.links;
    SameStack(v.(links := v.links - {}), w.(links := w.links - {slot}), created);
  }

  lemma SameStack(v: Volume, w: Volume, created: seq<CreatedDirectory>)
    requires Stacked(v, created) && w.links == v.links && Grew(v, w)
    ensures Stacked(w, created)
  {
    forall i | 0 <= i < |created| ensures StackedAt(w, created, i) {
      assert StackedAt(v, created, i);
    }
  }

  lemma BuildingStarts(v: Volume, w: Volume, root: Object, outputs: seq<Output>, pid: string, nonces: seq<string>,
                       quarantine: Quarantine, created: seq<CreatedDirectory>)
    requires v.Valid() && w.Valid() && root in v.nodes && QuarantineMade(v, w, root, pid, nonces, quarantine)
    requires Unguessed(outputs, pid, nonces)
    ensures root != quarantine.directory
    ensures Building(w, w, root, outputs, [], quarantine, created, created)
  {
    hide CleanupName, QuarantineName, PathNames;
  }

  lemma StaysFounded(start: Volume, v: Volume, w: Volume, root: Object, outputs: seq<Output>,
                     entries: seq<OutputEntry>, quarantine: Quarantine, created: seq<CreatedDirectory>,
                     all: seq<CreatedDirectory>)
    requires Founded(start, v, quarantine, created) && start.nodes.Keys <= v.nodes.Keys && v.Valid()
    requires Building(v, w, root, outputs, entries, quarantine, created, all) && w.Valid()
    ensures Founded(start, w, quarantine, all)
    ensures NoNewFiles(start, v) ==> NoNewFiles(start, w)
  {
    hide Remaining, PathNames, Rooted, Unreachable;
  }

  /** The quarantine can be removed again as long as it is empty. */
  lemma QuarantineIsRemovable(start: Volume, v: Volume, w: Volume, base: Volume, root: Object, outputs: seq<Output>,
                              pid: string, nonces: seq<string>, entries: seq<OutputEntry>, quarantine: Quarantine,
                              created: seq<CreatedDirectory>, all: seq<CreatedDirectory>, names: set<string>)
    requires v.Valid() && w.Valid() && base.Valid() && root in v.nodes && Extended(start, v, names, {})
    requires QuarantineMade(v, w, root, pid, nonces, quarantine)
    requires Building(w, base, root, outputs, entries, quarantine, created, all)
    requires Unforeseen(start.links, names + PathNames(outputs), pid, nonces)
    requires NothingIn(base.links, quarantine.directory)
    ensures Removable(base, quarantine.created)
  {
    hide CleanupName, QuarantineName, Remaining, Unreachable, Rooted, PathNames;
    CleanupStaysFree(start, v, w, base, root, outputs, pid, nonces, entries, quarantine, created, all, names);
    QuarantineIsThere(v, w, base, root, outputs, pid, nonces, entries, quarantine, created, all);
    hide Unforeseen, Extended, QuarantineMade, Building;
  }

  lemma QuarantineIsThere(v: Volume, w: Volume, base: Volume, root: Object, outputs: seq<Output>, pid: string,
                          nonces: seq<string>, entries: seq<OutputEntry>, quarantine: Quarantine,
                          created: seq<CreatedDirectory>, all: seq<CreatedDirectory>)
    requires v.Valid() && root in v.nodes && QuarantineMade(v, w, root, pid, nonces, quarantine)
    requires Building(w, base, root, outputs, entries, quarantine, created, all)
    ensures var slot, o := quarantine.created.slot, quarantine.directory;
            && Holds(base.links, slot, o) && o in base.nodes && base.nodes[o].Directory?
            && o in base.inode && quarantine.created.identity == Some(base.inode[o])
            && quarantine.created.cleanup.directory != o
  {
    hide CleanupName, QuarantineName, Remaining, Unreachable, Rooted, PathNames;
  }

  lemma CleanupStaysFree(start: Volume, v: Volume, w: Volume, base: Volume, root: Object, outputs: seq<Output>,
                         pid: string, nonces: seq<string>, entries: seq<OutputEntry>, quarantine: Quarantine,
                         created: seq<CreatedDirectory>, all: seq<CreatedDirectory>, names: set<string>)
    requires Extended(start, v, names, {}) && QuarantineMade(v, w, root, pid, nonces, quarantine)
    requires Building(w, base, root, outputs, entries, quarantine, created, all)
    requires Unforeseen(start.links, names + PathNames(outputs), pid, nonces)
    ensures quarantine.created.cleanup !in base.links
  {
    hide CleanupName, QuarantineName, Remaining, Unreachable, Rooted, PathNames;
    var n :| n in nonces && quarantine.created.slot.name == QuarantineName(pid, n);
    CleanupNameDiffers(quarantine.created.slot.name, pid);
  }

  // --- Giving up --------------------------------------------------------------

  lemma LeftoversStayRemovable(base: Volume, v: Volume, quarantine: CreatedDirectory, created: seq<CreatedDirectory>)
    requires LeftoversRemovable(base, quarantine, created) && Grew(base, v)
    ensures LeftoversRemovable(v.(links := base.links), quarantine, created)
  {
    hide Stacked;
    SameStack(base.(links := base.links - {quarantine.slot}), v.(links := base.links - {quarantine.slot}), created);
  }

  lemma MidwayIsUndoable(base: Volume, v: Volume, entries: seq<OutputEntry>, temps: seq<StagedFile>,
                         backs: seq<RetainedBackup>, published: nat, quarantine: Quarantine,
                         created: seq<CreatedDirectory>)
    requires |temps| <= |entries| && published <= |entries| && IndicesOk(entries, backs)
    requires Midway(base, v, entries, temps, backs, published, quarantine.directory)
    ensures Undone(v.links, entries, |temps|, backs, published) == base.links
    ensures Identified(temps) ==> Undoable(v, entries, temps, backs, published, quarantine.directory)
    ensures FrontIdentified(temps) ==> CanUndo(v, entries, temps, backs, published, quarantine.directory)
    ensures LeftoversRemovable(base, quarantine.created, created) ==>
              LeftoversRemovable(v.(links := Undone(v.links, entries, |temps|, backs, published)),
                                 quarantine.created, created)
  {
    hide Undone, Placed, Apart, TargetsFree, WithoutTargets, LeftoversRemovable, Differing, AgreeOutside,
         BackupsAreOriginals, TempsNew, NothingIn, FilesIn, BackupFilesIn;
    if LeftoversRemovable(base, quarantine.created, created) {
      LeftoversStayRemovable(base, v, quarantine.created, created);
    }
  }

  /** Rolls back from wherever the transaction has got to. */
  method Abort(k: Kernel, entries: seq<OutputEntry>, temps: seq<StagedFile>, backs: seq<RetainedBackup>,
               published: seq<PublishedOutput>, quarantine: Quarantine, created: seq<CreatedDirectory>,
               ghost base: Volume, ghost known: set<Object>) returns (ok: bool)
    requires k.Valid() && known <= k.volume.nodes.Keys && EntriesUsable(known, k.shield, entries, quarantine.directory)
    requires |temps| <= |entries| && IndicesOk(entries, backs) && PublishedOk(temps, published)
    requires StagedOk(k.staged, k.volume.open, k.recorded, temps)
    requires BackupsOk(k.volume.open, k.recorded, entries, backs)
    requires DirectoryUsable(known, quarantine.created) && AllUsable(known, created)
    requires k.calm ==> Midway(base, k.volume, entries, temps, backs, |published|, quarantine.directory)
                        && BackupsObserved(k.watched, entries, backs)
    modifies k`volume, k`calm, k`touched, k`faults, k`unlinked, k`watched
    ensures k.Valid() && old(k.faults) <= k.faults && k.unlinked <= old(k.unlinked) + StagedFiles(temps)
    ensures k.calm ==> old(k.calm) && Grew(base, k.volume)
    ensures FrontIdentified(temps) && k.calm && k.faults == old(k.faults) ==>
              Dropped(Leftover(base.links, entries, temps), k.volume.links, {quarantine.created.slot} + Slots(created))
    ensures k.calm && ok ==> k.volume.links == Remaining(base.links, {quarantine.created.slot}, created)
    ensures Identified(temps) && LeftoversRemovable(base, quarantine.created, created) ==>
              k.calm && k.faults == old(k.faults) ==> ok
  {
    hide Kernel.Valid, Undone, Placed, Apart, StagedOk, BackupsOk, BackupsObserved, EntriesUsable, Undoable,
         LeftoversRemovable, Identified, Differing, AgreeOutside, TargetsFree, WithoutTargets, DirectoryUsable,
         BackupsAreOriginals, TempsNew, NothingIn, FilesIn, BackupFilesIn, Grew, StagedFiles, CanUndo, Leftover,
         Dropped, FrontIdentified;
    if k.calm {
      MidwayIsUndoable(base, k.volume, entries, temps, backs, |published|, quarantine, created);
      assert Grew(base, k.volume);
      if temps == [] && backs == [] {
        NothingIsUndone(k.volume.links, entries, backs);
        NothingIsLeftOver(k.volume.links, entries, temps);
      }
    }
    ghost var v := k.volume;
    ok := RollBack(k, entries, temps, backs, published, quarantine, created, known);
    if k.calm {
      GrewOn(base, v, k.volume);
    }
  }

  lemma NothingIsUndone(links: Links, entries: seq<OutputEntry>, backs: seq<RetainedBackup>)
    requires backs == []
    ensures IndicesOk(entries, backs) && Undone(links, entries, 0, backs, 0) == links
  {
  }

  lemma NothingIsLeftOver(links: Links, entries: seq<OutputEntry>, temps: seq<StagedFile>)
    requires temps == [] || (|temps| <= |entries| && Identified(temps))
    ensures Leftover(links, entries, temps) == links
  {
  }

  lemma SameGrew(v: Volume)
    requires v.Valid()
    ensures Grew(v, v)
  {
  }

  lemma GrewTwice(u: Volume, v: Volume, w: Volume)
    requires Grew(u, v) && Grew(v, w)
    ensures Grew(u, w)
  {
  }

  lemma GrewOn(u: Volume, v: Volume, w: Volume)
    requires Grew(u, v) && OnlyLinks(v, w)
    ensures Grew(u, w)
  {
  }

  // --- After the last output is published -------------------------------------

  function BackupSlots(entries: seq<OutputEntry>, backs: seq<RetainedBackup>): set<Slot>
    requires IndicesOk(entries, backs)
  {
    set i | 0 <= i < |backs| :: Entry(entries, backs, i).backup
  }

  ghost predicate AllRetired(retired: set<Object>, backs: seq<RetainedBackup>) {
    forall i | 0 <= i < |backs| :: backs[i].descriptor in retired
  }

  /** The backups from `lo` on stand at their names, which all differ, and nothing is in the quarantine. */
  ghost predicate BackupsStand(v: Volume, entries: seq<OutputEntry>, backs: seq<RetainedBackup>, q: Object, lo: nat)
    requires IndicesOk(entries, backs)
  {
    && NothingIn(v.links, q)
    && (forall i {:trigger backs[i]} | lo <= i < |backs| ::
          && Holds(v.links, Entry(entries, backs, i).backup, backs[i].descriptor)
          && backs[i].descriptor in v.nodes && v.nodes[backs[i].descriptor].File?)
    && BackupsDiffer(entries, backs)
  }

  ghost predicate BackupsDiffer(entries: seq<OutputEntry>, backs: seq<RetainedBackup>)
    requires IndicesOk(entries, backs)
  {
    forall i, j {:trigger backs[i], backs[j]} | 0 <= i < j < |backs| ::
      Entry(entries, backs, i).backup != Entry(entries, backs, j).backup
  }

  lemma NextBackupStands(v: Volume, entries: seq<OutputEntry>, backs: seq<RetainedBackup>, q: Object, i: nat)
    requires IndicesOk(entries, backs) && i < |backs| && BackupsStand(v, entries, backs, q, i)
    ensures var e := Entry(entries, backs, i);
            e.backupClaim.directory == q ==> Claimable(v, e.backup, e.backupClaim, backs[i].descriptor)
    ensures BackupsStand(v.(links := v.links - {Entry(entries, backs, i).backup}), entries, backs, q, i + 1)
  {
    var w := v.(links := v.links - {Entry(entries, backs, i).backup});
    forall j {:trigger backs[j]} | i + 1 <= j < |backs|
      ensures Holds(w.links, Entry(entries, backs, j).backup, backs[j].descriptor)
    {
      assert Holds(v.links, Entry(entries, backs, j).backup, backs[j].descriptor);
      assert backs[i] == backs[i];
    }
  }

  lemma OneMoreBackup(entries: seq<OutputEntry>, backs: seq<RetainedBackup>, n: nat)
    requires IndicesOk(entries, backs) && n < |backs|
    ensures IndicesOk(entries, backs[..n]) && IndicesOk(entries, backs[..n + 1])
    ensures BackupSlots(entries, backs[..n + 1]) == BackupSlots(entries, backs[..n]) + {Entry(entries, backs, n).backup}
  {
    var some, more := backs[..n], backs[..n + 1];
    assert forall i | 0 <= i < n :: Entry(entries, some, i) == Entry(entries, more, i);
    assert Entry(entries, more, n) == Entry(entries, backs, n);
    assert forall s | s in BackupSlots(entries, some) :: s in BackupSlots(entries, more);
  }

  /** Removes the originals that were replaced. */
  method CleanUpBackups(k: Kernel, entries: seq<OutputEntry>, backs: seq<RetainedBackup>, q: Object,
                        ghost known: set<Object>) returns (ok: bool)
    requires k.Valid() && known <= k.volume.nodes.Keys && EntriesUsable(known, k.shield, entries, q)
    requires IndicesOk(entries, backs) && BackupsOk(k.volume.open, k.recorded, entries, backs)
    requires AllRetired(k.retired, backs) && k.watched == {}
    modifies k`volume, k`calm, k`touched, k`faults, k`unlinked
    ensures k.Valid() && k.volume.open == old(k.volume.open) && old(k.volume.nodes.Keys) <= k.volume.nodes.Keys
    ensures old(k.faults) <= k.faults && (ok ==> k.faults == old(k.faults))
    ensures k.calm ==> old(k.calm) && OnlyLinks(old(k.volume), k.volume)
    ensures k.calm ==> KeepsAllBut(old(k.volume.links), k.volume.links, BackupSlots(entries, backs))
    ensures k.calm && ok ==> k.volume.links == old(k.volume.links) - BackupSlots(entries, backs)
    ensures k.calm && k.faults == old(k.faults) && BackupsStand(old(k.volume), entries, backs, q, 0) ==> ok
  {
    hide Kernel.Valid, EntriesUsable, BackupSlots, BackupsStand, KeepsAllBut, AgreeOutside;
    ghost var standing := BackupsStand(k.volume, entries, backs, q, 0);
    NothingTakenAway(k.volume.links);
    ok := true;
    assert IndicesOk(entries, backs[..0]) && BackupSlots(entries, backs[..0]) == {} by {
      NoBackupSlots(entries);
    }
    for index := 0 to |backs|
      invariant k.Valid() && k.volume.open == old(k.volume.open)
      invariant old(k.volume.nodes.Keys) <= k.volume.nodes.Keys && old(k.faults) <= k.faults
      invariant ok ==> k.faults == old(k.faults)
      invariant k.calm ==> old(k.calm) && OnlyLinks(old(k.volume), k.volume)
      invariant IndicesOk(entries, backs[..index])
      invariant k.calm ==> KeepsAllBut(old(k.volume.links), k.volume.links, BackupSlots(entries, backs[..index]))
      invariant k.calm && ok ==> k.volume.links == old(k.volume.links) - BackupSlots(entries, backs[..index])
      invariant standing && k.calm && k.faults == old(k.faults) ==>
                  ok && BackupsStand(k.volume, entries, backs, q, index)
    {
      ghost var before := k.volume;
      if BackupsStand(before, entries, backs, q, index) {
        NextBackupStands(before, entries, backs, q, index);
      }
      var b := backs[index];
      var e := entries[b.index];
      UsableEntry(known, k.shield, entries, q, b.index);
      OneMoreBackup(entries, backs, index);
      var removed := RemoveOwnedFile(k, e.backup, e.backupClaim, b.identity, false, b.descriptor);
      ok := ok && removed;
      if k.calm {
        KeptWithout(old(k.volume.links), before.links, k.volume.links, BackupSlots(entries, backs[..index]), e.backup);
      }
    }
    assert backs[..|backs|] == backs;
  }

  lemma NothingTakenAway(links: Links)
    ensures KeepsAllBut(links, links, {}) && links - {} == links
  {
  }

  lemma KeptWithout(a: Links, b: Links, c: Links, some: set<Slot>, s: Slot)
    requires KeepsAllBut(a, b, some) && KeepsAllBut(b, c, {s})
    ensures KeepsAllBut(a, c, some + {s})
    ensures b == a - some && c == b - {s} ==> c == a - (some + {s})
  {
  }

  lemma NoBackupSlots(entries: seq<OutputEntry>)
    ensures BackupSlots(entries, []) == {}
  {
  }

  lemma UsableEntry(nodes: set<Object>, shield: set<Object>, entries: seq<OutputEntry>, q: Object, i: nat)
    requires EntriesUsable(nodes, shield, entries, q) && i < |entries|
    ensures EntryUsable(nodes, entries[i], q) && q in shield
  {
  }

  ghost predicate AllLive(v: Volume, objects: seq<Object>) {
    forall o | o in objects :: o in v.Live()
  }

  ghost predicate AllStored(v: Volume, stored: map<Object, Image>, objects: seq<Object>) {
    forall o | o in objects :: IsStored(v, stored, o)
  }

  /** Whatever file the disk had as it was, it has as it is. */
  ghost predicate StillStored(v: Volume, before: map<Object, Image>, w: Volume, after: map<Object, Image>) {
    forall o | o in v.nodes && v.nodes[o].File? && IsStored(v, before, o) :: IsStored(w, after, o)
  }

  /** One of the directories has this inode number, and the disk has it as it is. */
  ghost predicate IsFlushed(v: Volume, stored: map<Object, Image>, directories: seq<Object>, i: Inode) {
    exists d :: d in directories && d in v.inode && v.inode[d] == i && IsStored(v, stored, d)
  }

  lemma FlushKeepsFlushed(v: Volume, before: map<Object, Image>, o: Object)
    ensures var after := before[o := ImageOf(v, o)];
            && IsStored(v, after, o)
            && (forall p | IsStored(v, before, p) :: IsStored(v, after, p))
            && forall directories, i | IsFlushed(v, before, directories, i) :: IsFlushed(v, after, directories, i)
  {
    var after := before[o := ImageOf(v, o)];
    forall directories, i | IsFlushed(v, before, directories, i) ensures IsFlushed(v, after, directories, i) {
      var d :| d in directories && d in v.inode && v.inode[d] == i && IsStored(v, before, d);
      assert IsStored(v, after, d);
    }
  }

  /** Directories with a name or a descriptor are told apart by their inode numbers. */
  lemma SameInodeIsSame(v: Volume, stored: map<Object, Image>, directories: seq<Object>, d: Object)
    requires v.Valid() && AllLive(v, directories) && d in directories
    requires d in v.inode && IsFlushed(v, stored, directories, v.inode[d])
    ensures IsStored(v, stored, d)
  {
    hide IsStored;
    var f :| f in directories && f in v.inode && v.inode[f] == v.inode[d] && IsStored(v, stored, f);
    assert f == d;
  }

  /** Flushes every directory, but none twice, going by inode numbers. */
  method SyncDirectories(k: Kernel, directories: seq<Object>) returns (ok: bool)
    requires k.Valid() && forall d | d in directories :: d in k.volume.nodes
    modifies k`volume, k`calm, k`touched, k`faults, k`stored
    ensures k.Valid() && k.volume.open == old(k.volume.open) && old(k.volume.nodes.Keys) <= k.volume.nodes.Keys
    ensures old(k.faults) <= k.faults && (k.faults == old(k.faults) <==> ok)
    ensures k.calm ==> old(k.calm) && k.volume == old(k.volume)
    ensures k.calm ==> forall o | IsStored(k.volume, old(k.stored), o) :: IsStored(k.volume, k.stored, o)
    ensures k.calm && ok && AllLive(k.volume, directories) ==> AllStored(k.volume, k.stored, directories)
  {
    hide Kernel.Valid, IsStored, IsFlushed, AllLive;
    VolumeIsValid(k);
    var synced: set<Inode> := {};
    ok := true;
    for index := 0 to |directories|
      invariant k.Valid() && k.volume.open == old(k.volume.open)
      invariant old(k.volume.nodes.Keys) <= k.volume.nodes.Keys && old(k.faults) <= k.faults
      invariant k.faults == old(k.faults) <==> ok
      invariant k.calm ==> old(k.calm) && k.volume == old(k.volume)
      invariant k.calm ==> forall o | IsStored(k.volume, old(k.stored), o) :: IsStored(k.volume, k.stored, o)
      invariant k.calm && ok ==> forall i | i in synced :: IsFlushed(k.volume, k.stored, directories, i)
      invariant k.calm && ok && AllLive(k.volume, directories) ==> AllStored(k.volume, k.stored, directories[..index])
    {
      var d := directories[index];
      assert d in directories && directories[..index + 1] == directories[..index] + [d];
      var identity := k.Inspect(d);
      match identity {
        case None => ok := false;
        case Some(i) =>
          VolumeIsValid(k);
          ghost var stored := k.stored;
          if i !in synced {
            synced := synced + {i};
            var done := k.Flush(d);
            ok := ok && done;
            if k.calm && done {
              FlushKeepsFlushed(k.volume, stored, d);
              FlushedIs(k.volume, k.stored, directories, d);
            }
          } else if k.calm && ok && AllLive(k.volume, directories) {
            SameInodeIsSame(k.volume, k.stored, directories, d);
          }
      }
    }
    assert directories[..|directories|] == directories;
  }

  lemma FlushedIs(v: Volume, stored: map<Object, Image>, directories: seq<Object>, d: Object)
    requires d in directories && d in v.inode && IsStored(v, stored, d)
    ensures IsFlushed(v, stored, directories, v.inode[d])
  {
  }

  /** The volume once the backups are gone. */
  function BackupsGone(v: Volume, entries: seq<OutputEntry>, backs: seq<RetainedBackup>): Volume
    requires IndicesOk(entries, backs)
  {
    v.(links := v.links - BackupSlots(entries, backs))
  }

  function Descriptors(backs: seq<RetainedBackup>): set<Object> {
    set b | b in backs :: b.descriptor
  }

  /** Where names have changed: beside the quarantine, beside every target, and beside every new directory. */
  function Homes(entries: seq<OutputEntry>, quarantine: Quarantine, created: seq<CreatedDirectory>): seq<Object> {
    [quarantine.created.slot.directory]
    + seq(|entries|, i requires 0 <= i < |entries| => entries[i].target.directory)
    + seq(|created|, i requires 0 <= i < |created| => created[i].slot.directory)
  }

  lemma HomesAreUsable(nodes: set<Object>, shield: set<Object>, entries: seq<OutputEntry>, quarantine: Quarantine,
                       created: seq<CreatedDirectory>)
    requires EntriesUsable(nodes, shield, entries, quarantine.directory)
    requires DirectoryUsable(nodes, quarantine.created) && AllUsable(nodes, created)
    ensures forall d | d in Homes(entries, quarantine, created) :: d in nodes
  {
    TargetDirectories(nodes, shield, entries, quarantine.directory);
    assert forall i | 0 <= i < |created| :: created[i] in created && DirectoryUsable(nodes, created[i]);
  }

  /** File contents do not depend on names. */
  lemma FilesStayStored(v: Volume, w: Volume, before: map<Object, Image>, after: map<Object, Image>)
    requires w.nodes == v.nodes && forall o | IsStored(w, before, o) :: IsStored(w, after, o)
    ensures StillStored(v, before, w, after)
  {
  }

  /** Nothing here can fail the publication any more: problems become a warning. */
  method Finish(k: Kernel, entries: seq<OutputEntry>, backs: seq<RetainedBackup>, quarantine: Quarantine,
                created: seq<CreatedDirectory>, ghost known: set<Object>) returns (warning: bool)
    requires k.Valid() && known <= k.volume.nodes.Keys && EntriesUsable(known, k.shield, entries, quarantine.directory)
    requires IndicesOk(entries, backs) && BackupsOk(k.volume.open, k.recorded, entries, backs)
    requires DirectoryUsable(known, quarantine.created) && AllUsable(known, created)
    modifies k`volume, k`calm, k`touched, k`faults, k`unlinked, k`watched, k`retired, k`stored
    ensures k.Valid() && old(k.faults) <= k.faults && (!warning ==> k.faults == old(k.faults))
    ensures k.retired == old(k.retired) + Descriptors(backs)
    ensures k.calm ==> old(k.calm) && OnlyLinks(old(k.volume), k.volume)
    ensures k.calm ==>
              KeepsAllBut(old(k.volume.links), k.volume.links,
                          BackupSlots(entries, backs) + {quarantine.created.slot})
    ensures k.calm && !warning ==>
              k.volume.links == old(k.volume.links) - BackupSlots(entries, backs) - {quarantine.created.slot}
    ensures k.calm && k.faults == old(k.faults) && BackupsStand(old(k.volume), entries, backs, quarantine.directory, 0) ==>
              Removable(BackupsGone(old(k.volume), entries, backs), quarantine.created) ==> !warning
    ensures k.calm ==> StillStored(old(k.volume), old(k.stored), k.volume, k.stored)
    ensures k.calm && !warning && AllLive(k.volume, Homes(entries, quarantine, created)) ==>
              AllStored(k.volume, k.stored, Homes(entries, quarantine, created))
  {
    hide Kernel.Valid, EntriesUsable, BackupSlots, BackupsOk, BackupsStand, Removable, KeepsAllBut, Disposable, IsStored,
         StillStored, Homes, AllUsable, AllLive, AllStored;
    k.Retire(Descriptors(backs));
    var hooked := k.Attempt();
    var cleaned := CleanUpBackups(k, entries, backs, quarantine.directory, known);
    ghost var cleanedLinks := k.volume.links;
    var removed := RemoveOwnedDirectory(k, quarantine.created);
    HomesAreUsable(known, k.shield, entries, quarantine, created);
    if k.calm {
      KeptWithout(old(k.volume.links), cleanedLinks, k.volume.links, BackupSlots(entries, backs),
                  quarantine.created.slot);
    }
    var synced := SyncDirectories(k, Homes(entries, quarantine, created));
    warning := !hooked || !cleaned || !removed || !synced;
    if k.calm {
      FilesStayStored(old(k.volume), k.volume, old(k.stored), k.stored);
    }
  }

  lemma TargetDirectories(nodes: set<Object>, shield: set<Object>, entries: seq<OutputEntry>, q: Object)
    requires EntriesUsable(nodes, shield, entries, q)
    ensures forall i | 0 <= i < |entries| :: entries[i].target.directory in nodes
  {
    forall i | 0 <= i < |entries| ensures entries[i].target.directory in nodes {
      assert EntryUsable(nodes, entries[i], q);
    }
  }

  // --- What a finished publication has done -----------------------------------

  /** The output's path leads to a file with its contents, and the last name on it is the target. */
  ghost predicate DeliveredAt(v: Volume, anchor: Object, directory: seq<string>, output: Output, target: Slot) {
    && output.path != [] && target.name == output.path[|output.path| - 1]
    && Reaches(v, anchor, directory + output.path[..|output.path| - 1], target.directory)
    && target in v.links && v.links[target] in v.nodes && v.nodes[v.links[target]] == File(output.contents)
  }

  ghost predicate Delivered(v: Volume, anchor: Object, directory: seq<string>, outputs: seq<Output>,
                            targets: seq<Slot>) {
    && |targets| == |outputs|
    && forall i | 0 <= i < |outputs| :: DeliveredAt(v, anchor, directory, outputs[i], targets[i])
  }

  /** Nothing changed but the targets and directories that were missing on the way to them. */
  ghost predicate OnlyOutputsChanged(v: Volume, w: Volume, targets: seq<Slot>, made: set<Slot>, anchor: Object,
                                     directory: seq<string>, outputs: seq<Output>) {
    && AgreeOutside(v.links, w.links, (set s | s in targets) + made)
    && forall s | s in made ::
         s !in v.links && IsOnTheWay(w, anchor, directory, outputs, s) && w.links[s] !in v.nodes
  }

  predicate SameAt(a: Links, b: Links, s: Slot) {
    (s in a <==> s in b) && (s in a ==> a[s] == b[s])
  }

  /** The disk has the file at every target. */
  ghost predicate OutputsStored(v: Volume, stored: map<Object, Image>, targets: seq<Slot>) {
    forall t | t in targets :: t in v.links && IsStored(v, stored, v.links[t])
  }

  /** The disk has every directory in which a name has changed, and the output directory. */
  ghost predicate Durable(v: Volume, w: Volume, stored: map<Object, Image>, anchor: Object, directory: seq<string>) {
    && (forall s | !SameAt(v.links, w.links, s) :: IsStored(w, stored, s.directory))
    && forall root | Reaches(w, anchor, directory, root) :: IsStored(w, stored, root)
  }

  function Targets(entries: seq<OutputEntry>): seq<Slot> {
    seq(|entries|, i requires 0 <= i < |entries| => entries[i].target)
  }

  /** Directories that were there before the transaction are where they were. */
  lemma DirectoriesStay(base: Volume, v: Volume, w: Volume, entries: seq<OutputEntry>, temps: seq<StagedFile>,
                        backs: seq<RetainedBackup>, q: Object, slot: Slot, s: Slot)
    requires |temps| == |entries| && IndicesOk(entries, backs)
    requires Publishing(base, v, entries, temps, backs, |entries|, q)
    requires w.nodes == v.nodes && KeepsAllBut(v.links, w.links, BackupSlots(entries, backs) + {slot})
    requires s in base.links && base.links[s] in base.nodes && base.nodes[base.links[s]].Directory?
    ensures Holds(v.links, s, base.links[s])
    ensures base.links[s] in w.nodes && w.nodes[base.links[s]].Directory?
    ensures s != slot ==> Holds(w.links, s, base.links[s])
  {
    hide Undone, Placed, Apart, TargetsFree, WithoutTargets, WellNamed, Prepared, Differing, BackupsAreOriginals,
         BackupSlots;
    DirectoriesAreNoNames(base, entries, temps, backs, s);
  }

  /** No name of the transaction led to a directory before. */
  lemma DirectoriesAreNoNames(base: Volume, entries: seq<OutputEntry>, temps: seq<StagedFile>,
                              backs: seq<RetainedBackup>, s: Slot)
    requires |temps| == |entries| && IndicesOk(entries, backs) && Prepared(base, entries)
    requires s in base.links && base.links[s] in base.nodes && base.nodes[base.links[s]].Directory?
    ensures s !in BackupSlots(entries, backs) && s !in Differing(entries, |temps|, backs, |entries|)
  {
    forall i | 0 <= i < |entries| ensures entries[i].target != s && entries[i].backup != s {
      assert EntryPrepared(base, entries[i]);
    }
    forall i | 0 <= i < |backs|
      ensures Entry(entries, backs, i).target != s && Entry(entries, backs, i).backup != s
    {
      assert Entry(entries, backs, i) == entries[backs[i].index];
    }
  }

  lemma PathsStay(base: Volume, v: Volume, w: Volume, entries: seq<OutputEntry>, temps: seq<StagedFile>,
                  backs: seq<RetainedBackup>, q: Object, slot: Slot, early: Volume, names: set<string>)
    requires |temps| == |entries| && IndicesOk(entries, backs)
    requires Publishing(base, v, entries, temps, backs, |entries|, q)
    requires w.nodes == v.nodes && KeepsAllBut(v.links, w.links, BackupSlots(entries, backs) + {slot})
    requires KeepsPaths(early, base, names) && (slot in early.links ==> slot.name !in names)
    ensures KeepsPaths(early, w, names)
  {
    hide Publishing, BackupSlots;
    forall s | s in early.links && s.name in names && early.links[s] in early.nodes
               && early.nodes[early.links[s]].Directory?
      ensures Holds(w.links, s, early.links[s]) && w.links[s] in w.nodes && w.nodes[w.links[s]].Directory?
    {
      DirectoriesStay(base, v, w, entries, temps, backs, q, slot, s);
    }
  }

  /** Published files stay at their targets, which are no backups and not the quarantine. */
  lemma TargetsHold(base: Volume, v: Volume, w: Volume, entries: seq<OutputEntry>, temps: seq<StagedFile>,
                    backs: seq<RetainedBackup>, q: Object, slot: Slot, i: nat)
    requires |temps| == |entries| && IndicesOk(entries, backs) && i < |entries|
    requires Publishing(base, v, entries, temps, backs, |entries|, q) && Written(v.nodes, entries, temps)
    requires w.nodes == v.nodes && KeepsAllBut(v.links, w.links, BackupSlots(entries, backs) + {slot})
    requires slot in base.links && base.links[slot] in base.nodes && base.nodes[base.links[slot]].Directory?
    ensures Holds(w.links, entries[i].target, temps[i].descriptor)
    ensures temps[i].descriptor in w.nodes && w.nodes[temps[i].descriptor] == File(entries[i].contents)
    ensures entries[i].target !in BackupSlots(entries, backs)
  {
    hide Undone, Differing, AgreeOutside, WithoutTargets, TargetsFree, Prepared, WellNamed, Grew;
    assert Holds(v.links, entries[i].target, temps[i].descriptor);
    DirectoriesStay(base, v, w, entries, temps, backs, q, slot, slot);
    forall j | 0 <= j < |backs| ensures entries[i].target != Entry(entries, backs, j).backup {
      assert Holds(v.links, Entry(entries, backs, j).backup, backs[j].descriptor);
    }
  }

  /** The state that the last phase leaves behind, without interference. */
  ghost predicate Concluded(base: Volume, v: Volume, w: Volume, entries: seq<OutputEntry>, temps: seq<StagedFile>,
                            backs: seq<RetainedBackup>, quarantine: Quarantine)
    requires |temps| == |entries| && IndicesOk(entries, backs)
  {
    && Publishing(base, v, entries, temps, backs, |entries|, quarantine.directory) && Written(v.nodes, entries, temps)
    && w.nodes == v.nodes
    && KeepsAllBut(v.links, w.links, BackupSlots(entries, backs) + {quarantine.created.slot})
    && Holds(base.links, quarantine.created.slot, quarantine.directory)
    && quarantine.directory in base.nodes && base.nodes[quarantine.directory].Directory?
  }

  /** Entries name and hold what the outputs say. */
  ghost predicate ForOutputs(entries: seq<OutputEntry>, outputs: seq<Output>) {
    && |entries| <= |outputs|
    && forall i {:trigger entries[i]} | 0 <= i < |entries| ::
         ForOutput(entries[i], outputs[i])
  }

  predicate ForOutput(e: OutputEntry, output: Output) {
    output.path != [] && e.target.name == output.path[|output.path| - 1] && e.contents == output.contents
  }

  lemma OutputsAreDelivered(early: Volume, base: Volume, v: Volume, w: Volume, anchor: Object, directory: seq<string>,
                            root: Object, outputs: seq<Output>, entries: seq<OutputEntry>,
                            temps: seq<StagedFile>, backs: seq<RetainedBackup>, quarantine: Quarantine)
    requires |temps| == |entries| == |outputs| && IndicesOk(entries, backs)
    requires Concluded(base, v, w, entries, temps, backs, quarantine)
    requires Reaches(early, anchor, directory, root) && KeepsPaths(early, base, Names(directory))
    requires quarantine.created.slot !in early.links
    requires Rooted(base, root, outputs, entries, quarantine.directory)
    requires ForOutputs(entries, outputs)
    requires Unreachable(base.links, PathNames(outputs), {quarantine.directory})
    ensures Delivered(w, anchor, directory, outputs, Targets(entries))
  {
    hide Publishing, Written, BackupSlots, KeepsPaths, Reaches, PathNames;
    var q, slot := quarantine.directory, quarantine.created.slot;
    PathsStay(base, v, w, entries, temps, backs, q, slot, early, Names(directory));
    StillReaches(early, w, anchor, directory, root);
    SamePaths(base, PathNames(outputs));
    PathsStay(base, v, w, entries, temps, backs, q, slot, base, PathNames(outputs));
    RootedStays(base, w, root, outputs, entries, q);
    var targets := Targets(entries);
    forall i | 0 <= i < |outputs| ensures DeliveredAt(w, anchor, directory, outputs[i], targets[i])
    {
      var e := entries[i];
      TargetsHold(base, v, w, entries, temps, backs, q, slot, i);
      ReachesJoin(w, anchor, directory, root, Parents(outputs[i].path), e.target.directory);
    }
  }

  lemma SamePaths(v: Volume, names: set<string>)
    ensures KeepsPaths(v, v, names)
  {
  }

  /** The directories that were made on the way. */
  function Made(start: Volume, base: Volume, slot: Slot): set<Slot> {
    base.links.Keys - start.links.Keys - {slot}
  }

  lemma OnlyOutputsHaveChanged(start: Volume, base: Volume, v: Volume, w: Volume, entries: seq<OutputEntry>,
                               temps: seq<StagedFile>, backs: seq<RetainedBackup>, quarantine: Quarantine,
                               created: seq<CreatedDirectory>, anchor: Object, directory: seq<string>,
                               outputs: seq<Output>)
    requires |temps| == |entries| && IndicesOk(entries, backs)
    requires Concluded(base, v, w, entries, temps, backs, quarantine) && Founded(start, base, quarantine, created)
    requires Grown(start, base, anchor, directory, outputs, {quarantine.created.slot})
    requires w.links == v.links - BackupSlots(entries, backs) - {quarantine.created.slot}
    ensures OnlyOutputsChanged(start, w, Targets(entries), Made(start, base, quarantine.created.slot), anchor, directory,
                               outputs)
  {
    hide Written, Publishing, Remaining, BackupSlots, Sprouted, AllNames, OnSomeWay;
    var q, slot := quarantine.directory, quarantine.created.slot;
    var targets := Targets(entries);
    var made := Made(start, base, slot);
    forall s | s in made
      ensures s !in start.links && IsOnTheWay(w, anchor, directory, outputs, s) && w.links[s] !in start.nodes
    {
      DirectoriesStay(base, v, w, entries, temps, backs, q, slot, s);
      SomeWayStands(base, v, w, entries, temps, backs, quarantine, anchor, directory, outputs, s);
    }
    forall s | s !in (set t | t in targets) + made
      ensures (s in start.links <==> s in w.links) && (s in start.links ==> start.links[s] == w.links[s])
    {
      OthersAreKept(start, base, v, w, entries, temps, backs, quarantine, created, s);
    }
  }

  /** A path that does not end in the quarantine does not lead through it either. */
  lemma {:induction false} ReachesAround(v: Volume, w: Volume, slot: Slot, q: Object, start: Object,
                                         path: seq<string>, end: Object)
    requires Reaches(v, start, path, end) && end != q && NothingIn(v.links, q)
    requires slot in v.links && v.links[slot] == q
    requires forall s | LeadsOn(v, s) && s != slot :: LeadsOn(w, s) && w.links[s] == v.links[s]
    ensures Reaches(w, start, path, end)
    decreases |path|
  {
    if path != [] {
      var s := Slot(start, path[0]);
      ReachesAround(v, w, slot, q, v.links[s], path[1..], end);
    }
  }

  /** What was on some way before the last phase still is. */
  lemma SomeWayStands(base: Volume, v: Volume, w: Volume, entries: seq<OutputEntry>, temps: seq<StagedFile>,
                      backs: seq<RetainedBackup>, quarantine: Quarantine, anchor: Object, directory: seq<string>,
                      outputs: seq<Output>, s: Slot)
    requires |temps| == |entries| && IndicesOk(entries, backs)
    requires Concluded(base, v, w, entries, temps, backs, quarantine) && NothingIn(base.links, quarantine.directory)
    requires OnSomeWay(base, anchor, directory, outputs, s) && s in base.links
    ensures OnSomeWay(w, anchor, directory, outputs, s)
  {
    hide Written, Publishing, BackupSlots, Way, Reaches, KeepsAllBut;
    var q, slot := quarantine.directory, quarantine.created.slot;
    forall t | LeadsOn(base, t) && t != slot ensures LeadsOn(w, t) && w.links[t] == base.links[t] {
      DirectoriesStay(base, v, w, entries, temps, backs, q, slot, t);
    }
    if k: nat :| OnWalkAt(base, anchor, directory, k, s) {
      ReachesAround(base, w, slot, q, anchor, directory[..k], s.directory);
      assert OnWalkAt(w, anchor, directory, k, s);
    } else {
      var j: nat, k: nat :| j < |outputs| && OnWalkAt(base, anchor, Way(directory, outputs[j]), k, s);
      var way := Way(directory, outputs[j]);
      ReachesAround(base, w, slot, q, anchor, way[..k], s.directory);
      assert OnWalkAt(w, anchor, way, k, s);
    }
  }

  /** Whatever comes of the last phase, no name from the start but a target changes. */
  lemma StartStays(start: Volume, base: Volume, v: Volume, w: Volume, entries: seq<OutputEntry>,
                   temps: seq<StagedFile>, backs: seq<RetainedBackup>, quarantine: Quarantine,
                   created: seq<CreatedDirectory>)
    requires |temps| == |entries| && IndicesOk(entries, backs)
    requires Concluded(base, v, w, entries, temps, backs, quarantine) && Founded(start, base, quarantine, created)
    ensures KeepsAllBut(start.links, w.links, set t | t in Targets(entries))
  {
    hide Written, Midway, WellNamed, Remaining, Targets;
    StartIsKept(start, base, quarantine, created);
    forall s | s in start.links && s !in Targets(entries) ensures s in w.links && w.links[s] == start.links[s] {
      if s in BackupSlots(entries, backs) {
        BackupsAreNew(base, entries, backs, s);
      }
      DiffersOnlyThere(base, v, entries, temps, backs, quarantine.directory, s);
    }
  }

  lemma OthersAreKept(start: Volume, base: Volume, v: Volume, w: Volume, entries: seq<OutputEntry>,
                      temps: seq<StagedFile>, backs: seq<RetainedBackup>, quarantine: Quarantine,
                      created: seq<CreatedDirectory>, s: Slot)
    requires |temps| == |entries| && IndicesOk(entries, backs)
    requires Publishing(base, v, entries, temps, backs, |entries|, quarantine.directory)
    requires Founded(start, base, quarantine, created)
    requires w.links == v.links - BackupSlots(entries, backs) - {quarantine.created.slot}
    requires s !in Targets(entries) && s !in Made(start, base, quarantine.created.slot)
    ensures (s in start.links <==> s in w.links) && (s in start.links ==> start.links[s] == w.links[s])
  {
    hide Midway, WellNamed, Remaining, Targets;
    StartIsKept(start, base, quarantine, created);
    if s !in BackupSlots(entries, backs) {
      DiffersOnlyThere(base, v, entries, temps, backs, quarantine.directory, s);
    } else {
      BackupsAreNew(base, entries, backs, s);
    }
  }

  lemma StartIsKept(start: Volume, base: Volume, quarantine: Quarantine, created: seq<CreatedDirectory>)
    requires Founded(start, base, quarantine, created)
    ensures KeepsAllBut(start.links, base.links, {}) && quarantine.created.slot !in start.links
  {
    hide Slots;
    forall s | s in start.links ensures s in base.links && base.links[s] == start.links[s] {
      assert s in Remaining(base.links, {quarantine.created.slot}, created);
    }
  }

  lemma BackupsAreNew(base: Volume, entries: seq<OutputEntry>, backs: seq<RetainedBackup>, s: Slot)
    requires IndicesOk(entries, backs) && Prepared(base, entries) && s in BackupSlots(entries, backs)
    ensures s !in base.links
  {
    var i :| 0 <= i < |backs| && Entry(entries, backs, i).backup == s;
    assert EntryPrepared(base, entries[backs[i].index]);
  }

  /** Apart from targets and backups, publishing has left every name as it was. */
  lemma DiffersOnlyThere(base: Volume, v: Volume, entries: seq<OutputEntry>, temps: seq<StagedFile>,
                         backs: seq<RetainedBackup>, q: Object, s: Slot)
    requires |temps| == |entries| && IndicesOk(entries, backs)
    requires Publishing(base, v, entries, temps, backs, |entries|, q)
    requires s !in Targets(entries) && s !in BackupSlots(entries, backs)
    ensures (s in base.links <==> s in v.links) && (s in base.links ==> base.links[s] == v.links[s])
  {
    hide Undone, Placed, Apart;
    var targets := Targets(entries);
    forall i | 0 <= i < |entries| ensures entries[i].target != s {
      assert targets[i] == entries[i].target;
    }
    forall i | 0 <= i < |backs| ensures Entry(entries, backs, i).target != s {
      assert Entry(entries, backs, i) == entries[backs[i].index];
    }
    assert s !in Differing(entries, |temps|, backs, |entries|);
  }

  // --- The transaction --------------------------------------------------------

  lemma NothingStaged(staged: set<Object>, open: set<Object>, recorded: map<Object, Inode>, watched: set<Original>,
                      entries: seq<OutputEntry>)
    ensures StagedOk(staged, open, recorded, []) && BackupsOk(open, recorded, entries, []) && Identified([])
    ensures BackupsObserved(watched, entries, []) && PublishedOk([], [])
  {
  }

  lemma ReadyToBackUp(base: Volume, v: Volume, watched: set<Original>, entries: seq<OutputEntry>,
                      temps: seq<StagedFile>, q: Object)
    requires |temps| == |entries| && Midway(base, v, entries, temps, [], 0, q)
    requires base.Valid() && Prepared(base, entries) && WellNamed(entries, q) && watched == Originals(base, entries)
    ensures BackingUp(base, v, watched, entries, temps, [], q)
  {
  }

  lemma ReadyToPublish(base: Volume, v: Volume, watched: set<Original>, entries: seq<OutputEntry>,
                       temps: seq<StagedFile>, backs: seq<RetainedBackup>, q: Object)
    requires |temps| == |entries| && IndicesOk(entries, backs)
    requires BackingUp(base, v, watched, entries, temps, backs, q)
    ensures Publishing(base, v, entries, temps, backs, 0, q)
    ensures Midway(base, v, entries, temps, backs, 0, q) && BackupsObserved(watched, entries, backs)
  {
  }

  lemma StillSecured(v: Volume, w: Volume, before: map<Object, Image>, after: map<Object, Image>,
                     entries: seq<OutputEntry>, temps: seq<StagedFile>)
    requires |temps| <= |entries| && Written(v.nodes, entries, temps) && Secured(before, entries, temps)
    requires w.nodes == v.nodes && StillStored(v, before, w, after)
    ensures Secured(after, entries, temps)
  {
    forall i {:trigger temps[i]} | 0 <= i < |temps|
      ensures temps[i].descriptor in after && after[temps[i].descriptor] == Text(entries[i].contents)
    {
      assert IsStored(v, before, temps[i].descriptor);
    }
  }

  lemma StillWritten(nodes: map<Object, Node>, same: map<Object, Node>, entries: seq<OutputEntry>,
                     temps: seq<StagedFile>)
    requires |temps| <= |entries| && Written(nodes, entries, temps) && same == nodes
    ensures Written(same, entries, temps)
  {
  }

  lemma PublishingIsMidway(base: Volume, v: Volume, entries: seq<OutputEntry>, temps: seq<StagedFile>,
                           backs: seq<RetainedBackup>, published: nat, q: Object)
    requires |temps| == |entries| && published <= |entries| && IndicesOk(entries, backs)
    requires Publishing(base, v, entries, temps, backs, published, q)
    ensures Midway(base, v, entries, temps, backs, published, q)
  {
  }

  /** How many calls may fail before a rollback is bound to be clean: one, if nothing else can stop the transaction. */
  function Slack(unobstructed: bool): nat {
    if unobstructed then 1 else 0
  }

  /** Nothing takes the name to which the quarantine is moved for removal. */
  ghost predicate QuarantineLeaves(base: Volume, entries: seq<OutputEntry>, d: CreatedDirectory) {
    Removable(base, d) && forall i {:trigger entries[i]} | 0 <= i < |entries| :: entries[i].target != d.cleanup
  }

  /** After publication the backups stand where they were put. */
  lemma PublishedBackupsStand(base: Volume, v: Volume, entries: seq<OutputEntry>, temps: seq<StagedFile>,
                              backs: seq<RetainedBackup>, q: Object)
    requires |temps| == |entries| && IndicesOk(entries, backs)
    requires Publishing(base, v, entries, temps, backs, |entries|, q)
    ensures BackupsStand(v, entries, backs, q, 0)
  {
    hide Undone, WithoutTargets, TargetsFree, Differing, AgreeOutside, Grew, Prepared, WellNamed;
    forall i, j {:trigger backs[i], backs[j]} | 0 <= i < j < |backs|
      ensures Entry(entries, backs, i).backup != Entry(entries, backs, j).backup
    {
    }
  }

  /** Once the backups are gone, the quarantine can be removed. */
  lemma QuarantineStaysRemovable(base: Volume, v: Volume, entries: seq<OutputEntry>, temps: seq<StagedFile>,
                                 backs: seq<RetainedBackup>, quarantine: Quarantine)
    requires |temps| == |entries| && IndicesOk(entries, backs)
    requires Publishing(base, v, entries, temps, backs, |entries|, quarantine.directory)
    requires QuarantineLeaves(base, entries, quarantine.created)
    requires Holds(base.links, quarantine.created.slot, quarantine.directory)
    ensures Removable(BackupsGone(v, entries, backs), quarantine.created)
  {
    var d, w := quarantine.created, BackupsGone(v, entries, backs);
    CleanupNameStaysFree(base, v, entries, temps, backs, quarantine.directory, d.cleanup);
    DirectoriesStay(base, v, w, entries, temps, backs, quarantine.directory, d.cleanup, d.slot) by {
      NotThere(v.links, BackupSlots(entries, backs), d.cleanup);
    }
    DirectoriesAreNoNames(base, entries, temps, backs, d.slot);
    hide Undone, Placed, Apart, TargetsFree, WithoutTargets, WellNamed, Prepared, Differing, BackupSlots, AgreeOutside;
  }

  lemma NotThere(links: Links, some: set<Slot>, s: Slot)
    ensures KeepsAllBut(links, links - some, some + {s})
  {
  }

  lemma CleanupNameStaysFree(base: Volume, v: Volume, entries: seq<OutputEntry>, temps: seq<StagedFile>,
                             backs: seq<RetainedBackup>, q: Object, s: Slot)
    requires |temps| == |entries| && IndicesOk(entries, backs)
    requires Publishing(base, v, entries, temps, backs, |entries|, q) && s !in base.links
    requires forall i {:trigger entries[i]} | 0 <= i < |entries| :: entries[i].target != s
    ensures s !in v.links - BackupSlots(entries, backs)
  {
    hide Undone, Placed, Apart, TargetsFree, WithoutTargets, WellNamed, Prepared;
    forall i | 0 <= i < |backs| ensures Entry(entries, backs, i).target != s {
      assert Entry(entries, backs, i) == entries[backs[i].index];
    }
    assert s in Differing(entries, |temps|, backs, |entries|) ==> s in BackupSlots(entries, backs);
  }

  /**
   Stages, backs up and publishes, or rolls back.  The ghost results describe the
   moment at which the last output was published.
  */
  method Commit(k: Kernel, entries: seq<OutputEntry>, quarantine: Quarantine, created: seq<CreatedDirectory>,
                ghost base: Volume, ghost known: set<Object>)
    returns (outcome: Outcome, ghost published: Volume, ghost temps: seq<StagedFile>, ghost backs: seq<RetainedBackup>)
    requires k.Valid() && known <= k.volume.nodes.Keys && EntriesUsable(known, k.shield, entries, quarantine.directory)
    requires DirectoryUsable(known, quarantine.created) && AllUsable(known, created)
    requires k.calm ==>
               && Midway(base, k.volume, entries, [], [], 0, quarantine.directory)
               && base.Valid() && Prepared(base, entries) && WellNamed(entries, quarantine.directory)
               && k.watched == Originals(base, entries)
               && Holds(base.links, quarantine.created.slot, quarantine.directory)
               && quarantine.directory in base.nodes && base.nodes[quarantine.directory].Directory?
    modifies k`volume, k`calm, k`touched, k`faults, k`staged, k`uninspected, k`recorded, k`unlinked, k`watched,
             k`retired, k`met, k`stored
    ensures k.Valid() && old(k.faults) <= k.faults && old(k.uninspected) <= k.uninspected
    ensures outcome == Published(false) ==> k.faults == old(k.faults)
    ensures k.calm ==> old(k.calm) && (outcome.Failed? ==> Grew(base, k.volume))
    ensures outcome.Failed? ==> k.retired == old(k.retired)
    ensures outcome.Published? || (k.calm && k.faults == old(k.faults)) ==> k.uninspected == old(k.uninspected)
    ensures |temps| <= |entries| && Noted(temps, k.uninspected)
    ensures outcome.Failed? && k.calm && k.faults <= old(k.faults) + Slack(Collisionless(entries)) ==>
              Dropped(Leftover(base.links, entries, temps), k.volume.links, {quarantine.created.slot} + Slots(created))
    ensures outcome.Failed? && k.calm && outcome.clean ==>
              k.volume.links == Remaining(base.links, {quarantine.created.slot}, created)
    ensures outcome.Failed? && k.calm && k.uninspected == {} && LeftoversRemovable(base, quarantine.created, created) ==>
              k.faults <= old(k.faults) + Slack(Collisionless(entries)) ==> outcome.clean
    ensures k.calm && k.faults == old(k.faults) ==>
              Collisionless(entries) && QuarantineLeaves(base, entries, quarantine.created) ==>
                outcome == Published(false)
    ensures outcome.Published? ==> |temps| == |entries| && IndicesOk(entries, backs)
    ensures outcome.Published? ==> Replaced(old(k.retired), k.retired, k.met, entries, backs)
    ensures outcome.Published? && k.calm ==> Concluded(base, published, k.volume, entries, temps, backs, quarantine)
    ensures outcome.Published? && k.calm && !outcome.warning ==>
              k.volume.links == published.links - BackupSlots(entries, backs) - {quarantine.created.slot}
    ensures outcome.Published? && k.calm ==> Secured(k.stored, entries, temps)
    ensures outcome == Published(false) && k.calm && AllLive(k.volume, Homes(entries, quarantine, created)) ==>
              AllStored(k.volume, k.stored, Homes(entries, quarantine, created))
  {
    hide Secured, AllLive, AllStored, Homes;
    hide Kernel.Valid, Midway, BackingUp, Publishing, StagedOk, BackupsOk, BackupsMet, Identified, Prepared, WellNamed,
         EntriesUsable, BackupsObserved, Written, PublishedOk, Originals, LeftoversRemovable, BackupSlots, Remaining,
         DirectoryUsable, AllUsable, KeepsAllBut, Collisionless, QuarantineLeaves, AllBackedUp, Replaced, RecordsKept,
         StagedFiles, Concluded, Grew, Dropped, Leftover, FrontIdentified, Noted;
    var q := quarantine.directory;
    published := base;
    var ok, staged := StageAll(k, entries, q, base, known);
    temps, backs := staged, [];
    FrontOf(staged, base.links, entries);
    NothingStaged(k.staged, k.volume.open, k.recorded, k.watched, entries);
    if !ok {
      StagedSoFar(staged);
      var clean := Abort(k, entries, staged, [], [], quarantine, created, base, known);
      return Failed(clean), published, temps, backs;
    }
    if k.calm {
      ReadyToBackUp(base, k.volume, k.watched, entries, staged, q);
    }
    ghost var stagedVolume, stagedRecords := k.volume, k.recorded;
    var backedUp;
    ok, backedUp := BackUpAll(k, entries, staged, q, base, known);
    backs := backedUp;
    StagedStays(k.staged, stagedVolume.open, stagedRecords, staged, k.staged, k.volume.open, k.recorded);
    if k.calm {
      ReadyToPublish(base, k.volume, k.watched, entries, staged, backedUp, q);
      StillWritten(stagedVolume.nodes, k.volume.nodes, entries, staged);
    }
    if !ok {
      StagedSoFar(staged);
      var clean := Abort(k, entries, staged, backedUp, [], quarantine, created, base, known);
      return Failed(clean), published, temps, backs;
    }
    outcome, published := PublishOrAbort(k, entries, staged, backedUp, quarantine, created, base, known);
  }

  /** The files given up are the backups, each opened at its output's target, one for every existing target. */
  ghost predicate Replaced(before: set<Object>, after: set<Object>, met: set<(Slot, Object)>,
                           entries: seq<OutputEntry>, backs: seq<RetainedBackup>) {
    && IndicesOk(entries, backs)
    && after == before + Descriptors(backs)
    && BackupsMet(met, entries, backs) && AllBackedUp(entries, backs, |entries|)
  }

  lemma FrontOf(temps: seq<StagedFile>, links: Links, entries: seq<OutputEntry>)
    requires |temps| <= |entries|
    ensures Identified(temps) ==> FrontIdentified(temps) && Leftover(links, entries, temps) == links
  {
  }

  lemma StagedSoFar(temps: seq<StagedFile>)
    ensures PublishedOk(temps, [])
  {
  }

  method PublishOrAbort(k: Kernel, entries: seq<OutputEntry>, staged: seq<StagedFile>, backedUp: seq<RetainedBackup>,
                        quarantine: Quarantine, created: seq<CreatedDirectory>, ghost base: Volume,
                        ghost known: set<Object>)
    returns (outcome: Outcome, ghost published: Volume)
    requires k.Valid() && known <= k.volume.nodes.Keys && EntriesUsable(known, k.shield, entries, quarantine.directory)
    requires DirectoryUsable(known, quarantine.created) && AllUsable(known, created)
    requires |staged| == |entries| && IndicesOk(entries, backedUp) && Identified(staged)
    requires StagedOk(k.staged, k.volume.open, k.recorded, staged)
    requires BackupsOk(k.volume.open, k.recorded, entries, backedUp)
    requires BackupsMet(k.met, entries, backedUp) && AllBackedUp(entries, backedUp, |entries|)
    requires k.calm ==>
               && Publishing(base, k.volume, entries, staged, backedUp, 0, quarantine.directory)
               && BackupsObserved(k.watched, entries, backedUp) && Written(k.volume.nodes, entries, staged)
               && Holds(base.links, quarantine.created.slot, quarantine.directory)
               && quarantine.directory in base.nodes && base.nodes[quarantine.directory].Directory?
               && Secured(k.stored, entries, staged)
    modifies k`volume, k`calm, k`touched, k`faults, k`unlinked, k`watched, k`retired, k`stored
    ensures k.Valid() && old(k.faults) <= k.faults
    ensures outcome == Published(false) ==> k.faults == old(k.faults)
    ensures k.calm ==> old(k.calm) && (outcome.Failed? ==> Grew(base, k.volume))
    ensures outcome.Failed? ==> k.retired == old(k.retired)
    ensures outcome.Failed? && k.calm && k.faults <= old(k.faults) + Slack(Collisionless(entries)) ==>
              Dropped(base.links, k.volume.links, {quarantine.created.slot} + Slots(created))
    ensures outcome.Failed? && k.calm && outcome.clean ==>
              k.volume.links == Remaining(base.links, {quarantine.created.slot}, created)
    ensures outcome.Failed? && k.calm && LeftoversRemovable(base, quarantine.created, created) ==>
              k.faults <= old(k.faults) + Slack(Collisionless(entries)) ==> outcome.clean
    ensures k.calm && k.faults == old(k.faults) ==>
              Collisionless(entries) && QuarantineLeaves(base, entries, quarantine.created) ==>
                outcome == Published(false)
    ensures outcome.Published? ==> Replaced(old(k.retired), k.retired, k.met, entries, backedUp)
    ensures outcome.Published? && k.calm ==> Concluded(base, published, k.volume, entries, staged, backedUp, quarantine)
    ensures outcome.Published? && k.calm && !outcome.warning ==>
              k.volume.links == published.links - BackupSlots(entries, backedUp) - {quarantine.created.slot}
    ensures outcome.Published? && k.calm ==> Secured(k.stored, entries, staged)
    ensures outcome == Published(false) && k.calm && AllLive(k.volume, Homes(entries, quarantine, created)) ==>
              AllStored(k.volume, k.stored, Homes(entries, quarantine, created))
  {
    hide Secured, AllLive, AllStored, Homes, StillStored, IsStored;
    hide Kernel.Valid, Midway, Publishing, StagedOk, BackupsOk, BackupsMet, Identified, Prepared, WellNamed,
         EntriesUsable, BackupsObserved, Written, LeftoversRemovable, BackupSlots, Remaining,
         DirectoryUsable, AllUsable, KeepsAllBut, Collisionless, QuarantineLeaves, AllBackedUp, BackupsStand, Removable,
         BackupsGone, StagedFiles, Grew, Dropped, Leftover, FrontIdentified;
    FrontOf(staged, base.links, entries);
    var ok, done := PublishAll(k, entries, staged, backedUp, quarantine.directory, base, known);
    published := k.volume;
    if !ok {
      if k.calm {
        PublishingIsMidway(base, k.volume, entries, staged, backedUp, |done|, quarantine.directory);
      }
      StillBackedUp(old(k.volume.open), k.volume.open, k.recorded, entries, backedUp);
      var clean := Abort(k, entries, staged, backedUp, done, quarantine, created, base, known);
      return Failed(clean), published;
    }
    if k.calm {
      StillWritten(old(k.volume.nodes), k.volume.nodes, entries, staged);
      PublishedBackupsStand(base, k.volume, entries, staged, backedUp, quarantine.directory);
      if QuarantineLeaves(base, entries, quarantine.created) {
        QuarantineStaysRemovable(base, k.volume, entries, staged, backedUp, quarantine);
      }
    }
    ghost var last, secured := k.volume, k.stored;
    var warning := Finish(k, entries, backedUp, quarantine, created, known);
    if k.calm {
      StillSecured(last, k.volume, secured, k.stored, entries, staged);
    }
    outcome := Published(warning);
  }

  lemma StillBackedUp(open: set<Object>, same: set<Object>, recorded: map<Object, Inode>, entries: seq<OutputEntry>,
                      backs: seq<RetainedBackup>)
    requires BackupsOk(open, recorded, entries, backs) && open == same
    ensures BackupsOk(same, recorded, entries, backs)
  {
  }

  /** How the volume came to hold the output directory and the quarantine, without interference. */
  ghost predicate Opened(start: Volume, early: Volume, v: Volume, root: Object, outputs: seq<Output>, pid: string,
                         nonces: seq<string>, quarantine: Quarantine, created: seq<CreatedDirectory>,
                         names: set<string>) {
    && start.Valid() && early.Valid() && v.Valid() && root in early.nodes
    && Extended(start, early, names, {}) && Remaining(early.links, {}, created) == start.links
    && QuarantineMade(early, v, root, pid, nonces, quarantine) && Unguessed(outputs, pid, nonces)
  }

  lemma OpenedMeans(start: Volume, early: Volume, v: Volume, root: Object, outputs: seq<Output>, pid: string,
                    nonces: seq<string>, quarantine: Quarantine, created: seq<CreatedDirectory>, names: set<string>)
    requires Opened(start, early, v, root, outputs, pid, nonces, quarantine, created, names)
    ensures Founded(start, v, quarantine, created) && NoNewFiles(start, v) && root != quarantine.directory
    ensures Building(v, v, root, outputs, [], quarantine, created, created)
    ensures StackedBut(early, {}, created) ==> StackedBut(v, {quarantine.created.slot}, created)
  {
    hide QuarantineMade, Extended, Remaining, Founded, Building, StackedBut, Unguessed, NoNewFiles;
    QuarantineIsFounded(start, early, v, root, pid, nonces, quarantine, created, names);
    BuildingStarts(early, v, root, outputs, pid, nonces, quarantine, created);
    if StackedBut(early, {}, created) {
      QuarantineKeepsStack(early, v, root, pid, nonces, quarantine, created);
    }
  }

  lemma BuiltMeans(start: Volume, early: Volume, v: Volume, base: Volume, root: Object, outputs: seq<Output>,
                   pid: string, nonces: seq<string>, entries: seq<OutputEntry>, quarantine: Quarantine,
                   created: seq<CreatedDirectory>, all: seq<CreatedDirectory>, names: set<string>)
    requires Opened(start, early, v, root, outputs, pid, nonces, quarantine, created, names)
    requires Building(v, base, root, outputs, entries, quarantine, created, all) && base.Valid()
    ensures Founded(start, base, quarantine, all) && NoNewFiles(start, base)
    ensures Rooted(base, root, outputs, entries, quarantine.directory)
    ensures Unforeseen(start.links, names + PathNames(outputs), pid, nonces) ==> Removable(base, quarantine.created)
  {
    hide QuarantineMade, Extended, Remaining, Unguessed, StackedBut, Rooted, Unreachable, Removable, PathNames, Unforeseen;
    OpenedMeans(start, early, v, root, outputs, pid, nonces, quarantine, created, names);
    OpenedKeepsStart(start, early, v, root, pid, nonces, quarantine, names);
    StaysFounded(start, v, base, root, outputs, entries, quarantine, created, all);
    if Unforeseen(start.links, names + PathNames(outputs), pid, nonces) {
      QuarantineIsRemovable(start, early, v, base, root, outputs, pid, nonces, entries, quarantine, created, all, names);
    }
  }

  lemma OpenedKeepsStart(start: Volume, early: Volume, v: Volume, root: Object, pid: string, nonces: seq<string>,
                         quarantine: Quarantine, names: set<string>)
    requires Extended(start, early, names, {}) && QuarantineMade(early, v, root, pid, nonces, quarantine)
    ensures start.nodes.Keys <= v.nodes.Keys
  {
  }

  lemma BuiltPaths(start: Volume, early: Volume, v: Volume, base: Volume, root: Object, outputs: seq<Output>,
                   pid: string, nonces: seq<string>, entries: seq<OutputEntry>, quarantine: Quarantine,
                   created: seq<CreatedDirectory>, all: seq<CreatedDirectory>, names: set<string>, some: set<string>)
    requires Opened(start, early, v, root, outputs, pid, nonces, quarantine, created, names)
    requires Building(v, base, root, outputs, entries, quarantine, created, all)
    ensures KeepsPaths(early, base, some) && quarantine.created.slot !in early.links
    ensures Holds(base.links, quarantine.created.slot, quarantine.directory)
    ensures quarantine.directory in base.nodes && base.nodes[quarantine.directory].Directory?
    ensures Unreachable(base.links, PathNames(outputs), {quarantine.directory})
  {
    hide Remaining, Unguessed, Rooted, Unreachable, PathNames, Extended, QuarantineMade, Sprouted, AlongSome;
    QuarantineSprouts(early, v, root, pid, nonces, quarantine);
    ExtendedParts(v, base, PathNames(outputs), {quarantine.directory});
    SproutedTwice(early, v, base);
    NothingForgotten(early, base);
    QuarantineStays(early, v, base, root, pid, nonces, quarantine);
  }

  lemma QuarantineStays(early: Volume, v: Volume, base: Volume, root: Object, pid: string, nonces: seq<string>,
                        quarantine: Quarantine)
    requires QuarantineMade(early, v, root, pid, nonces, quarantine) && Sprouted(v, base)
    ensures quarantine.created.slot !in early.links
    ensures Holds(base.links, quarantine.created.slot, quarantine.directory)
    ensures quarantine.directory in base.nodes && base.nodes[quarantine.directory].Directory?
  {
    hide CleanupName, QuarantineName;
  }

  lemma LeftoversAreRemovable(base: Volume, quarantine: Quarantine, created: seq<CreatedDirectory>)
    requires Removable(base, quarantine.created) && StackedBut(base, {quarantine.created.slot}, created)
    ensures LeftoversRemovable(base, quarantine.created, created)
  {
  }

  /** An unregistered file without a name makes no difference. */
  lemma DiscardedIsHarmless(start: Volume, v: Volume, w: Volume, root: Object, outputs: seq<Output>,
                            entries: seq<OutputEntry>, quarantine: Quarantine, created: seq<CreatedDirectory>)
    requires Discarded(v, w)
    ensures Founded(start, v, quarantine, created) ==> Founded(start, w, quarantine, created)
    ensures Rooted(v, root, outputs, entries, quarantine.directory) ==>
              Rooted(w, root, outputs, entries, quarantine.directory)
    ensures LeftoversRemovable(v, quarantine.created, created) ==> LeftoversRemovable(w, quarantine.created, created)
    ensures Prepared(v, entries) ==> Prepared(w, entries)
    ensures Originals(v, entries) == Originals(w, entries)
  {
    hide Reaches, LeftoversRemovable, Remaining;
    if Rooted(v, root, outputs, entries, quarantine.directory) {
      RootedStays(v, w, root, outputs, entries, quarantine.directory);
    }
    if LeftoversRemovable(v, quarantine.created, created) {
      LeftoversStayRemovable(v, w, quarantine.created, created);
      assert w.(links := v.links) == w;
    }
    if Prepared(v, entries) {
      forall i {:trigger entries[i]} | 0 <= i < |entries| ensures EntryPrepared(w, entries[i]) {
        assert EntryPrepared(v, entries[i]);
      }
    }
  }

  lemma StaysUsable(known: set<Object>, more: set<Object>, d: CreatedDirectory)
    requires DirectoryUsable(known, d) && known <= more
    ensures DirectoryUsable(more, d)
  {
  }

  /** Rolls back when no output has been staged. */
  method AbortEarly(k: Kernel, entries: seq<OutputEntry>, quarantine: Quarantine, created: seq<CreatedDirectory>,
                    ghost known: set<Object>) returns (ok: bool)
    requires k.Valid() && known <= k.volume.nodes.Keys && EntriesUsable(known, k.shield, entries, quarantine.directory)
    requires DirectoryUsable(known, quarantine.created) && AllUsable(known, created)
    requires k.calm ==> WellNamed(entries, quarantine.directory) && NothingIn(k.volume.links, quarantine.directory)
    modifies k`volume, k`calm, k`touched, k`faults, k`unlinked, k`watched
    ensures k.Valid() && old(k.faults) <= k.faults && k.unlinked <= old(k.unlinked)
    ensures k.calm ==> old(k.calm) && Grew(old(k.volume), k.volume)
    ensures k.calm && k.faults == old(k.faults) ==>
              Dropped(old(k.volume.links), k.volume.links, {quarantine.created.slot} + Slots(created))
    ensures k.calm && ok ==> k.volume.links == Remaining(old(k.volume.links), {quarantine.created.slot}, created)
    ensures LeftoversRemovable(old(k.volume), quarantine.created, created) ==>
              k.calm && k.faults == old(k.faults) ==> ok
  {
    hide Kernel.Valid, Midway, StagedOk, BackupsOk, Identified, EntriesUsable, BackupsObserved, PublishedOk,
         LeftoversRemovable, Remaining, DirectoryUsable, AllUsable, WellNamed, NothingIn, Grew, Dropped, Leftover,
         FrontIdentified;
    FrontOf([], k.volume.links, entries);
    NothingStaged(k.staged, k.volume.open, k.recorded, k.watched, entries);
    VolumeIsValid(k);
    if k.calm {
      AtTheStart(k.volume, entries, quarantine.directory);
    }
    ok := Abort(k, entries, [], [], [], quarantine, created, k.volume, known);
  }

  /** Preflight, hook and rename probes; from the watch on, every original is accounted for. */
  method Prepare(k: Kernel, entries: seq<OutputEntry>, q: Object, ghost known: set<Object>)
    returns (ok: bool, clean: bool, all: seq<OutputEntry>)
    requires k.Valid() && known <= k.volume.nodes.Keys && EntriesUsable(known, k.shield, entries, q)
    requires k.stranded == {}
    requires k.calm ==> WellNamed(entries, q) && NothingIn(k.volume.links, q) && NoNewFiles(k.origin, k.volume)
    modifies k`volume, k`calm, k`touched, k`faults, k`staged, k`unlinked, k`watched, k`stranded
    ensures k.Valid() && old(k.volume.nodes.Keys) <= k.volume.nodes.Keys && k.stranded <= k.staged - k.unlinked
    ensures k.calm ==> old(k.calm)
    ensures ok ==> clean && k.faults == old(k.faults) && |all| == |entries| && SameNames(all, entries)
    ensures k.calm && k.faults == old(k.faults) && AllPreparable(old(k.volume), entries) ==> ok
    ensures clean <==> k.stranded == {}
    ensures if clean then old(k.faults) <= k.faults else old(k.faults) < k.faults
    ensures k.calm && clean ==> Discarded(old(k.volume), k.volume)
    ensures k.calm && !clean ==>
              OneStranded(old(k.volume), k.volume, k.stranded, q, k.faults == old(k.faults) + 1)
    ensures k.calm && ok ==> Prepared(k.volume, all) && k.watched == Originals(k.volume, all)
  {
    hide Kernel.Valid, EntriesUsable, WellNamed, NothingIn, NoNewFiles, Discarded, Prepared, SameNames, Originals,
         AllPreparable, ProbesFree, OneStranded;
    VolumeIsValid(k);
    NothingDiscarded(k.volume);
    clean := true;
    ok, all := PreflightAll(k, entries);
    if !ok {
      return;
    }
    SameNamesAreWell(all, entries, q, known, k.shield);
    ok := k.Attempt();
    if !ok {
      return;
    }
    ghost var before := k.volume;
    if k.calm {
      OriginalsAreInPlace(k.origin, k.volume, all, q) by {
        FilesAreOld(k.origin, k.volume);
      }
      PreparedProbesAreFree(k.volume, all, q);
    }
    k.Watch(if k.calm then Originals(k.volume, all) else {});
    ok, clean := ProbeAll(k, all, q, known);
    if ok && k.calm {
      PreparedStays(before, k.volume, all);
    }
  }

  lemma PreparedProbesAreFree(v: Volume, entries: seq<OutputEntry>, q: Object)
    requires Prepared(v, entries) && WellNamed(entries, q)
    ensures ProbesFree(v.links, entries)
  {
    hide PairNamed;
    forall i {:trigger entries[i]} | 0 <= i < |entries| ensures ProbeFree(v.links, entries[i]) {
      assert EntryPrepared(v, entries[i]) && EntryNamed(entries[i], q);
      assert entries[i].renameProbeClaim in Claims(entries[i]);
    }
  }

  lemma FilesAreOld(start: Volume, v: Volume)
    requires NoNewFiles(start, v)
    ensures forall o | o in v.nodes && v.nodes[o].File? :: o in start.nodes
  {
  }

  lemma PreparedStays(v: Volume, w: Volume, entries: seq<OutputEntry>)
    requires Discarded(v, w) && Prepared(v, entries)
    ensures Prepared(w, entries) && Originals(v, entries) == Originals(w, entries)
  {
    forall i {:trigger entries[i]} | 0 <= i < |entries| ensures EntryPrepared(w, entries[i]) {
      assert EntryPrepared(v, entries[i]);
    }
  }

  lemma NothingToUndo(entries: seq<OutputEntry>, links: Links, q: Object)
    requires WellNamed(entries, q)
    ensures Apart(entries, [], [], q) && Placed(links, entries, [], [], 0, 0, 0)
  {
    forall i {:trigger entries[i]} | 0 <= i < |entries|
      ensures entries[i].target.directory != q && entries[i].temporary.directory != q && entries[i].backup.directory != q
    {
      assert EntryNamed(entries[i], q);
    }
  }

  lemma SameLinks(v: Volume, w: Volume, q: Object)
    requires Discarded(v, w)
    ensures w.links == v.links
    ensures NothingIn(v.links, q) ==> NothingIn(w.links, q)
  {
  }

  /** Gives up before anything is staged; a probe that could not be removed makes the report unclean. */
  method AbandonEntries(k: Kernel, entries: seq<OutputEntry>, quarantine: Quarantine, created: seq<CreatedDirectory>,
                        tidy: bool, ghost base: Volume, ghost known: set<Object>) returns (clean: bool)
    requires k.Valid() && known <= k.volume.nodes.Keys && EntriesUsable(known, k.shield, entries, quarantine.directory)
    requires DirectoryUsable(known, quarantine.created) && AllUsable(known, created)
    requires k.calm ==> WellNamed(entries, quarantine.directory) && NothingIn(base.links, quarantine.directory)
    requires k.calm && tidy ==> Discarded(base, k.volume)
    modifies k`volume, k`calm, k`touched, k`faults, k`unlinked, k`watched
    ensures k.Valid() && old(k.faults) <= k.faults && k.unlinked <= old(k.unlinked)
    ensures k.calm ==> old(k.calm) && Grew(old(k.volume), k.volume)
    ensures k.calm && k.faults == old(k.faults) ==>
              Dropped(old(k.volume.links), k.volume.links, {quarantine.created.slot} + Slots(created))
    ensures clean ==> tidy
    ensures k.calm && clean ==> k.volume.links == Remaining(base.links, {quarantine.created.slot}, created)
    ensures tidy && LeftoversRemovable(base, quarantine.created, created) ==>
              k.calm && k.faults == old(k.faults) ==> clean
  {
    hide Kernel.Valid, StagedOk, BackupsOk, Identified, EntriesUsable, BackupsObserved, PublishedOk, Apart, Placed,
         LeftoversRemovable, Remaining, DirectoryUsable, WellNamed, NothingIn, Discarded, Grew, Dropped, Leftover,
         CanUndo, Undone;
    ghost var v := k.volume;
    VolumeIsValid(k);
    if k.calm && tidy {
      SameLinks(base, k.volume, quarantine.directory);
      DiscardedIsHarmless(base, base, k.volume, 0, [], [], quarantine, created);
    }
    if tidy {
      clean := AbortEarly(k, entries, quarantine, created, known);
    } else {
      NothingStaged(k.staged, k.volume.open, k.recorded, k.watched, entries);
      if k.calm {
        NothingToUndo(entries, k.volume.links, quarantine.directory);
      }
      var _ := RollBack(k, entries, [], [], [], quarantine, created, known);
      if k.calm {
        SameGrew(v);
        GrewOn(v, v, k.volume);
      }
      clean := false;
    }
  }

  /** From settled names to the end. */
  method CommitEntries(k: Kernel, entries: seq<OutputEntry>, quarantine: Quarantine, created: seq<CreatedDirectory>,
                       ghost known: set<Object>)
    returns (outcome: Outcome, ghost used: seq<OutputEntry>, ghost base: Volume, ghost published: Volume,
             ghost temps: seq<StagedFile>, ghost backs: seq<RetainedBackup>)
    requires k.Valid() && known <= k.volume.nodes.Keys && EntriesUsable(known, k.shield, entries, quarantine.directory)
    requires DirectoryUsable(known, quarantine.created) && AllUsable(known, created) && k.stranded == {}
    requires k.calm ==>
               && WellNamed(entries, quarantine.directory) && NothingIn(k.volume.links, quarantine.directory)
               && NoNewFiles(k.origin, k.volume)
               && Holds(k.volume.links, quarantine.created.slot, quarantine.directory)
               && quarantine.directory in k.volume.nodes && k.volume.nodes[quarantine.directory].Directory?
    modifies k`volume, k`calm, k`touched, k`faults, k`staged, k`uninspected, k`recorded, k`unlinked, k`watched,
             k`retired, k`met, k`stranded, k`stored
    ensures k.Valid() && old(k.faults) <= k.faults && old(k.uninspected) <= k.uninspected
    ensures outcome == Published(false) ==> k.faults == old(k.faults)
    ensures k.calm ==> old(k.calm) && (outcome.Failed? ==> Grew(old(k.volume), k.volume))
    ensures k.stranded <= k.staged - k.unlinked
    ensures k.stranded != {} ==> outcome == Failed(false) && old(k.faults) < k.faults
    ensures outcome.Failed? ==> k.retired == old(k.retired)
    ensures outcome.Published? || (k.calm && k.faults == old(k.faults)) ==> k.uninspected == old(k.uninspected)
    ensures outcome.Failed? && k.calm && k.faults <= old(k.faults) + Slack(Unobstructed(old(k.volume), entries)) ==>
              LeftBehind(old(k.volume.links), k.volume.links, {quarantine.created.slot} + Slots(created),
                         quarantine.directory, k.uninspected + k.stranded)
    ensures outcome.Failed? && k.calm && outcome.clean ==>
              k.volume.links == Remaining(old(k.volume.links), {quarantine.created.slot}, created)
    ensures outcome.Failed? && k.calm && k.uninspected == {} && k.stranded == {} ==>
              LeftoversRemovable(old(k.volume), quarantine.created, created) ==>
                k.faults <= old(k.faults) + Slack(Unobstructed(old(k.volume), entries)) ==> outcome.clean
    ensures k.calm && k.faults == old(k.faults) ==>
              Unobstructed(old(k.volume), entries) && QuarantineLeaves(old(k.volume), entries, quarantine.created) ==>
                outcome == Published(false)
    ensures outcome.Published? ==>
              |temps| == |used| == |entries| && IndicesOk(used, backs) && SameNames(used, entries)
    ensures outcome.Published? ==> Replaced(old(k.retired), k.retired, k.met, used, backs)
    ensures outcome.Published? && k.calm ==>
              Discarded(old(k.volume), base) && Concluded(base, published, k.volume, used, temps, backs, quarantine)
    ensures outcome.Published? && k.calm && !outcome.warning ==>
              k.volume.links == published.links - BackupSlots(used, backs) - {quarantine.created.slot}
    ensures outcome.Published? && k.calm ==> Secured(k.stored, used, temps)
    ensures outcome == Published(false) && k.calm && AllLive(k.volume, Homes(used, quarantine, created)) ==>
              AllStored(k.volume, k.stored, Homes(used, quarantine, created))
  {
    hide Secured, AllLive, AllStored, Homes;
    hide Kernel.Valid, Midway, EntriesUsable, Prepared, WellNamed, NothingIn, NoNewFiles, Discarded, SameNames,
         Originals, LeftoversRemovable, BackupSlots, Remaining, DirectoryUsable, AllUsable, Concluded, Replaced,
         Collisionless, AllPreparable, QuarantineLeaves, OneStranded, Grew, Dropped, Leftover, LeftBehind, InsideOnly,
         Noted, Slots;
    var q := quarantine.directory;
    base, published, temps, backs := k.volume, k.volume, [], [];
    ghost var start, some := k.volume, {quarantine.created.slot} + Slots(created);
    VolumeIsValid(k);
    var ok, clean, all;
    ok, clean, all := Prepare(k, entries, q, known);
    used := all;
    ghost var prepared := k.volume;
    if k.calm {
      PreparedGrew(start, prepared, k.stranded, q, k.faults == old(k.faults) + 1);
    }
    if !ok {
      var reverted := AbandonEntries(k, entries, quarantine, created, clean, base, known);
      if k.calm {
        GrewTwice(start, prepared, k.volume);
        if k.faults <= old(k.faults) + Slack(Unobstructed(start, entries)) {
          PreparedIsLeft(start.links, prepared.links, k.volume.links, some, q, k.stranded, k.uninspected + k.stranded);
        }
      }
      return Failed(clean && reverted), used, base, published, temps, backs;
    }
    SameNamesAreWell(all, entries, q, known, k.shield);
    VolumeIsValid(k);
    if k.calm {
      PreparedIsMidway(base, k.volume, entries, all, quarantine, created);
    }
    base := k.volume;
    outcome, published, temps, backs := Commit(k, all, quarantine, created, base, known);
    if outcome.Failed? && k.calm {
      GrewTwice(start, prepared, k.volume);
      if k.faults <= old(k.faults) + Slack(Unobstructed(start, entries)) {
        LeftoverIsLeft(base.links, k.volume.links, all, temps, some, q, k.uninspected, k.uninspected + k.stranded);
      }
    }
  }

  /** The preparation leaves names and directories as they are, but for a stranded probe. */
  lemma PreparedGrew(v: Volume, w: Volume, stranded: set<Object>, q: Object, inside: bool)
    requires v.Valid()
    ensures Discarded(v, w) ==> Grew(v, w) && InsideOnly(v.links, w.links, q, stranded)
    ensures OneStranded(v, w, stranded, q, inside) ==> Grew(v, w)
    ensures OneStranded(v, w, stranded, q, inside) && inside ==> InsideOnly(v.links, w.links, q, stranded)
  {
    if OneStranded(v, w, stranded, q, inside) {
      var s, f :| f in stranded && StrandedAt(v, w, s, f) && (inside ==> s.directory == q);
      assert inside ==> s !in v.links && s.directory == q && f in stranded && w.links == v.links[s := f];
    }
  }

  lemma PreparedIsLeft(a: Links, m: Links, b: Links, some: set<Slot>, q: Object, kept: set<Object>, more: set<Object>)
    requires InsideOnly(a, m, q, kept) && kept <= more && Dropped(m, b, some)
    ensures LeftBehind(a, b, some, q, more)
  {
    hide Dropped, LeftBehind;
    if m != a {
      var s: Slot, f :| s !in a && s.directory == q && f in kept && m == a[s := f];
      assert f in more;
    }
    LeftBehindIs(a, m, b, some, q, more);
  }

  lemma LeftoverIsLeft(links: Links, b: Links, entries: seq<OutputEntry>, temps: seq<StagedFile>, some: set<Slot>,
                       q: Object, uninspected: set<Object>, kept: set<Object>)
    requires |temps| <= |entries| && Noted(temps, uninspected) && uninspected <= kept
    requires WellNamed(entries, q) && NothingIn(links, q) && Dropped(Leftover(links, entries, temps), b, some)
    ensures LeftBehind(links, b, some, q, kept)
  {
    hide PairNamed, KindsDiffer, Claims, Dropped, LeftBehind;
    var last := |temps| - 1;
    if temps != [] && temps[last].identity.None? {
      assert EntryNamed(entries[last], q);
      var s := entries[last].temporaryClaim;
      assert s !in links && s.directory == q;
    }
    LeftBehindIs(links, Leftover(links, entries, temps), b, some, q, kept);
  }

  /** Nothing stands in the way of the outputs, and they do not stand in each other's. */
  ghost predicate Unobstructed(v: Volume, entries: seq<OutputEntry>) {
    AllPreparable(v, entries) && Collisionless(entries)
  }

  lemma StillUnobstructed(v: Volume, w: Volume, entries: seq<OutputEntry>, used: seq<OutputEntry>, d: CreatedDirectory)
    requires Discarded(v, w) && SameNames(used, entries) && |used| == |entries|
    ensures Collisionless(entries) ==> Collisionless(used)
    ensures QuarantineLeaves(v, entries, d) ==> QuarantineLeaves(w, used, d)
  {
    assert forall i {:trigger used[i]} | 0 <= i < |used| ::
        used[i].target == entries[i].target && used[i].temporary == entries[i].temporary
        && used[i].backup == entries[i].backup;
  }

  /** After the preparation, the commit starts with nothing staged. */
  lemma PreparedIsMidway(v: Volume, w: Volume, entries: seq<OutputEntry>, used: seq<OutputEntry>,
                         quarantine: Quarantine, created: seq<CreatedDirectory>)
    requires Discarded(v, w) && SameNames(used, entries) && |used| == |entries| && w.Valid()
    requires WellNamed(used, quarantine.directory) && NothingIn(v.links, quarantine.directory)
    requires quarantine.directory in v.nodes && v.nodes[quarantine.directory].Directory?
    ensures w.links == v.links && NothingIn(w.links, quarantine.directory)
    ensures quarantine.directory in w.nodes && w.nodes[quarantine.directory].Directory?
    ensures Midway(w, w, used, [], [], 0, quarantine.directory)
    ensures LeftoversRemovable(v, quarantine.created, created) ==> LeftoversRemovable(w, quarantine.created, created)
    ensures Collisionless(entries) ==> Collisionless(used)
    ensures QuarantineLeaves(v, entries, quarantine.created) ==> QuarantineLeaves(w, used, quarantine.created)
  {
    SameLinks(v, w, quarantine.directory);
    DiscardedIsHarmless(v, v, w, 0, [], [], quarantine, created) by {
      hide *;
    }
    AtTheStart(w, used, quarantine.directory) by {
      hide *;
    }
    StillUnobstructed(v, w, entries, used, quarantine.created) by {
      hide *;
    }
    hide LeftoversRemovable, Collisionless, QuarantineLeaves, SameNames, WellNamed, Midway, NothingIn;
  }

  lemma TargetsFollow(used: seq<OutputEntry>, entries: seq<OutputEntry>, v: Volume, root: Object,
                      outputs: seq<Output>, q: Object, pid: string)
    requires SameNames(used, entries) && |used| == |entries|
    ensures Targets(used) == Targets(entries)
    ensures BuiltFrom(entries, outputs, q, pid) ==> ForOutputs(used, outputs)
    ensures Rooted(v, root, outputs, entries, q) ==> Rooted(v, root, outputs, used, q)
  {
    hide Reaches, Parents, BuiltFrom, ForOutputs, Rooted;
    assert forall i {:trigger used[i]} | 0 <= i < |used| :: used[i].target == entries[i].target;
    if BuiltFrom(entries, outputs, q, pid) {
      NamedForOutputs(used, entries, outputs, q, pid);
    }
    if Rooted(v, root, outputs, entries, q) {
      RootedFollows(used, entries, v, root, outputs, q);
    }
  }

  lemma RootedFollows(used: seq<OutputEntry>, entries: seq<OutputEntry>, v: Volume, root: Object,
                      outputs: seq<Output>, q: Object)
    requires SameNames(used, entries) && |used| == |entries| && Rooted(v, root, outputs, entries, q)
    ensures Rooted(v, root, outputs, used, q)
  {
    hide Reaches, Parents;
    forall i {:trigger used[i]} | 0 <= i < |used|
      ensures outputs[i].path != [] && used[i].target.directory != q
      ensures Reaches(v, root, Parents(outputs[i].path), used[i].target.directory)
    {
      var e := entries[i];
      assert used[i].target == e.target;
    }
  }

  lemma NamedForOutputs(used: seq<OutputEntry>, entries: seq<OutputEntry>, outputs: seq<Output>, q: Object, pid: string)
    requires SameNames(used, entries) && |used| == |entries| && BuiltFrom(entries, outputs, q, pid)
    ensures ForOutputs(used, outputs)
  {
    hide Beside, ClaimName;
    forall i {:trigger used[i]} | 0 <= i < |used| ensures ForOutput(used[i], outputs[i]) {
      var e := entries[i];
      assert outputs[i].path != [] && used[i].target == e.target && used[i].contents == e.contents;
    }
  }

  /** Reserves descriptors for cleaning up, and settles the names of all outputs. */
  method Settle(k: Kernel, root: Object, outputs: seq<Output>, pid: string, quarantine: Quarantine,
                created: seq<CreatedDirectory>)
    returns (ok: bool, entries: seq<OutputEntry>, all: seq<CreatedDirectory>)
    requires k.Valid() && root in k.volume.nodes && AllUsable(k.volume.nodes.Keys, created)
    requires quarantine.directory in k.shield && quarantine.directory in k.volume.nodes
    requires forall o | o in outputs :: o.path != []
    requires k.calm ==> root != quarantine.directory
    requires k.calm ==> Building(k.volume, k.volume, root, outputs, [], quarantine, created, created)
    modifies k`volume, k`calm, k`touched, k`faults, k`shield, k`uninspected
    ensures k.Valid() && old(k.volume.nodes.Keys) <= k.volume.nodes.Keys && k.volume.open == old(k.volume.open)
    ensures k.shield == old(k.shield) && old(k.uninspected) <= k.uninspected
    ensures old(k.faults) <= k.faults <= old(k.faults) + 1 && (ok ==> k.faults == old(k.faults))
    ensures k.calm && k.faults == old(k.faults) ==>
              AllWalkable(old(k.volume), root, outputs, pid) && CleanupsApart(PathNames(outputs), PathNames(outputs), pid)
              ==> ok
    ensures ok || (k.calm && k.faults == old(k.faults)) ==> k.uninspected == old(k.uninspected)
    ensures AllUsable(k.volume.nodes.Keys, all)
    ensures EntriesUsable(k.volume.nodes.Keys, k.shield, entries, quarantine.directory)
    ensures BuiltFrom(entries, outputs, quarantine.directory, pid) && (ok ==> |entries| == |outputs|)
    ensures k.calm ==> old(k.calm)
    ensures k.calm ==> Building(old(k.volume), k.volume, root, outputs, entries, quarantine, created, all)
    ensures k.calm && k.uninspected == {} && StackedBut(old(k.volume), {quarantine.created.slot}, created) ==>
              StackedBut(k.volume, {quarantine.created.slot}, all)
  {
    hide Kernel.Valid, EntriesUsable, AllUsable, Building, StackedBut, BuiltFrom, AllWalkable, CleanupsApart, PathNames;
    ok, entries, all := false, [], created;
    var reserved := k.Attempt();
    MoreUsable(old(k.volume.nodes.Keys), k.volume.nodes.Keys, created);
    EmptyEntries(k.volume.nodes.Keys, k.shield, outputs, quarantine.directory, pid);
    if reserved {
      ok, entries, all := BuildEntries(k, root, outputs, pid, quarantine, created);
    }
  }

  /** The originals that stood at the targets. */
  function OriginalsAt(links: Links, targets: seq<Slot>): set<Object> {
    set t | t in targets && t in links :: links[t]
  }

  /** Each of the files was opened, as a regular file, at one of the targets. */
  ghost predicate AllMet(met: set<(Slot, Object)>, targets: seq<Slot>, files: set<Object>) {
    forall o | o in files :: exists t :: t in targets && (t, o) in met
  }

  /** The targets are named like the outputs. */
  ghost predicate NamedLike(targets: seq<Slot>, outputs: seq<Output>) {
    && |targets| == |outputs|
    && forall i | 0 <= i < |outputs| :: outputs[i].path != [] && targets[i].name == NameOf(outputs[i])
  }

  lemma ReplacedWereMet(before: set<Object>, after: set<Object>, met: set<(Slot, Object)>, used: seq<OutputEntry>,
                        entries: seq<OutputEntry>, backs: seq<RetainedBackup>, outputs: seq<Output>, q: Object,
                        pid: string)
    requires Replaced(before, after, met, used, backs) && SameNames(used, entries) && |used| == |entries| == |outputs|
    requires BuiltFrom(entries, outputs, q, pid)
    ensures NamedLike(Targets(used), outputs) && AllMet(met, Targets(used), after - before)
  {
    hide EntryFor, AllBackedUp, SameNames;
    NamedForOutputs(used, entries, outputs, q, pid);
    var targets := Targets(used);
    forall i | 0 <= i < |outputs| ensures outputs[i].path != [] && targets[i].name == NameOf(outputs[i]) {
      assert ForOutput(used[i], outputs[i]);
    }
    forall o | o in after - before ensures exists t :: t in targets && (t, o) in met {
      var i :| 0 <= i < |backs| && backs[i].descriptor == o;
      var t := Entry(used, backs, i).target;
      assert targets[backs[i].index] == t;
      assert t in targets && (t, o) in met;
    }
  }

  /** Without interference, the files given up are exactly the originals at the targets. */
  lemma ReplacedAreOriginals(start: Volume, base: Volume, v: Volume, w: Volume, entries: seq<OutputEntry>,
                             temps: seq<StagedFile>, backs: seq<RetainedBackup>, quarantine: Quarantine,
                             created: seq<CreatedDirectory>)
    requires |temps| == |entries| && IndicesOk(entries, backs) && AllBackedUp(entries, backs, |entries|)
    requires Concluded(base, v, w, entries, temps, backs, quarantine) && Founded(start, base, quarantine, created)
    ensures Descriptors(backs) == OriginalsAt(start.links, Targets(entries))
  {
    hide Undone, Placed, Apart, TargetsFree, WithoutTargets, WellNamed, Differing, AgreeOutside, Written, KeepsAllBut,
         Remaining, BackupSlots, Founded, AllBackedUp;
    var targets := Targets(entries);
    forall o | o in Descriptors(backs) ensures o in OriginalsAt(start.links, targets) {
      var i :| 0 <= i < |backs| && backs[i].descriptor == o;
      var t := Entry(entries, backs, i).target;
      assert Holds(base.links, t, o) && EntryPrepared(base, entries[backs[i].index]);
      OldFileIsOld(start, base, quarantine, created, t);
      assert targets[backs[i].index] == t;
      assert t in targets;
    }
    forall o | o in OriginalsAt(start.links, targets) ensures o in Descriptors(backs) {
      var t :| t in targets && t in start.links && start.links[t] == o;
      var j :| 0 <= j < |targets| && targets[j] == t;
      OldFileIsOld(start, base, quarantine, created, t);
      assert EntryPrepared(base, entries[j]);
      assert HasBackup(backs, j) by {
        EachHasBackup(entries, backs, j);
      }
      var i :| 0 <= i < |backs| && backs[i].index == j;
      assert Holds(base.links, Entry(entries, backs, i).target, backs[i].descriptor);
      assert backs[i] in backs;
    }
  }

  lemma EachHasBackup(entries: seq<OutputEntry>, backs: seq<RetainedBackup>, j: nat)
    requires AllBackedUp(entries, backs, |entries|) && j < |entries| && entries[j].hadExistingTarget
    ensures HasBackup(backs, j)
  {
  }

  /** A file that stands at a name now stood there at the start, and the other way round. */
  lemma OldFileIsOld(start: Volume, base: Volume, quarantine: Quarantine, created: seq<CreatedDirectory>, t: Slot)
    requires Founded(start, base, quarantine, created)
    requires Holds(base.links, quarantine.created.slot, quarantine.directory)
    requires quarantine.directory in base.nodes && base.nodes[quarantine.directory].Directory?
    ensures t in start.links ==> Holds(base.links, t, start.links[t])
    ensures t in base.links && base.links[t] in base.nodes && base.nodes[base.links[t]].File? ==>
              Holds(start.links, t, base.links[t])
  {
    hide Remaining, NothingIn;
    StartIsKept(start, base, quarantine, created);
  }

  /** All names are settled; what is new are the quarantine and the directories on the way. */
  ghost predicate NamesSettled(start: Volume, early: Volume, base: Volume, anchor: Object, directory: seq<string>,
                               root: Object, outputs: seq<Output>, pid: string, nonces: seq<string>,
                               entries: seq<OutputEntry>, quarantine: Quarantine, all: seq<CreatedDirectory>) {
    var q, slot := quarantine.directory, quarantine.created.slot;
    && Founded(start, base, quarantine, all) && Remaining(base.links, {slot}, all) == start.links
    && Grown(start, base, anchor, directory, outputs, {slot})
    && IsQuarantine(base, anchor, directory, pid, nonces, slot)
    && Holds(base.links, slot, q) && q in base.nodes && base.nodes[q].Directory? && slot !in early.links
    && NothingIn(base.links, q) && Unreachable(base.links, PathNames(outputs), {q})
    && WellNamed(entries, q) && WellNamed([], q) && Rooted(base, root, outputs, entries, q)
    && KeepsPaths(early, base, Names(directory))
  }

  /** Settles all names, which a publication that is ready allows unless a call fails. */
  method SettleAll(k: Kernel, root: Object, outputs: seq<Output>, pid: string, ghost nonces: seq<string>,
                   quarantine: Quarantine, created: seq<CreatedDirectory>, ghost start: Volume, ghost early: Volume,
                   ghost anchor: Object, ghost directory: seq<string>)
    returns (ok: bool, entries: seq<OutputEntry>, all: seq<CreatedDirectory>)
    requires k.Valid() && root in k.volume.nodes && AllUsable(k.volume.nodes.Keys, created)
    requires quarantine.directory in k.shield && quarantine.directory in k.volume.nodes
    requires forall o | o in outputs :: o.path != []
    requires k.calm ==>
               Opened(start, early, k.volume, root, outputs, pid, nonces, quarantine, created, Names(directory))
    requires k.calm ==> Reaches(early, anchor, directory, root) && start.nodes.Keys <= k.origin.nodes.Keys
    requires k.calm ==> anchor in start.nodes && Along(start, early, anchor, directory, |directory|)
    modifies k`volume, k`calm, k`touched, k`faults, k`shield, k`uninspected
    ensures k.Valid() && old(k.volume.nodes.Keys) <= k.volume.nodes.Keys && k.shield == old(k.shield)
    ensures old(k.faults) <= k.faults <= old(k.faults) + 1 && (ok ==> k.faults == old(k.faults))
    ensures old(k.uninspected) <= k.uninspected
    ensures ok || (k.calm && k.faults == old(k.faults)) ==> k.uninspected == old(k.uninspected)
    ensures AllUsable(k.volume.nodes.Keys, all)
    ensures EntriesUsable(k.volume.nodes.Keys, k.shield, entries, quarantine.directory)
    ensures BuiltFrom(entries, outputs, quarantine.directory, pid) && (ok ==> |entries| == |outputs|)
    ensures k.calm ==>
              && old(k.calm) && NoNewFiles(k.origin, k.volume)
              && NamesSettled(start, early, k.volume, anchor, directory, root, outputs, pid, nonces, entries, quarantine, all)
    ensures k.calm && k.faults == old(k.faults) && Ready(start, anchor, directory, outputs, pid, nonces) ==> ok
    ensures k.calm && ok && Ready(start, anchor, directory, outputs, pid, nonces) ==>
              Unobstructed(k.volume, entries) && QuarantineLeaves(k.volume, entries, quarantine.created)
    ensures k.calm && k.uninspected == {} && StackedBut(early, {}, created) ==>
              Unforeseen(start.links, AllNames(directory, outputs), pid, nonces) ==>
                LeftoversRemovable(k.volume, quarantine.created, all)
    ensures k.calm && k.uninspected == {} && StackedBut(early, {}, created) ==>
              StackedBut(k.volume, {quarantine.created.slot}, all)
  {
    hide Kernel.Valid, EntriesUsable, LeftoversRemovable, Remaining, AllUsable, Opened, Founded, Building, StackedBut,
         Rooted, Reaches, Unforeseen, PathNames, NothingIn, BuiltFrom, WellNamed, NoNewFiles, Unreachable, KeepsPaths,
         Ready, AllWalkable, CleanupsApart, Unobstructed, QuarantineLeaves, Along, AllNames, Grown, IsQuarantine, Holds;
    ghost var v, ready := k.volume, Ready(start, anchor, directory, outputs, pid, nonces);
    if k.calm {
      OpenedMeans(start, early, v, root, outputs, pid, nonces, quarantine, created, Names(directory));
      if ready {
        OpenedIsWalkable(start, early, v, anchor, directory, root, outputs, pid, nonces, quarantine, created);
      }
    }
    ok, entries, all := Settle(k, root, outputs, pid, quarantine, created);
    VolumeIsValid(k);
    ghost var base := k.volume;
    if k.calm {
      SettledMeans(start, early, v, base, root, outputs, pid, nonces, entries, quarantine, created, all, directory,
                   k.origin);
      BuiltIsGrown(start, early, v, base, anchor, directory, root, outputs, pid, nonces, entries, quarantine, created, all);
      if ready && |entries| == |outputs| {
        SettledIsUnobstructed(start, early, v, base, anchor, directory, root, outputs, pid, nonces, entries, quarantine,
                              created, all);
      }
    }
  }

  /** What is left when the transaction is given up then. */
  lemma SettledIsResidue(start: Volume, early: Volume, base: Volume, w: Volume, anchor: Object, directory: seq<string>,
                         root: Object, outputs: seq<Output>, pid: string, nonces: seq<string>,
                         entries: seq<OutputEntry>, quarantine: Quarantine, all: seq<CreatedDirectory>,
                         kept: set<Object>)
    requires NamesSettled(start, early, base, anchor, directory, root, outputs, pid, nonces, entries, quarantine, all)
    requires Grew(base, w)
    ensures Dropped(base.links, w.links, {quarantine.created.slot} + Slots(all)) ==>
              OnlyResidue(start, w, anchor, directory, outputs, pid, nonces, kept)
    ensures LeftBehind(base.links, w.links, {quarantine.created.slot} + Slots(all), quarantine.directory, kept) ==>
              OnlyResidue(start, w, anchor, directory, outputs, pid, nonces, kept)
  {
    hide Grown, IsQuarantine, OnlyResidue, LeftBehind, Slots, Remaining, Dropped, Grew, Founded, Holds, NothingIn,
         Unreachable, WellNamed, Rooted, KeepsPaths, PathNames;
    var q, some := quarantine.directory, {quarantine.created.slot} + Slots(all);
    if Dropped(base.links, w.links, some) {
      LeftBehindIs(base.links, base.links, w.links, some, q, kept);
    }
    if LeftBehind(base.links, w.links, some, q, kept) {
      LeftIsResidue(start, base, w, anchor, directory, outputs, pid, nonces, quarantine, all, kept);
    }
  }

  /** Everything that happens while the quarantine exists. */
  method Transact(k: Kernel, root: Object, outputs: seq<Output>, pid: string, ghost nonces: seq<string>,
                  quarantine: Quarantine, created: seq<CreatedDirectory>, ghost start: Volume, ghost early: Volume,
                  ghost anchor: Object, ghost directory: seq<string>)
    returns (outcome: Outcome, ghost targets: seq<Slot>, ghost made: set<Slot>)
    requires k.Valid() && k.watched == {} && root in k.volume.nodes && AllUsable(k.volume.nodes.Keys, created)
    requires quarantine.directory in k.shield && quarantine.directory in k.volume.nodes
    requires DirectoryUsable(k.volume.nodes.Keys, quarantine.created)
    requires (forall o | o in outputs :: o.path != []) && k.stranded == {}
    requires k.calm ==>
               Opened(start, early, k.volume, root, outputs, pid, nonces, quarantine, created, Names(directory))
    requires k.calm ==> Reaches(early, anchor, directory, root) && start.nodes.Keys <= k.origin.nodes.Keys
    requires k.calm ==> anchor in start.nodes && Along(start, early, anchor, directory, |directory|)
    modifies k`volume, k`calm, k`touched, k`faults, k`staged, k`uninspected, k`recorded, k`unlinked, k`watched,
             k`retired, k`shield, k`met, k`stranded, k`stored
    ensures k.Valid() && old(k.faults) <= k.faults && old(k.uninspected) <= k.uninspected
    ensures outcome == Published(false) ==> k.faults == old(k.faults)
    ensures k.calm ==> old(k.calm)
    ensures k.stranded <= k.staged - k.unlinked
    ensures k.stranded != {} ==> outcome == Failed(false) && old(k.faults) < k.faults
    ensures outcome.Failed? ==> k.retired == old(k.retired)
    ensures outcome.Published? || (k.calm && k.faults == old(k.faults)) ==> k.uninspected == old(k.uninspected)
    ensures outcome.Failed? && k.calm ==>
              k.faults <= old(k.faults) + Slack(Ready(start, anchor, directory, outputs, pid, nonces)) ==>
                OnlyResidue(start, k.volume, anchor, directory, outputs, pid, nonces, k.uninspected + k.stranded)
    ensures outcome.Published? && k.calm ==> KeepsAllBut(start.links, k.volume.links, set t | t in targets)
    ensures outcome.Failed? && k.calm && outcome.clean ==> k.volume.links == start.links
    ensures outcome.Failed? && k.calm && k.uninspected == {} && k.stranded == {} && StackedBut(early, {}, created) ==>
              Unforeseen(start.links, AllNames(directory, outputs), pid, nonces) ==>
                k.faults <= old(k.faults) + Slack(Ready(start, anchor, directory, outputs, pid, nonces)) ==>
                  outcome.clean
    ensures k.calm && k.faults == old(k.faults) && Ready(start, anchor, directory, outputs, pid, nonces) ==>
              outcome == Published(false)
    ensures outcome.Published? ==>
              NamedLike(targets, outputs) && AllMet(k.met, targets, k.retired - old(k.retired))
    ensures outcome.Published? && k.calm ==> k.retired == old(k.retired) + OriginalsAt(start.links, targets)
    ensures outcome.Published? && k.calm ==> Delivered(k.volume, anchor, directory, outputs, targets)
    ensures outcome.Published? && k.calm && !outcome.warning ==>
              OnlyOutputsChanged(start, k.volume, targets, made, anchor, directory, outputs)
    ensures outcome.Published? && k.calm ==> OutputsStored(k.volume, k.stored, targets)
    ensures outcome == Published(false) && k.calm && k.uninspected == {} && anchor in k.volume.Live() ==>
              StackedBut(early, {}, created) ==> Durable(start, k.volume, k.stored, anchor, directory)
  {
    hide Durable, OutputsStored, Secured, AllLive, AllStored, Homes;
    hide Kernel.Valid, EntriesUsable, LeftoversRemovable, Remaining, DirectoryUsable, AllUsable, Opened, Founded,
         StackedBut, Rooted, Reaches, Delivered, OnlyOutputsChanged, Unforeseen, PathNames, NothingIn, BuiltFrom,
         WellNamed, NoNewFiles, Unreachable, KeepsPaths, Concluded, Discarded, BackupSlots, SameNames, Made, Ready,
         Unobstructed, QuarantineLeaves, Replaced, NamedLike, AllMet, OriginalsAt, Along, AllNames, Targets, Grown,
         IsQuarantine, OnlyResidue, LeftBehind, Dropped, Grew, KeepsAllBut, Slots, Holds, Names;
    targets, made := [], {};
    ghost var q, slot := quarantine.directory, quarantine.created.slot;
    ghost var known, ready := k.volume.nodes.Keys, Ready(start, anchor, directory, outputs, pid, nonces);
    var ok, entries, all := SettleAll(k, root, outputs, pid, nonces, quarantine, created, start, early, anchor, directory);
    StaysUsable(known, k.volume.nodes.Keys, quarantine.created);
    known := k.volume.nodes.Keys;
    EmptyEntries(known, k.shield, outputs, q, pid);
    VolumeIsValid(k);
    ghost var base := k.volume;
    NothingDiscarded(base);
    if !ok {
      var clean := AbandonEntries(k, [], quarantine, all, true, base, known);
      if k.calm && k.faults <= old(k.faults) + Slack(ready) {
        SettledIsResidue(start, early, base, k.volume, anchor, directory, root, outputs, pid, nonces, entries, quarantine,
                         all, k.uninspected + k.stranded);
      }
      return Failed(clean), targets, made;
    }
    ghost var used, probed, published, temps, backs;
    outcome, used, probed, published, temps, backs := CommitEntries(k, entries, quarantine, all, known);
    if outcome.Published? {
      targets, made := Targets(used), Made(start, probed, slot);
      ReplacedWereMet(old(k.retired), k.retired, k.met, used, entries, backs, outputs, q, pid);
      if k.calm {
        OutcomeMeans(start, early, base, probed, published, k.volume, anchor, directory, root, outputs, pid, nonces,
                     entries, used, temps, backs, quarantine, all, outcome.warning, old(k.retired), k.retired, k.met);
        OutcomeIsStored(start, early, base, probed, published, k.volume, k.stored, anchor, directory, root, outputs, pid,
                        nonces, entries, used, temps, backs, quarantine, all, outcome.warning);
      }
    } else if k.calm && k.faults <= old(k.faults) + Slack(ready) {
      SettledIsResidue(start, early, base, k.volume, anchor, directory, root, outputs, pid, nonces, entries, quarantine,
                       all, k.uninspected + k.stranded);
    }
  }

  lemma LeftIsResidue(start: Volume, base: Volume, w: Volume, anchor: Object, directory: seq<string>,
                      outputs: seq<Output>, pid: string, nonces: seq<string>, quarantine: Quarantine,
                      created: seq<CreatedDirectory>, kept: set<Object>)
    requires Grown(start, base, anchor, directory, outputs, {quarantine.created.slot})
    requires IsQuarantine(base, anchor, directory, pid, nonces, quarantine.created.slot)
    requires Holds(base.links, quarantine.created.slot, quarantine.directory)
    requires Remaining(base.links, {quarantine.created.slot}, created) == start.links
    requires LeftBehind(base.links, w.links, {quarantine.created.slot} + Slots(created), quarantine.directory, kept)
    requires Grew(base, w)
    ensures OnlyResidue(start, w, anchor, directory, outputs, pid, nonces, kept)
  {
    hide Grown, IsQuarantine, OnlyResidue, LeftBehind, Slots;
    LeftBehindIsResidue(start, base, w, anchor, directory, outputs, pid, nonces,
                        {quarantine.created.slot} + Slots(created), quarantine.created.slot, kept);
  }

  /** Until all names are settled, only directories on the way and the quarantine are new. */
  lemma BuiltIsGrown(start: Volume, early: Volume, v: Volume, base: Volume, anchor: Object, directory: seq<string>,
                     root: Object, outputs: seq<Output>, pid: string, nonces: seq<string>, entries: seq<OutputEntry>,
                     quarantine: Quarantine, created: seq<CreatedDirectory>, all: seq<CreatedDirectory>)
    requires Opened(start, early, v, root, outputs, pid, nonces, quarantine, created, Names(directory))
    requires Reaches(early, anchor, directory, root) && Along(start, early, anchor, directory, |directory|)
    requires Building(v, base, root, outputs, entries, quarantine, created, all)
    ensures Grown(start, base, anchor, directory, outputs, {quarantine.created.slot})
    ensures IsQuarantine(base, anchor, directory, pid, nonces, quarantine.created.slot)
  {
    hide Extended, Unguessed, Remaining, Grown, Reaches, AlongSome, Rooted, Unreachable, Sprouted, PathNames, Names, Along,
         QuarantineName, CleanupName;
    forall n | n in nonces ensures IsQuarantineName(QuarantineName(pid, n), pid, n) {
      QuarantineNameIs(pid, n);
    }
    hide IsQuarantineName;
    QuarantineSprouts(early, v, root, pid, nonces, quarantine);
    GrownToRoot(start, early, anchor, directory, outputs);
    GrownToEntries(start, early, v, base, anchor, directory, root, outputs, quarantine.created.slot);
    RootStaysReached(early, v, base, anchor, directory, root, outputs, quarantine.directory);
    QuarantineStays(early, v, base, root, pid, nonces, quarantine) by {
      ExtendedParts(v, base, PathNames(outputs), {quarantine.directory});
    }
  }

  /** Whatever stands in no way at the start stands in no way once the quarantine exists. */
  lemma OpenedIsWalkable(start: Volume, early: Volume, v: Volume, anchor: Object, directory: seq<string>, root: Object,
                         outputs: seq<Output>, pid: string, nonces: seq<string>, quarantine: Quarantine,
                         created: seq<CreatedDirectory>)
    requires Opened(start, early, v, root, outputs, pid, nonces, quarantine, created, Names(directory))
    requires Reaches(early, anchor, directory, root) && Ready(start, anchor, directory, outputs, pid, nonces)
    ensures AllWalkable(v, root, outputs, pid) && CleanupsApart(PathNames(outputs), PathNames(outputs), pid)
  {
    hide Ready, Reaches, Extended, QuarantineMade, Unguessed, Remaining, AllWalkable, CleanupsApart;
    ReadyAtRoot(start, early, anchor, directory, root, outputs, pid, nonces);
    ReadyWithQuarantine(start, early, v, anchor, directory, root, outputs, pid, nonces, quarantine);
  }

  /** Whatever stands in no way at the start stands in no way once all names are settled. */
  lemma SettledIsUnobstructed(start: Volume, early: Volume, v: Volume, base: Volume, anchor: Object,
                              directory: seq<string>, root: Object, outputs: seq<Output>, pid: string,
                              nonces: seq<string>, entries: seq<OutputEntry>, quarantine: Quarantine,
                              created: seq<CreatedDirectory>, all: seq<CreatedDirectory>)
    requires Opened(start, early, v, root, outputs, pid, nonces, quarantine, created, Names(directory))
    requires Reaches(early, anchor, directory, root) && Ready(start, anchor, directory, outputs, pid, nonces)
    requires anchor in start.nodes && Along(start, early, anchor, directory, |directory|)
    requires Building(v, base, root, outputs, entries, quarantine, created, all) && base.Valid()
    requires BuiltFrom(entries, outputs, quarantine.directory, pid) && |entries| == |outputs|
    requires NothingIn(base.links, quarantine.directory)
    ensures Unobstructed(base, entries) && QuarantineLeaves(base, entries, quarantine.created)
  {
    hide Ready, Extended, QuarantineMade, Unguessed, Remaining, AllWalkable, CleanupsApart, Grown, Reaches, AlongSome,
         Rooted, BuiltFrom, Unreachable, AllPreparable, Collisionless, Sprouted, PathNames, Names, OnItsWay,
         Along, Unforeseen;
    var q, slot := quarantine.directory, quarantine.created.slot;
    QuarantineSprouts(early, v, root, pid, nonces, quarantine);
    BuiltIsGrown(start, early, v, base, anchor, directory, root, outputs, pid, nonces, entries, quarantine, created, all);
    RootStaysReached(early, v, base, anchor, directory, root, outputs, q);
    forall i {:trigger entries[i]} | 0 <= i < |entries|
      ensures OnItsWay(base, anchor, directory, outputs[i], entries[i], i, q, pid)
    {
      EntriesAreOnTheirWay(base, anchor, directory, root, outputs, entries, q, pid, i);
    }
    assert Settled(start, base, anchor, directory, outputs, entries, slot, q, pid, nonces);
    SettledIsReady(start, base, anchor, directory, outputs, entries, slot, q, pid, nonces);
    ReadyIsUnforeseen(start, anchor, directory, outputs, pid, nonces);
    BuiltMeans(start, early, v, base, root, outputs, pid, nonces, entries, quarantine, created, all, Names(directory));
    TargetsAreNotForeseen(start, early, v, base, anchor, directory, root, outputs, pid, nonces, entries, quarantine);
  }

  lemma ReadyIsUnforeseen(start: Volume, anchor: Object, directory: seq<string>, outputs: seq<Output>, pid: string,
                          nonces: seq<string>)
    requires Ready(start, anchor, directory, outputs, pid, nonces)
    ensures Unforeseen(start.links, AllNames(directory, outputs), pid, nonces)
    ensures Unforeseen(start.links, Names(directory) + PathNames(outputs), pid, nonces)
  {
    ReadyMeans(start, anchor, directory, outputs, pid, nonces);
  }

  lemma RootStaysReached(early: Volume, v: Volume, base: Volume, anchor: Object, directory: seq<string>, root: Object,
                         outputs: seq<Output>, q: Object)
    requires Reaches(early, anchor, directory, root) && Sprouted(early, v)
    requires Extended(v, base, PathNames(outputs), {q})
    ensures Reaches(base, anchor, directory, root)
  {
    hide Reaches, PathNames;
    SproutedTwice(early, v, base);
    NothingForgotten(early, base);
    StillReaches(early, base, anchor, directory, root);
  }

  /** No target is a name to which the quarantine is moved. */
  lemma TargetsAreNotForeseen(start: Volume, early: Volume, v: Volume, base: Volume, anchor: Object,
                              directory: seq<string>, root: Object, outputs: seq<Output>, pid: string,
                              nonces: seq<string>, entries: seq<OutputEntry>, quarantine: Quarantine)
    requires QuarantineMade(early, v, root, pid, nonces, quarantine)
    requires Unforeseen(start.links, AllNames(directory, outputs), pid, nonces)
    requires |entries| == |outputs|
    requires forall i {:trigger entries[i]} | 0 <= i < |entries| ::
               OnItsWay(base, anchor, directory, outputs[i], entries[i], i, quarantine.directory, pid)
    ensures forall i {:trigger entries[i]} | 0 <= i < |entries| :: entries[i].target != quarantine.created.cleanup
  {
    hide CleanupName, QuarantineName, Reaches, AllNames, Beside, ClaimName;
    forall i {:trigger entries[i]} | 0 <= i < |entries| ensures entries[i].target != quarantine.created.cleanup {
      assert OnItsWay(base, anchor, directory, outputs[i], entries[i], i, quarantine.directory, pid);
      NamesOnWay(directory, outputs, i);
    }
  }

  /** What is known once all names are settled. */
  lemma SettledMeans(start: Volume, early: Volume, v: Volume, base: Volume, root: Object, outputs: seq<Output>,
                     pid: string, nonces: seq<string>, entries: seq<OutputEntry>, quarantine: Quarantine,
                     created: seq<CreatedDirectory>, all: seq<CreatedDirectory>, directory: seq<string>, origin: Volume)
    requires Opened(start, early, v, root, outputs, pid, nonces, quarantine, created, Names(directory))
    requires Building(v, base, root, outputs, entries, quarantine, created, all) && base.Valid()
    requires BuiltFrom(entries, outputs, quarantine.directory, pid) && start.nodes.Keys <= origin.nodes.Keys
    ensures Founded(start, base, quarantine, all) && NoNewFiles(origin, base)
    ensures NothingIn(base.links, quarantine.directory)
    ensures Remaining(base.links, {quarantine.created.slot}, all) == start.links
    ensures WellNamed(entries, quarantine.directory) && WellNamed([], quarantine.directory)
    ensures Rooted(base, root, outputs, entries, quarantine.directory)
    ensures KeepsPaths(early, base, Names(directory)) && quarantine.created.slot !in early.links
    ensures Holds(base.links, quarantine.created.slot, quarantine.directory)
    ensures quarantine.directory in base.nodes && base.nodes[quarantine.directory].Directory?
    ensures Unreachable(base.links, PathNames(outputs), {quarantine.directory})
    ensures Unforeseen(start.links, AllNames(directory, outputs), pid, nonces) ==>
              StackedBut(base, {quarantine.created.slot}, all) ==>
                LeftoversRemovable(base, quarantine.created, all)
    ensures StackedBut(early, {}, created) ==> StackedBut(v, {quarantine.created.slot}, created)
  {
    var names := Names(directory);
    BuiltMeans(start, early, v, base, root, outputs, pid, nonces, entries, quarantine, created, all, names);
    BuiltPaths(start, early, v, base, root, outputs, pid, nonces, entries, quarantine, created, all, names, names);
    OpenedMeans(start, early, v, root, outputs, pid, nonces, quarantine, created, names);
    hide Opened, Building, StackedBut, LeftoversRemovable, Removable, KeepsPaths, Unreachable, PathNames, Names, Reaches,
         Remaining, EntryFor, WellNamed;
    RootedAreWellNamed(base, root, outputs, entries, quarantine.directory, pid);
    NoEntriesAreWellNamed(quarantine.directory);
    if Removable(base, quarantine.created) && StackedBut(base, {quarantine.created.slot}, all) {
      LeftoversAreRemovable(base, quarantine, all);
    }
  }

  lemma NoEntriesAreWellNamed(q: Object)
    ensures WellNamed([], q)
  {
  }

  lemma RootedAreWellNamed(v: Volume, root: Object, outputs: seq<Output>, entries: seq<OutputEntry>, q: Object,
                           pid: string)
    requires Rooted(v, root, outputs, entries, q) && BuiltFrom(entries, outputs, q, pid)
    ensures WellNamed(entries, q)
  {
    hide Reaches, EntryFor, WellNamed;
    BuiltAreWellNamed(entries, outputs, q, pid);
  }

  /** A published transaction, seen from before its first call. */
  lemma OutcomeMeans(start: Volume, early: Volume, base: Volume, probed: Volume, published: Volume, w: Volume,
                     anchor: Object, directory: seq<string>, root: Object, outputs: seq<Output>, pid: string,
                     nonces: seq<string>, entries: seq<OutputEntry>, used: seq<OutputEntry>, temps: seq<StagedFile>,
                     backs: seq<RetainedBackup>, quarantine: Quarantine, all: seq<CreatedDirectory>, warning: bool,
                     before: set<Object>, after: set<Object>, met: set<(Slot, Object)>)
    requires Replaced(before, after, met, used, backs)
    requires NamesSettled(start, early, base, anchor, directory, root, outputs, pid, nonces, entries, quarantine, all)
    requires |temps| == |used| == |entries| == |outputs| && IndicesOk(used, backs) && SameNames(used, entries)
    requires Discarded(base, probed) && Concluded(probed, published, w, used, temps, backs, quarantine)
    requires BuiltFrom(entries, outputs, quarantine.directory, pid) && Reaches(early, anchor, directory, root)
    requires !warning ==> w.links == published.links - BackupSlots(used, backs) - {quarantine.created.slot}
    ensures Delivered(w, anchor, directory, outputs, Targets(used))
    ensures after == before + OriginalsAt(start.links, Targets(used))
    ensures KeepsAllBut(start.links, w.links, set t | t in Targets(used))
    ensures !warning ==>
              OnlyOutputsChanged(start, w, Targets(used), Made(start, probed, quarantine.created.slot), anchor, directory,
                                 outputs)
  {
    hide Concluded, Founded, Rooted, Reaches, Unreachable, PathNames, BackupSlots, OnlyOutputsChanged, Made, AllBackedUp,
         BackupsMet, OriginalsAt, Descriptors, Targets, SameNames, BuiltFrom, ForOutputs, Delivered, Grown,
         KeepsAllBut;
    GrownIsHarmless(start, base, probed, anchor, directory, outputs, {quarantine.created.slot});
    StartStays(start, probed, published, w, used, temps, backs, quarantine, all) by {
      DiscardedIsHarmless(start, base, probed, root, outputs, entries, quarantine, all);
    }
    DiscardedIsHarmless(start, base, probed, root, outputs, entries, quarantine, all);
    TargetsFollow(used, entries, probed, root, outputs, quarantine.directory, pid);
    OutputsAreDelivered(early, probed, published, w, anchor, directory, root, outputs, used, temps, backs,
                        quarantine);
    ReplacedAreOriginals(start, probed, published, w, used, temps, backs, quarantine, all);
    if !warning {
      OnlyOutputsHaveChanged(start, probed, published, w, used, temps, backs, quarantine, all, anchor, directory,
                             outputs);
    }
  }

  // --- What is on the disk --------------------------------------------------------

  lemma {:induction false} ReachedIsLive(v: Volume, start: Object, path: seq<string>, end: Object)
    requires Reaches(v, start, path, end) && start in v.Live()
    ensures end in v.Live()
    decreases |path|
  {
    if path != [] {
      ReachedIsLive(v, v.links[Slot(start, path[0])], path[1..], end);
    }
  }

  lemma {:induction false} OneEnd(v: Volume, start: Object, path: seq<string>, a: Object, b: Object)
    requires Reaches(v, start, path, a) && Reaches(v, start, path, b)
    ensures a == b
    decreases |path|
  {
    if path != [] {
      OneEnd(v, v.links[Slot(start, path[0])], path[1..], a, b);
    }
  }

  lemma OutputsAreStored(base: Volume, v: Volume, w: Volume, stored: map<Object, Image>, entries: seq<OutputEntry>,
                         temps: seq<StagedFile>, backs: seq<RetainedBackup>, quarantine: Quarantine)
    requires |temps| == |entries| && IndicesOk(entries, backs)
    requires Concluded(base, v, w, entries, temps, backs, quarantine) && Secured(stored, entries, temps)
    ensures OutputsStored(w, stored, Targets(entries))
  {
    hide Publishing, Written, BackupSlots, KeepsAllBut;
    var targets := Targets(entries);
    forall t | t in targets ensures t in w.links && IsStored(w, stored, w.links[t]) {
      var i :| 0 <= i < |targets| && targets[i] == t;
      TargetsHold(base, v, w, entries, temps, backs, quarantine.directory, quarantine.created.slot, i);
      assert temps[i].descriptor in stored;
    }
  }

  /** The output directory is where it was before the last phase. */
  lemma RootIsThere(start: Volume, early: Volume, base: Volume, probed: Volume, v: Volume, w: Volume, anchor: Object,
                    directory: seq<string>, root: Object, outputs: seq<Output>, pid: string, nonces: seq<string>,
                    entries: seq<OutputEntry>, used: seq<OutputEntry>, temps: seq<StagedFile>,
                    backs: seq<RetainedBackup>, quarantine: Quarantine, all: seq<CreatedDirectory>)
    requires NamesSettled(start, early, base, anchor, directory, root, outputs, pid, nonces, entries, quarantine, all)
    requires |temps| == |used| && IndicesOk(used, backs) && Discarded(base, probed)
    requires Concluded(probed, v, w, used, temps, backs, quarantine)
    ensures Reaches(w, anchor, directory, quarantine.created.slot.directory)
  {
    hide Publishing, Written, BackupSlots, KeepsAllBut, Founded, Remaining, Grown, Unreachable, WellNamed, Rooted,
         KeepsPaths, QuarantineName, Reaches, PathNames;
    var q, slot := quarantine.directory, quarantine.created.slot;
    forall t | LeadsOn(base, t) && t != slot ensures LeadsOn(w, t) && w.links[t] == base.links[t] {
      DirectoriesStay(probed, v, w, used, temps, backs, q, slot, t);
    }
    ReachesAround(base, w, slot, q, anchor, directory, slot.directory);
  }

  /** What is on the way is reached. */
  lemma OnTheWayIsLive(v: Volume, anchor: Object, directory: seq<string>, outputs: seq<Output>, s: Slot)
    requires IsOnTheWay(v, anchor, directory, outputs, s) && anchor in v.Live()
    ensures s.directory in v.Live()
  {
    hide Reaches, AllNames;
    if k: nat :| OnWalkAt(v, anchor, directory, k, s) {
      ReachedIsLive(v, anchor, directory[..k], s.directory);
    } else {
      var j: nat, k: nat :| j < |outputs| && OnWalkAt(v, anchor, Way(directory, outputs[j]), k, s);
      ReachedIsLive(v, anchor, Way(directory, outputs[j])[..k], s.directory);
    }
  }

  /** The directories registered are exactly those made on the way. */
  lemma RegisteredAreMade(start: Volume, base: Volume, slot: Slot, created: seq<CreatedDirectory>)
    requires Remaining(base.links, {slot}, created) == start.links
    ensures Made(start, base, slot) <= Slots(created)
    ensures StackedBut(base, {slot}, created) ==> Slots(created) == Made(start, base, slot)
  {
    forall s | s in Made(start, base, slot) ensures s in Slots(created) {
      assert s !in Remaining(base.links, {slot}, created);
    }
    if StackedBut(base, {slot}, created) {
      forall s | s in Slots(created) ensures s in Made(start, base, slot) {
        var i :| 0 <= i < |created| && created[i].slot == s;
        assert StackedAt(base.(links := base.links - {slot}), created, i);
        assert s !in Remaining(base.links, {slot}, created);
      }
    }
  }

  lemma HomesAre(entries: seq<OutputEntry>, quarantine: Quarantine, created: seq<CreatedDirectory>)
    ensures quarantine.created.slot.directory in Homes(entries, quarantine, created)
    ensures forall t | t in Targets(entries) :: t.directory in Homes(entries, quarantine, created)
    ensures forall s | s in Slots(created) :: s.directory in Homes(entries, quarantine, created)
    ensures forall d | d in Homes(entries, quarantine, created) ::
              || d == quarantine.created.slot.directory
              || (exists t :: t in Targets(entries) && t.directory == d)
              || (exists s :: s in Slots(created) && s.directory == d)
  {
    var homes, targets := Homes(entries, quarantine, created), Targets(entries);
    forall t | t in targets ensures t.directory in homes {
      var i :| 0 <= i < |targets| && targets[i] == t;
      assert homes[1 + i] == t.directory;
    }
    forall s | s in Slots(created) ensures s.directory in homes {
      var i :| 0 <= i < |created| && created[i].slot == s;
      assert homes[1 + |entries| + i] == s.directory;
    }
    forall d | d in homes
      ensures || d == quarantine.created.slot.directory
              || (exists t :: t in targets && t.directory == d)
              || (exists s :: s in Slots(created) && s.directory == d)
    {
      var i :| 0 <= i < |homes| && homes[i] == d;
      if 1 <= i <= |entries| {
        assert targets[i - 1] in targets;
      } else if i > |entries| {
        assert created[i - 1 - |entries|].slot in Slots(created);
      }
    }
  }

  /** Where names have changed, no directory is without a name. */
  lemma HomesAreLive(w: Volume, entries: seq<OutputEntry>, quarantine: Quarantine, created: seq<CreatedDirectory>,
                     anchor: Object, directory: seq<string>, outputs: seq<Output>)
    requires Delivered(w, anchor, directory, outputs, Targets(entries)) && anchor in w.Live()
    requires forall s | s in Slots(created) :: IsOnTheWay(w, anchor, directory, outputs, s)
    requires Reaches(w, anchor, directory, quarantine.created.slot.directory)
    ensures AllLive(w, Homes(entries, quarantine, created))
  {
    hide Reaches, IsOnTheWay, Homes, Targets, Parents, Slots;
    HomesAre(entries, quarantine, created);
    ReachedIsLive(w, anchor, directory, quarantine.created.slot.directory);
    forall d | d in Homes(entries, quarantine, created) ensures d in w.Live() {
      if t :| t in Targets(entries) && t.directory == d {
        var i :| 0 <= i < |outputs| && Targets(entries)[i] == t;
        assert DeliveredAt(w, anchor, directory, outputs[i], t);
        var path := outputs[i].path;
        ReachedIsLive(w, anchor, directory + path[..|path| - 1], t.directory);
      } else if s :| s in Slots(created) && s.directory == d {
        OnTheWayIsLive(w, anchor, directory, outputs, s);
      }
    }
  }

  /** If the last phase has flushed every directory that it names, the publication is durable. */
  lemma FlushedIsDurable(start: Volume, base: Volume, w: Volume, stored: map<Object, Image>, entries: seq<OutputEntry>,
                         quarantine: Quarantine, created: seq<CreatedDirectory>, anchor: Object,
                         directory: seq<string>, outputs: seq<Output>)
    requires Remaining(base.links, {quarantine.created.slot}, created) == start.links
    requires StackedBut(base, {quarantine.created.slot}, created) && anchor in w.Live()
    requires OnlyOutputsChanged(start, w, Targets(entries), Made(start, base, quarantine.created.slot), anchor, directory,
                                outputs)
    requires Delivered(w, anchor, directory, outputs, Targets(entries))
    requires Reaches(w, anchor, directory, quarantine.created.slot.directory)
    requires AllLive(w, Homes(entries, quarantine, created)) ==>
               AllStored(w, stored, Homes(entries, quarantine, created))
    ensures Durable(start, w, stored, anchor, directory)
  {
    hide Remaining, StackedBut, Delivered, Reaches, Homes, Targets, Slots, Made, IsOnTheWay, IsStored;
    var slot := quarantine.created.slot;
    RegisteredAreMade(start, base, slot, created);
    HomesAreLive(w, entries, quarantine, created, anchor, directory, outputs);
    HomesAre(entries, quarantine, created);
    forall root | Reaches(w, anchor, directory, root) ensures root == slot.directory {
      OneEnd(w, anchor, directory, root, slot.directory);
    }
    forall s | !SameAt(start.links, w.links, s) ensures IsStored(w, stored, s.directory) {
      assert s in (set t | t in Targets(entries)) + Made(start, base, slot);
    }
  }

  /** What is on the disk once the transaction is published without a warning. */
  lemma OutcomeIsDurable(start: Volume, early: Volume, base: Volume, probed: Volume, published: Volume, w: Volume,
                         stored: map<Object, Image>, anchor: Object, directory: seq<string>, root: Object,
                         outputs: seq<Output>, pid: string, nonces: seq<string>, entries: seq<OutputEntry>,
                         used: seq<OutputEntry>, temps: seq<StagedFile>, backs: seq<RetainedBackup>,
                         quarantine: Quarantine, all: seq<CreatedDirectory>)
    requires NamesSettled(start, early, base, anchor, directory, root, outputs, pid, nonces, entries, quarantine, all)
    requires |temps| == |used| && IndicesOk(used, backs) && Discarded(base, probed)
    requires Concluded(probed, published, w, used, temps, backs, quarantine)
    requires StackedBut(base, {quarantine.created.slot}, all) && anchor in w.Live()
    requires Delivered(w, anchor, directory, outputs, Targets(used))
    requires OnlyOutputsChanged(start, w, Targets(used), Made(start, probed, quarantine.created.slot), anchor, directory,
                                outputs)
    requires AllLive(w, Homes(used, quarantine, all)) ==> AllStored(w, stored, Homes(used, quarantine, all))
    ensures Durable(start, w, stored, anchor, directory)
  {
    RootIsThere(start, early, base, probed, published, w, anchor, directory, root, outputs, pid, nonces, entries, used,
                temps, backs, quarantine, all);
    hide Concluded, Remaining, StackedBut, Delivered, OnlyOutputsChanged, Made, Targets, Homes, Reaches, Founded, Grown,
         Unreachable, PathNames, WellNamed, Rooted, KeepsPaths, Durable, AllLive, AllStored;
    assert Made(start, base, quarantine.created.slot) == Made(start, probed, quarantine.created.slot) by {
      SameLinks(base, probed, quarantine.directory);
      MadeOfLinks(start, base, probed, quarantine.created.slot);
    }
    FlushedIsDurable(start, base, w, stored, used, quarantine, all, anchor, directory, outputs);
  }

  lemma OutcomeIsStored(start: Volume, early: Volume, base: Volume, probed: Volume, published: Volume, w: Volume,
                        stored: map<Object, Image>, anchor: Object, directory: seq<string>, root: Object,
                        outputs: seq<Output>, pid: string, nonces: seq<string>, entries: seq<OutputEntry>,
                        used: seq<OutputEntry>, temps: seq<StagedFile>, backs: seq<RetainedBackup>,
                        quarantine: Quarantine, all: seq<CreatedDirectory>, warning: bool)
    requires NamesSettled(start, early, base, anchor, directory, root, outputs, pid, nonces, entries, quarantine, all)
    requires |temps| == |used| && IndicesOk(used, backs) && Discarded(base, probed)
    requires Concluded(probed, published, w, used, temps, backs, quarantine) && Secured(stored, used, temps)
    requires Delivered(w, anchor, directory, outputs, Targets(used))
    requires !warning ==>
               OnlyOutputsChanged(start, w, Targets(used), Made(start, probed, quarantine.created.slot), anchor, directory,
                                  outputs)
    requires !warning && AllLive(w, Homes(used, quarantine, all)) ==> AllStored(w, stored, Homes(used, quarantine, all))
    ensures OutputsStored(w, stored, Targets(used))
    ensures !warning && StackedBut(base, {quarantine.created.slot}, all) && anchor in w.Live() ==>
              Durable(start, w, stored, anchor, directory)
  {
    hide *;
    OutputsAreStored(probed, published, w, stored, used, temps, backs, quarantine);
    if !warning && StackedBut(base, {quarantine.created.slot}, all) && anchor in w.Live() {
      OutcomeIsDurable(start, early, base, probed, published, w, stored, anchor, directory, root, outputs, pid, nonces,
                       entries, used, temps, backs, quarantine, all);
    }
  }

  lemma MadeOfLinks(start: Volume, v: Volume, w: Volume, slot: Slot)
    requires v.links == w.links
    ensures Made(start, v, slot) == Made(start, w, slot)
  {
  }

  /** An unregistered file without a name makes no difference. */
  lemma GrownIsHarmless(start: Volume, v: Volume, w: Volume, anchor: Object, directory: seq<string>,
                        outputs: seq<Output>, hidden: set<Slot>)
    requires Grown(start, v, anchor, directory, outputs, hidden) && Discarded(v, w)
    ensures Grown(start, w, anchor, directory, outputs, hidden)
  {
    hide OnSomeWay, AllNames;
    forall s | s in w.links && s !in start.links && s !in hidden
      ensures s.name in AllNames(directory, outputs) && OnSomeWay(w, anchor, directory, outputs, s)
    {
      SomeWayRemains(v, w, anchor, directory, outputs, s);
    }
  }

  // --- The entry point --------------------------------------------------------

  /** Removes what was made of the output directory. */
  method AbandonDirectories(k: Kernel, created: seq<CreatedDirectory>, tidy: bool, ghost start: Volume,
                            ghost v: Volume) returns (clean: bool)
    requires k.Valid() && k.watched == {} && AllUsable(k.volume.nodes.Keys, created)
    requires k.calm ==> v.Valid() && Remaining(v.links, {}, created) == start.links
    requires k.calm && tidy ==> Discarded(v, k.volume)
    modifies k`volume, k`calm, k`touched, k`faults
    ensures k.Valid() && old(k.faults) <= k.faults
    ensures k.calm ==> old(k.calm) && OnlyLinks(old(k.volume), k.volume)
    ensures k.calm && k.faults == old(k.faults) ==> Dropped(old(k.volume.links), k.volume.links, Slots(created))
    ensures k.calm && clean ==> k.volume.links == start.links
    ensures tidy && StackedBut(v, {}, created) ==> k.calm && k.faults == old(k.faults) ==> clean
  {
    hide Kernel.Valid, Stacked, Slots;
    if k.calm && tidy {
      assert v.links - {} == v.links;
      if StackedBut(v, {}, created) {
        SameStack(v.(links := v.links - {}), k.volume, created);
      }
    }
    var removed := RemoveCreatedDirectories(k, created);
    clean := removed && tidy;
  }

  /** Every output passes the first preflight. */
  ghost predicate AllAdmissible(v: Volume, root: Object, outputs: seq<Output>) {
    forall i {:trigger outputs[i]} | 0 <= i < |outputs| ::
      outputs[i].path != [] && Admissible(v, root, Parents(outputs[i].path), NameOf(outputs[i]))
  }

  /** Looks at every target before anything is created below the output directory, and runs the first hook. */
  method InspectAll(k: Kernel, root: Object, outputs: seq<Output>) returns (ok: bool)
    requires k.Valid() && forall o | o in outputs :: o.path != []
    modifies k`volume, k`calm, k`touched, k`faults
    ensures k.Valid() && old(k.volume.nodes.Keys) <= k.volume.nodes.Keys && k.volume.open == old(k.volume.open)
    ensures old(k.faults) <= k.faults <= old(k.faults) + 1 && (ok ==> k.faults == old(k.faults))
    ensures k.calm ==> old(k.calm) && k.volume == old(k.volume)
    ensures k.calm && k.faults == old(k.faults) ==> (ok <==> AllAdmissible(k.volume, root, outputs))
  {
    hide Kernel.Valid, Admissible;
    var index := 0;
    while index < |outputs|
      invariant index <= |outputs|
      invariant k.Valid() && old(k.volume.nodes.Keys) <= k.volume.nodes.Keys && k.volume.open == old(k.volume.open)
      invariant k.faults == old(k.faults)
      invariant k.calm ==> old(k.calm) && k.volume == old(k.volume)
      invariant k.calm ==> AllAdmissible(k.volume, root, outputs[..index])
    {
      var path := outputs[index].path;
      assert outputs[index] in outputs;
      var admissible := InspectExisting(k, root, Parents(path), path[|path| - 1]);
      if !admissible {
        return false;
      }
      index := index + 1;
    }
    assert outputs[..index] == outputs;
    ok := k.Attempt();
  }

  lemma ReadyIsInspected(start: Volume, early: Volume, anchor: Object, directory: seq<string>, root: Object,
                         outputs: seq<Output>, pid: string, nonces: seq<string>)
    requires start.Valid() && anchor in start.nodes && Ready(start, anchor, directory, outputs, pid, nonces)
    requires Extended(start, early, Names(directory), {}) && Along(start, early, anchor, directory, |directory|)
    requires Reaches(early, anchor, directory, root) && |nonces| > 0
    ensures AllAdmissible(early, root, outputs)
    ensures Slot(root, QuarantineName(pid, nonces[0])) !in early.links
  {
    hide Ready, Extended, Reaches, Along, AllWalkable, Admissible;
    ReadyAtRoot(start, early, anchor, directory, root, outputs, pid, nonces);
    ReadyToDraw(start, early, anchor, directory, root, outputs, pid, nonces);
    forall i {:trigger outputs[i]} | 0 <= i < |outputs|
      ensures outputs[i].path != [] && Admissible(early, root, Parents(outputs[i].path), NameOf(outputs[i]))
    {
      ReadyIsAdmissible(start, early, anchor, directory, root, outputs, pid, nonces, i);
    }
  }

  /** Publishes into an output directory that exists or has just been made. */
  method WriteBelow(k: Kernel, root: Object, created: seq<CreatedDirectory>, outputs: seq<Output>, pid: string,
                    nonces: seq<string>, ghost start: Volume, ghost anchor: Object, ghost directory: seq<string>)
    returns (outcome: Outcome, ghost targets: seq<Slot>, ghost made: set<Slot>)
    requires k.Valid() && k.watched == {} && root in k.volume.nodes && AllUsable(k.volume.nodes.Keys, created)
    requires |nonces| == QUARANTINE_ATTEMPTS && Unguessed(outputs, pid, nonces)
    requires (forall o | o in outputs :: o.path != []) && k.stranded == {}
    requires k.calm ==>
               && start.Valid() && Extended(start, k.volume, Names(directory), {})
               && Remaining(k.volume.links, {}, created) == start.links
               && Reaches(k.volume, anchor, directory, root) && start.nodes.Keys <= k.origin.nodes.Keys
    requires k.calm ==> anchor in start.nodes && Along(start, k.volume, anchor, directory, |directory|)
    modifies k`volume, k`calm, k`touched, k`faults, k`staged, k`uninspected, k`recorded, k`unlinked, k`watched,
             k`retired, k`shield, k`met, k`stranded, k`stored
    ensures k.Valid() && old(k.faults) <= k.faults && old(k.uninspected) <= k.uninspected
    ensures outcome == Published(false) ==> k.faults == old(k.faults)
    ensures k.calm ==> old(k.calm)
    ensures k.stranded <= k.staged - k.unlinked
    ensures k.stranded != {} ==> outcome == Failed(false) && old(k.faults) < k.faults
    ensures outcome.Failed? ==> k.retired == old(k.retired)
    ensures outcome.Published? || (k.calm && k.faults == old(k.faults)) ==> k.uninspected == old(k.uninspected)
    ensures outcome.Failed? && k.calm ==>
              k.faults <= old(k.faults) + Slack(Ready(start, anchor, directory, outputs, pid, nonces)) ==>
                OnlyResidue(start, k.volume, anchor, directory, outputs, pid, nonces, k.uninspected + k.stranded)
    ensures outcome.Published? && k.calm ==> KeepsAllBut(start.links, k.volume.links, set t | t in targets)
    ensures outcome.Failed? && k.calm && outcome.clean ==> k.volume.links == start.links
    ensures outcome.Failed? && k.calm && k.uninspected == {} && k.stranded == {} && StackedBut(old(k.volume), {}, created) ==>
              Unforeseen(start.links, AllNames(directory, outputs), pid, nonces) ==>
                k.faults <= old(k.faults) + Slack(Ready(start, anchor, directory, outputs, pid, nonces)) ==>
                  outcome.clean
    ensures k.calm && k.faults == old(k.faults) && Ready(start, anchor, directory, outputs, pid, nonces) ==>
              outcome == Published(false)
    ensures outcome.Published? ==>
              NamedLike(targets, outputs) && AllMet(k.met, targets, k.retired - old(k.retired))
    ensures outcome.Published? && k.calm ==> k.retired == old(k.retired) + OriginalsAt(start.links, targets)
    ensures outcome.Published? && k.calm ==> Delivered(k.volume, anchor, directory, outputs, targets)
    ensures outcome.Published? && k.calm && !outcome.warning ==>
              OnlyOutputsChanged(start, k.volume, targets, made, anchor, directory, outputs)
    ensures outcome.Published? && k.calm ==> OutputsStored(k.volume, k.stored, targets)
    ensures outcome == Published(false) && k.calm && k.uninspected == {} && anchor in k.volume.Live() ==>
              StackedBut(old(k.volume), {}, created) ==> Durable(start, k.volume, k.stored, anchor, directory)
  {
    hide Durable, OutputsStored;
    hide Kernel.Valid, Remaining, AllUsable, StackedBut, Reaches, Delivered, OnlyOutputsChanged, Unforeseen, Discarded,
         Unguessed, Extended, Names, AllNames, Ready, AllAdmissible, NamedLike, AllMet, OriginalsAt, Along, QuarantineName,
         OnlyResidue, Dropped, OnlyLinks, KeepsAllBut, Slots;
    targets, made := [], {};
    ghost var early := k.volume;
    VolumeIsValid(k);
    NothingDiscarded(early);
    if k.calm && Ready(start, anchor, directory, outputs, pid, nonces) {
      ReadyIsInspected(start, early, anchor, directory, root, outputs, pid, nonces);
    }
    var ok := InspectAll(k, root, outputs);
    MoreUsable(early.nodes.Keys, k.volume.nodes.Keys, created);
    if !ok {
      var clean := AbandonDirectories(k, created, true, start, early);
      if k.calm && k.faults <= old(k.faults) + Slack(Ready(start, anchor, directory, outputs, pid, nonces)) {
        EarlyIsResidue(start, early, k.volume, anchor, directory, outputs, pid, nonces, created,
                       k.uninspected + k.stranded);
      }
      return Failed(clean), targets, made;
    }
    outcome, targets, made := WriteEnclosed(k, root, created, outputs, pid, nonces, start, anchor, directory);
  }

  /** The same once the first preflight has passed. */
  method WriteEnclosed(k: Kernel, root: Object, created: seq<CreatedDirectory>, outputs: seq<Output>, pid: string,
                       nonces: seq<string>, ghost start: Volume, ghost anchor: Object, ghost directory: seq<string>)
    returns (outcome: Outcome, ghost targets: seq<Slot>, ghost made: set<Slot>)
    requires k.Valid() && k.watched == {} && root in k.volume.nodes && AllUsable(k.volume.nodes.Keys, created)
    requires |nonces| == QUARANTINE_ATTEMPTS && Unguessed(outputs, pid, nonces)
    requires (forall o | o in outputs :: o.path != []) && k.stranded == {}
    requires k.calm ==>
               && start.Valid() && Extended(start, k.volume, Names(directory), {})
               && Remaining(k.volume.links, {}, created) == start.links
               && Reaches(k.volume, anchor, directory, root) && start.nodes.Keys <= k.origin.nodes.Keys
    requires k.calm ==> anchor in start.nodes && Along(start, k.volume, anchor, directory, |directory|)
    requires k.calm && Ready(start, anchor, directory, outputs, pid, nonces) ==>
               Slot(root, QuarantineName(pid, nonces[0])) !in k.volume.links
    modifies k`volume, k`calm, k`touched, k`faults, k`staged, k`uninspected, k`recorded, k`unlinked, k`watched,
             k`retired, k`shield, k`met, k`stranded, k`stored
    ensures k.Valid() && old(k.faults) <= k.faults && old(k.uninspected) <= k.uninspected
    ensures outcome == Published(false) ==> k.faults == old(k.faults)
    ensures k.calm ==> old(k.calm)
    ensures k.stranded <= k.staged - k.unlinked
    ensures k.stranded != {} ==> outcome == Failed(false) && old(k.faults) < k.faults
    ensures outcome.Failed? ==> k.retired == old(k.retired)
    ensures outcome.Published? || (k.calm && k.faults == old(k.faults)) ==> k.uninspected == old(k.uninspected)
    ensures outcome.Failed? && k.calm ==>
              k.faults <= old(k.faults) + Slack(Ready(start, anchor, directory, outputs, pid, nonces)) ==>
                OnlyResidue(start, k.volume, anchor, directory, outputs, pid, nonces, k.uninspected + k.stranded)
    ensures outcome.Published? && k.calm ==> KeepsAllBut(start.links, k.volume.links, set t | t in targets)
    ensures outcome.Failed? && k.calm && outcome.clean ==> k.volume.links == start.links
    ensures outcome.Failed? && k.calm && k.uninspected == {} && k.stranded == {} && StackedBut(old(k.volume), {}, created) ==>
              Unforeseen(start.links, AllNames(directory, outputs), pid, nonces) ==>
                k.faults <= old(k.faults) + Slack(Ready(start, anchor, directory, outputs, pid, nonces)) ==>
                  outcome.clean
    ensures k.calm && k.faults == old(k.faults) && Ready(start, anchor, directory, outputs, pid, nonces) ==>
              outcome == Published(false)
    ensures outcome.Published? ==>
              NamedLike(targets, outputs) && AllMet(k.met, targets, k.retired - old(k.retired))
    ensures outcome.Published? && k.calm ==> k.retired == old(k.retired) + OriginalsAt(start.links, targets)
    ensures outcome.Published? && k.calm ==> Delivered(k.volume, anchor, directory, outputs, targets)
    ensures outcome.Published? && k.calm && !outcome.warning ==>
              OnlyOutputsChanged(start, k.volume, targets, made, anchor, directory, outputs)
    ensures outcome.Published? && k.calm ==> OutputsStored(k.volume, k.stored, targets)
    ensures outcome == Published(false) && k.calm && k.uninspected == {} && anchor in k.volume.Live() ==>
              StackedBut(old(k.volume), {}, created) ==> Durable(start, k.volume, k.stored, anchor, directory)
  {
    hide Durable, OutputsStored;
    hide Kernel.Valid, Remaining, DirectoryUsable, AllUsable, StackedBut, Reaches, Delivered, OnlyOutputsChanged,
         Unforeseen, PathNames, Discarded, Unguessed, Extended, QuarantineMade, CleanupNamesFree, Names, AllNames, Ready,
         NamedLike, AllMet, OriginalsAt, Along, QuarantineName, Opened, OnlyResidue, QuarantineLeft, Dropped, OnlyLinks,
         KeepsAllBut, Slots;
    targets, made := [], {};
    ghost var early := k.volume;
    VolumeIsValid(k);
    ghost var known := k.volume.nodes.Keys;
    var quarantine, tidy;
    quarantine, tidy := CreateQuarantine(k, root, pid, nonces);
    MoreUsable(known, k.volume.nodes.Keys, created);
    if quarantine.None? {
      if k.calm {
        NamesAreFree(start, early, root, pid, nonces, directory, outputs);
      }
      ghost var refused := k.volume;
      var clean := AbandonDirectories(k, created, tidy, start, early);
      if k.calm && k.faults <= old(k.faults) + Slack(Ready(start, anchor, directory, outputs, pid, nonces)) {
        RefusedIsResidue(start, early, refused, k.volume, anchor, directory, root, outputs, pid, nonces, created,
                         k.uninspected + k.stranded);
      }
      return Failed(clean), targets, made;
    }
    VolumeIsValid(k);
    if k.calm {
      OpenedNow(start, early, k.volume, root, outputs, pid, nonces, quarantine.value, created, Names(directory));
    }
    outcome, targets, made := Transact(k, root, outputs, pid, nonces, quarantine.value, created, start, early, anchor,
                                       directory);
  }

  /** Giving up while only directories on the way have been made. */
  lemma EarlyIsResidue(start: Volume, early: Volume, w: Volume, anchor: Object, directory: seq<string>,
                       outputs: seq<Output>, pid: string, nonces: seq<string>, created: seq<CreatedDirectory>,
                       kept: set<Object>)
    requires Extended(start, early, Names(directory), {}) && Along(start, early, anchor, directory, |directory|)
    requires Remaining(early.links, {}, created) == start.links
    requires Dropped(early.links, w.links, Slots(created)) && OnlyLinks(early, w)
    ensures OnlyResidue(start, w, anchor, directory, outputs, pid, nonces, kept)
  {
    hide Extended, Along, Grown, OnlyResidue, Dropped, Slots, Names;
    GrownToRoot(start, early, anchor, directory, outputs);
    GrownResidue(start, early, anchor, directory, outputs, pid, nonces, {});
    ResidueShrinks(start, early, w, anchor, directory, outputs, pid, nonces, {}, Slots(created));
    ResidueWidens(start, w, anchor, directory, outputs, pid, nonces, {}, kept);
  }

  /** Giving up with a quarantine that was refused and could not be removed. */
  lemma RefusedIsResidue(start: Volume, early: Volume, refused: Volume, w: Volume, anchor: Object,
                         directory: seq<string>, root: Object, outputs: seq<Output>, pid: string, nonces: seq<string>,
                         created: seq<CreatedDirectory>, kept: set<Object>)
    requires Extended(start, early, Names(directory), {}) && Along(start, early, anchor, directory, |directory|)
    requires Reaches(early, anchor, directory, root) && QuarantineLeft(early, refused, root, pid, nonces)
    requires Remaining(early.links, {}, created) == start.links
    requires Dropped(refused.links, w.links, Slots(created)) && OnlyLinks(refused, w)
    ensures OnlyResidue(start, w, anchor, directory, outputs, pid, nonces, kept)
  {
    hide Extended, Along, Grown, OnlyResidue, Dropped, Slots, Names, QuarantineLeft, Reaches;
    GrownToRoot(start, early, anchor, directory, outputs);
    RefusedResidue(start, early, refused, anchor, directory, root, outputs, pid, nonces);
    ResidueShrinks(start, refused, w, anchor, directory, outputs, pid, nonces, {}, Slots(created));
    ResidueWidens(start, w, anchor, directory, outputs, pid, nonces, {}, kept);
  }

  lemma OpenedNow(start: Volume, early: Volume, v: Volume, root: Object, outputs: seq<Output>, pid: string,
                  nonces: seq<string>, quarantine: Quarantine, created: seq<CreatedDirectory>, names: set<string>)
    requires start.Valid() && early.Valid() && v.Valid() && root in early.nodes
    requires Extended(start, early, names, {}) && Remaining(early.links, {}, created) == start.links
    requires QuarantineMade(early, v, root, pid, nonces, quarantine) && Unguessed(outputs, pid, nonces)
    ensures Opened(start, early, v, root, outputs, pid, nonces, quarantine, created, names)
  {
  }

  lemma NamesAreFree(start: Volume, v: Volume, root: Object, pid: string, nonces: seq<string>, directory: seq<string>,
                     outputs: seq<Output>)
    requires Extended(start, v, Names(directory), {})
    ensures Unforeseen(start.links, AllNames(directory, outputs), pid, nonces) ==>
              CleanupNamesFree(v.links, root, pid, nonces)
  {
    hide CleanupName, QuarantineName, Names, PathNames, Sprouted;
  }

  /** Opens or makes the output directory, and publishes into it. */
  method WriteFrom(k: Kernel, anchor: Object, directory: seq<string>, outputs: seq<Output>, pid: string,
                   nonces: seq<string>)
    returns (outcome: Outcome, ghost targets: seq<Slot>, ghost made: set<Slot>)
    requires k.Valid() && k.volume == k.origin && k.watched == {} && forall o | o in outputs :: o.path != []
    requires anchor in k.volume.nodes && |nonces| == QUARANTINE_ATTEMPTS && Unguessed(outputs, pid, nonces)
    requires k.stranded == {}
    modifies k`volume, k`calm, k`touched, k`faults, k`staged, k`uninspected, k`recorded, k`unlinked, k`watched,
             k`retired, k`shield, k`met, k`stranded, k`stored
    ensures k.Valid() && old(k.faults) <= k.faults
    ensures outcome == Published(false) ==> k.faults == old(k.faults)
    ensures k.calm ==> old(k.calm)
    ensures k.stranded <= k.staged - k.unlinked
    ensures k.stranded != {} ==> outcome == Failed(false) && old(k.faults) < k.faults
    ensures outcome.Failed? ==> k.retired == old(k.retired)
    ensures outcome.Published? || (k.calm && k.faults == old(k.faults)) ==> k.uninspected == old(k.uninspected)
    ensures outcome.Failed? && k.calm ==>
              k.faults <= old(k.faults) + Slack(Ready(old(k.volume), anchor, directory, outputs, pid, nonces)) ==>
                OnlyResidue(old(k.volume), k.volume, anchor, directory, outputs, pid, nonces, k.uninspected + k.stranded)
    ensures outcome.Published? && k.calm ==> KeepsAllBut(old(k.volume).links, k.volume.links, set t | t in targets)
    ensures outcome.Failed? && k.calm && outcome.clean ==> k.volume.links == old(k.volume.links)
    ensures outcome.Failed? && k.calm && k.uninspected == {} && k.stranded == {} ==>
              Unforeseen(old(k.volume.links), AllNames(directory, outputs), pid, nonces) ==>
                k.faults <= old(k.faults) + Slack(Ready(old(k.volume), anchor, directory, outputs, pid, nonces)) ==>
                  outcome.clean
    ensures k.calm && k.faults == old(k.faults) && Ready(old(k.volume), anchor, directory, outputs, pid, nonces) ==>
              outcome == Published(false)
    ensures outcome.Published? ==>
              NamedLike(targets, outputs) && AllMet(k.met, targets, k.retired - old(k.retired))
    ensures outcome.Published? && k.calm ==> k.retired == old(k.retired) + OriginalsAt(old(k.volume.links), targets)
    ensures outcome.Published? && k.calm ==> Delivered(k.volume, anchor, directory, outputs, targets)
    ensures outcome.Published? && k.calm && !outcome.warning ==>
              OnlyOutputsChanged(old(k.volume), k.volume, targets, made, anchor, directory, outputs)
    ensures outcome.Published? && k.calm ==> OutputsStored(k.volume, k.stored, targets)
    ensures outcome == Published(false) && k.calm && k.uninspected == {} && anchor in k.volume.Live() ==>
              Durable(old(k.volume), k.volume, k.stored, anchor, directory)
  {
    hide Durable, OutputsStored;
    hide Kernel.Valid, Remaining, DirectoryUsable, AllUsable, StackedBut, Reaches, Delivered, OnlyOutputsChanged,
         Unforeseen, PathNames, Discarded, Unguessed, Extended, Names, AllNames, Ready, NamedLike, AllMet, OriginalsAt,
         Along, Walkable, OnlyResidue, Dropped, OnlyLinks, KeepsAllBut, Slots, Unreachable;
    targets, made := [], {};
    outcome := Failed(true);
    ghost var start := k.volume;
    VolumeIsValid(k);
    var admitted := k.Attempt();
    NoResidue(start, start, anchor, directory, outputs, pid, nonces, k.uninspected + k.stranded);
    if !admitted {
      return;
    }
    NothingCreated(start, k.volume.nodes.Keys);
    if Ready(start, anchor, directory, outputs, pid, nonces) {
      ReadyMeans(start, anchor, directory, outputs, pid, nonces);
    }
    var root, created := CreatePath(k, anchor, directory, pid, [], {}, {});
    VolumeIsValid(k);
    if root.None? {
      NothingDiscarded(k.volume);
      ghost var early := k.volume;
      var clean := AbandonDirectories(k, created, true, start, k.volume);
      outcome := Failed(clean);
      if k.calm && k.faults <= old(k.faults) + Slack(Ready(start, anchor, directory, outputs, pid, nonces)) {
        EarlyIsResidue(start, early, k.volume, anchor, directory, outputs, pid, nonces, created,
                       k.uninspected + k.stranded);
      }
    } else {
      outcome, targets, made := WriteBelow(k, root.value, created, outputs, pid, nonces, start, anchor, directory);
    }
  }

  /** What the books say whenever the kernel is valid, which is before and after every call. */
  lemma Books(k: Kernel)
    requires k.Valid()
    ensures k.unlinked <= k.staged + k.retired && k.staged !! k.origin.nodes.Keys
    ensures Survives(k.origin, k.volume, k.unlinked, k.touched)
    ensures k.calm ==> Unchanged(k.origin.nodes, k.volume.nodes)
    ensures k.calm ==> forall o | o in k.staged - k.unlinked :: o in k.volume.links.Values
  {
  }

  /**
   Publishes `outputs` below the directory that `directory` leads to from `anchor`.

   A success without a warning means that no call has failed.  An output whose path
   could leave the output directory stops everything beforehand.

   Without interference by other processes:
   - if nothing fails and the publication is `Ready`, it succeeds without a warning;
   - a success puts every output in place and keeps every other name; one without a
     warning adds nothing but directories that were missing on the way; what it gives
     up are exactly the files that stood at the targets;
   - after a success the disk has the files at the targets, and if there is no warning
     also every directory in which a name has changed, and the output directory;
   - a failure with a clean report leaves every name and all contents as they were;
   - if a single call fails in a publication that is `Ready`, or none in one that is
     not, a failure keeps every name and leaves nothing but directories on the way and
     a quarantine, with at most what was kept in it;
   - its report is then clean, unless the failing call inspected an object just made
     or removed a rename probe.

   With interference: only files created here are ever unlinked, and after full
   publication files that were opened at the outputs' targets; every other file, from
   the start or from since, has a name unless another process took it away.
  */
  method WriteOutputs(k: Kernel, anchor: Object, directory: seq<string>, outputs: seq<Output>, pid: string,
                      nonces: seq<string>)
    returns (outcome: Outcome, ghost targets: seq<Slot>, ghost made: set<Slot>)
    requires k.Valid() && k.volume == k.origin && k.watched == {} && k.met == {}
    requires k.retired == k.stranded == k.uninspected == {}
    requires anchor in k.volume.nodes && |nonces| == QUARANTINE_ATTEMPTS && Unguessed(outputs, pid, nonces)
    modifies k`volume, k`calm, k`touched, k`faults, k`staged, k`uninspected, k`recorded, k`unlinked, k`watched,
             k`retired, k`shield, k`met, k`stranded, k`stored
    ensures k.Valid() && old(k.faults) <= k.faults
    ensures k.calm ==> old(k.calm)
    ensures outcome == Published(false) ==> k.faults == old(k.faults)
    ensures k.calm && k.faults == old(k.faults) && Ready(old(k.volume), anchor, directory, outputs, pid, nonces) ==>
              outcome == Published(false)
    ensures (exists o :: o in outputs && Escapes(o.path)) ==> outcome == Failed(true) && k.volume == old(k.volume)
    ensures outcome.Published? && k.calm ==> Delivered(k.volume, anchor, directory, outputs, targets)
    ensures outcome.Published? && k.calm && !outcome.warning ==>
              OnlyOutputsChanged(old(k.volume), k.volume, targets, made, anchor, directory, outputs)
    ensures outcome.Published? && k.calm ==> OutputsStored(k.volume, k.stored, targets)
    ensures outcome == Published(false) && k.calm && anchor in k.volume.Live() ==>
              Durable(old(k.volume), k.volume, k.stored, anchor, directory)
    ensures outcome.Published? && k.calm ==> k.retired == OriginalsAt(old(k.volume.links), targets)
    ensures outcome.Published? && k.calm ==> KeepsAllBut(old(k.volume.links), k.volume.links, set t | t in targets)
    ensures k.calm ==> Unchanged(old(k.volume.nodes), k.volume.nodes)
    ensures outcome.Failed? && k.calm && outcome.clean ==> k.volume.links == old(k.volume.links)
    ensures outcome.Failed? && k.calm ==>
              k.faults <= old(k.faults) + Slack(Ready(old(k.volume), anchor, directory, outputs, pid, nonces)) ==>
                OnlyResidue(old(k.volume), k.volume, anchor, directory, outputs, pid, nonces,
                            k.uninspected + k.stranded)
    ensures outcome.Failed? && k.calm && k.uninspected == {} && k.stranded == {} ==>
              Unforeseen(old(k.volume.links), AllNames(directory, outputs), pid, nonces) ==>
                k.faults <= old(k.faults) + Slack(Ready(old(k.volume), anchor, directory, outputs, pid, nonces)) ==>
                  outcome.clean
    ensures k.stranded != {} ==>
              outcome == Failed(false) && k.stranded <= k.staged - k.unlinked && old(k.faults) < k.faults
    ensures k.uninspected != {} ==> outcome.Failed? && (k.calm ==> old(k.faults) < k.faults)
    ensures k.calm ==> k.stranded <= k.volume.links.Values
    ensures outcome.Failed? ==> k.unlinked <= k.staged
    ensures k.unlinked <= k.staged + k.retired && k.staged !! old(k.volume.nodes.Keys)
    ensures outcome.Published? ==> NamedLike(targets, outputs) && AllMet(k.met, targets, k.retired)
    ensures Survives(old(k.volume), k.volume, k.unlinked, k.touched)
  {
    hide Durable, OutputsStored;
    hide Kernel.Valid, Delivered, OnlyOutputsChanged, Unforeseen, PathNames, Unguessed, Names, Survives, Unchanged,
         AllNames, Ready, NamedLike, AllMet, OriginalsAt, OnlyResidue, KeepsAllBut;
    targets, made := [], {};
    outcome := Failed(true);
    SelfUnchanged(k.volume.nodes);
    NoResidue(k.volume, k.volume, anchor, directory, outputs, pid, nonces, k.uninspected + k.stranded);
    if Ready(k.volume, anchor, directory, outputs, pid, nonces) {
      ReadyMeans(k.volume, anchor, directory, outputs, pid, nonces);
    }
    if forall o | o in outputs :: SafePath(o.path) {
      outcome, targets, made := WriteFrom(k, anchor, directory, outputs, pid, nonces);
    }
    assert k.retired - {} == k.retired;
    Books(k);
  }

  lemma SelfUnchanged(nodes: map<Object, Node>)
    ensures Unchanged(nodes, nodes)
  {
  }

  lemma NothingCreated(v: Volume, known: set<Object>)
    ensures Remaining(v.links, {}, []) == v.links && StackedBut(v, {}, []) && AllUsable(known, [])
    ensures Unreachable(v.links, {}, {}) && forall names :: Unreachable(v.links, names, {})
  {
    assert v.links - {} - Slots([]) == v.links;
  }
}
