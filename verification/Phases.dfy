/**
 The phases of a publication in their order: preflight, rename probe, staging, backing
 up, publishing.  Each says how far it got, so that a rollback can take over.
*/
module Phases {
  import opened Wrappers
  import opened Namespace
  import opened Cleanup
  import opened Rollback
  import opened Directories
  import opened Progress

  // --- Staging ----------------------------------------------------------------

  /** Every staged file holds what is to be published. */
  ghost predicate Written(nodes: map<Object, Node>, entries: seq<OutputEntry>, temps: seq<StagedFile>)
    requires |temps| <= |entries|
  {
    forall i {:trigger temps[i]} | 0 <= i < |temps| ::
      temps[i].descriptor in nodes && nodes[temps[i].descriptor] == File(entries[i].contents)
  }

  /** Every staged file has been flushed since it was written. */
  ghost predicate Secured(stored: map<Object, Image>, entries: seq<OutputEntry>, temps: seq<StagedFile>)
    requires |temps| <= |entries|
  {
    forall i {:trigger temps[i]} | 0 <= i < |temps| ::
      temps[i].descriptor in stored && stored[temps[i].descriptor] == Text(entries[i].contents)
  }

  ghost predicate RecordsKept(before: map<Object, Inode>, after: map<Object, Inode>) {
    forall o | o in before :: o in after && after[o] == before[o]
  }

  lemma StagedStays(staged: set<Object>, open: set<Object>, recorded: map<Object, Inode>, temps: seq<StagedFile>,
                    moreStaged: set<Object>, moreOpen: set<Object>, moreRecorded: map<Object, Inode>)
    requires StagedOk(staged, open, recorded, temps)
    requires staged <= moreStaged && open <= moreOpen
    requires RecordsKept(recorded, moreRecorded)
    ensures StagedOk(moreStaged, moreOpen, moreRecorded, temps)
  {
  }

  lemma StagedPushed(staged: set<Object>, open: set<Object>, recorded: map<Object, Inode>, temps: seq<StagedFile>,
                     f: StagedFile)
    requires StagedOk(staged, open, recorded, temps) && f.index == |temps| && f.descriptor in staged
    requires f.identity.Some? ==> Retained(open, recorded, f.descriptor, f.identity.value)
    ensures StagedOk(staged, open, recorded, temps + [f])
  {
  }

  lemma IdentifiedPushed(temps: seq<StagedFile>, f: StagedFile)
    requires Identified(temps) && f.identity.Some?
    ensures Identified(temps + [f])
  {
  }

  /** If the file staged last could not be identified, that is on record. */
  ghost predicate Noted(temps: seq<StagedFile>, uninspected: set<Object>) {
    temps != [] && temps[|temps| - 1].identity.None? ==> temps[|temps| - 1].descriptor in uninspected
  }

  lemma AllAreNoted(temps: seq<StagedFile>, uninspected: set<Object>)
    ensures Identified(temps) ==> FrontIdentified(temps) && Noted(temps, uninspected)
  {
  }

  lemma LastIsNoted(temps: seq<StagedFile>, f: StagedFile)
    ensures Identified(temps) ==> FrontIdentified(temps + [f])
    ensures forall uninspected :: f.identity.Some? || f.descriptor in uninspected ==> Noted(temps + [f], uninspected)
  {
    if Identified(temps) {
      var all := temps + [f];
      forall i {:trigger all[i]} | 0 <= i && i + 1 < |all| ensures all[i].identity.Some? {
        assert all[i] == temps[i];
      }
    }
  }

  lemma SecuredPushed(before: map<Object, Image>, nodes: map<Object, Node>, after: map<Object, Image>,
                      entries: seq<OutputEntry>, temps: seq<StagedFile>, f: StagedFile)
    requires |temps| < |entries| && Written(nodes, entries, temps) && f.descriptor !in nodes
    requires Secured(before, entries, temps)
    requires after == before[f.descriptor := Text(entries[|temps|].contents)]
    ensures Secured(after, entries, temps + [f])
  {
  }

  lemma WrittenPushed(before: map<Object, Node>, after: map<Object, Node>, entries: seq<OutputEntry>,
                      temps: seq<StagedFile>, f: StagedFile)
    requires |temps| < |entries| && Written(before, entries, temps) && f.descriptor !in before
    requires f.descriptor in after && after[f.descriptor] == File(entries[|temps|].contents)
    requires forall o | o in before :: o in after && after[o] == before[o]
    ensures Written(after, entries, temps + [f])
  {
  }

  /**
   Creates, identifies, writes and flushes one temporary file.  It is registered, with
   its open descriptor, before anything else can fail.
  */
  method StageOutput(k: Kernel, entries: seq<OutputEntry>, temps: seq<StagedFile>, q: Object, ghost base: Volume)
    returns (ok: bool, all: seq<StagedFile>)
    requires k.Valid() && |temps| < |entries| && StagedOk(k.staged, k.volume.open, k.recorded, temps)
    requires entries[|temps|].temporary.directory in k.volume.nodes
    requires k.calm ==> Midway(base, k.volume, entries, temps, [], 0, q) && WellNamed(entries, q)
    requires k.calm ==> Written(k.volume.nodes, entries, temps) && Secured(k.stored, entries, temps)
    modifies k`volume, k`calm, k`touched, k`faults, k`staged, k`uninspected, k`recorded, k`stored
    ensures k.Valid() && old(k.volume.nodes.Keys) <= k.volume.nodes.Keys
    ensures old(k.faults) <= k.faults <= old(k.faults) + 1 && old(k.uninspected) <= k.uninspected
    ensures ok ==> k.faults == old(k.faults)
    ensures k.calm && k.faults == old(k.faults) && entries[|temps|].temporary !in old(k.volume.links) ==> ok
    ensures |temps| <= |all| <= |temps| + 1 && (ok ==> |all| == |temps| + 1)
    ensures StagedOk(k.staged, k.volume.open, k.recorded, all)
    ensures ok || (k.calm && k.faults == old(k.faults)) ==> k.uninspected == old(k.uninspected)
    ensures Identified(temps) ==> FrontIdentified(all) && Noted(all, k.uninspected)
    ensures Identified(temps) && (ok || k.uninspected == {}) ==> Identified(all)
    ensures k.calm ==> old(k.calm) && Midway(base, k.volume, entries, all, [], 0, q)
    ensures k.calm && ok ==> Written(k.volume.nodes, entries, all) && Secured(k.stored, entries, all)
  {
    hide Kernel.Valid, Midway, WellNamed, Written, Secured, StagedOk, Identified, FrontIdentified, Noted;
    ok, all := false, temps;
    VolumeIsValid(k);
    AllAreNoted(temps, k.uninspected);
    var creating := k.CreateFile(entries[|temps|].temporary);
    if !creating.Created? {
      return;
    }
    var f := creating.made;
    StagedStays(old(k.staged), old(k.volume.open), old(k.recorded), temps, k.staged, k.volume.open, k.recorded);
    if k.calm {
      StageStep(base, old(k.volume), k.volume, entries, temps, q, StagedFile(|temps|, None, f));
    }
    ok, all := FillStaged(k, entries, temps, f, q, base, old(k.volume.nodes));
  }

  /** The rest of staging one output, once its file exists. */
  method FillStaged(k: Kernel, entries: seq<OutputEntry>, temps: seq<StagedFile>, f: Object, q: Object,
                    ghost base: Volume, ghost before: map<Object, Node>)
    returns (ok: bool, all: seq<StagedFile>)
    requires k.Valid() && |temps| < |entries| && StagedOk(k.staged, k.volume.open, k.recorded, temps)
    requires f in k.staged && f in k.volume.open && f in k.volume.nodes
    requires k.calm ==> Midway(base, k.volume, entries, temps + [StagedFile(|temps|, None, f)], [], 0, q)
    requires k.calm ==> Written(before, entries, temps) && f !in before && k.volume.nodes == before[f := File([])]
    requires k.calm ==> Secured(k.stored, entries, temps)
    modifies k`volume, k`calm, k`touched, k`faults, k`uninspected, k`recorded, k`stored
    ensures k.Valid() && old(k.volume.nodes.Keys) <= k.volume.nodes.Keys
    ensures k.faults == (if ok then old(k.faults) else old(k.faults) + 1) && old(k.uninspected) <= k.uninspected
    ensures |all| == |temps| + 1
    ensures StagedOk(k.staged, k.volume.open, k.recorded, all)
    ensures ok ==> k.uninspected == old(k.uninspected)
    ensures Identified(temps) ==> FrontIdentified(all) && Noted(all, k.uninspected)
    ensures Identified(temps) && (ok || k.uninspected == {}) ==> Identified(all)
    ensures k.calm ==> old(k.calm) && Midway(base, k.volume, entries, all, [], 0, q)
    ensures k.calm && ok ==> Written(k.volume.nodes, entries, all) && Secured(k.stored, entries, all)
  {
    hide Kernel.Valid, Midway, WellNamed, Written, Secured, StagedOk, Identified, FrontIdentified, Noted;
    StagedIsNew(k, f);
    ok, all := false, temps + [StagedFile(|temps|, None, f)];
    LastIsNoted(temps, StagedFile(|temps|, None, f));
    StagedPushed(k.staged, k.volume.open, k.recorded, temps, StagedFile(|temps|, None, f));
    var identity := k.InspectMade(f, f);
    if identity.None? {
      return;
    }
    LastIsNoted(temps, StagedFile(|temps|, identity, f));
    k.Record(f);
    all := temps + [StagedFile(|temps|, identity, f)];
    StagedStays(k.staged, k.volume.open, old(k.recorded), temps, k.staged, k.volume.open, k.recorded);
    StagedPushed(k.staged, k.volume.open, k.recorded, temps, StagedFile(|temps|, identity, f));
    if Identified(temps) {
      IdentifiedPushed(temps, StagedFile(|temps|, identity, f));
    }
    ok := WriteStaged(k, entries, temps, StagedFile(|temps|, identity, f), q, base, before);
  }

  /** Writes and flushes a staged file. */
  method WriteStaged(k: Kernel, entries: seq<OutputEntry>, temps: seq<StagedFile>, f: StagedFile, q: Object,
                     ghost base: Volume, ghost before: map<Object, Node>)
    returns (ok: bool)
    requires k.Valid() && |temps| < |entries| && f.descriptor in k.staged && f.index == |temps|
    requires k.calm ==> Secured(k.stored, entries, temps)
    requires k.calm ==> Midway(base, k.volume, entries, temps + [StagedFile(|temps|, None, f.descriptor)], [], 0, q)
    requires k.calm ==> Written(before, entries, temps) && f.descriptor !in before
                        && k.volume.nodes == before[f.descriptor := File([])]
    modifies k`volume, k`calm, k`touched, k`faults, k`stored
    ensures k.Valid() && old(k.volume.nodes.Keys) <= k.volume.nodes.Keys && old(k.volume.open) == k.volume.open
    ensures k.faults == if ok then old(k.faults) else old(k.faults) + 1
    ensures k.calm ==> old(k.calm) && Midway(base, k.volume, entries, temps + [f], [], 0, q)
    ensures k.calm && ok ==> Written(k.volume.nodes, entries, temps + [f]) && Secured(k.stored, entries, temps + [f])
  {
    hide Kernel.Valid, Midway, Written, Secured;
    ok := k.WriteAll(f.descriptor, entries[|temps|].contents);
    if k.calm {
      ContentsDoNotMatter(base, old(k.volume), k.volume, entries, temps + [StagedFile(|temps|, None, f.descriptor)],
                          temps + [f], [], 0, q);
    }
    if ok {
      if k.calm {
        WrittenPushed(before, k.volume.nodes, entries, temps, f);
      }
      ok := k.Flush(f.descriptor);
      if k.calm && ok {
        SecuredPushed(old(k.stored), before, k.stored, entries, temps, f);
      }
    }
  }

  method StageAll(k: Kernel, entries: seq<OutputEntry>, q: Object, ghost base: Volume, ghost known: set<Object>)
    returns (ok: bool, temps: seq<StagedFile>)
    requires k.Valid() && known <= k.volume.nodes.Keys && EntriesUsable(known, k.shield, entries, q)
    requires k.calm ==> Midway(base, k.volume, entries, [], [], 0, q) && WellNamed(entries, q)
    modifies k`volume, k`calm, k`touched, k`faults, k`staged, k`uninspected, k`recorded, k`stored
    ensures k.Valid() && old(k.volume.nodes.Keys) <= k.volume.nodes.Keys
    ensures old(k.faults) <= k.faults <= old(k.faults) + 1 && old(k.uninspected) <= k.uninspected
    ensures ok ==> k.faults == old(k.faults)
    ensures k.calm && k.faults == old(k.faults) && Prepared(base, entries) && Collisionless(entries) ==> ok
    ensures |temps| <= |entries| && StagedOk(k.staged, k.volume.open, k.recorded, temps)
    ensures ok || (k.calm && k.faults == old(k.faults)) ==> k.uninspected == old(k.uninspected)
    ensures FrontIdentified(temps) && Noted(temps, k.uninspected)
    ensures ok ==> |temps| == |entries| && Identified(temps)
    ensures k.uninspected == {} ==> Identified(temps)
    ensures k.calm ==> old(k.calm) && Midway(base, k.volume, entries, temps, [], 0, q)
    ensures k.calm && ok ==> Written(k.volume.nodes, entries, temps) && Secured(k.stored, entries, temps)
  {
    hide Kernel.Valid, Midway, WellNamed, Prepared, Collisionless, Written, Secured, StagedOk, Identified, FrontIdentified,
         Noted;
    AllAreNoted([], k.uninspected);
    NothingStagedYet(k.staged, k.volume.open, k.recorded, k.volume.nodes, entries);
    ok, temps := true, [];
    while ok && |temps| < |entries|
      invariant k.Valid() && old(k.volume.nodes.Keys) <= k.volume.nodes.Keys
      invariant old(k.faults) <= k.faults <= old(k.faults) + 1 && old(k.uninspected) <= k.uninspected
      invariant ok ==> k.faults == old(k.faults)
      invariant k.calm && k.faults == old(k.faults) && Prepared(base, entries) && Collisionless(entries) ==> ok
      invariant |temps| <= |entries| && StagedOk(k.staged, k.volume.open, k.recorded, temps)
      invariant ok || k.uninspected == {} ==> Identified(temps)
      invariant ok || (k.calm && k.faults == old(k.faults)) ==> k.uninspected == old(k.uninspected)
      invariant FrontIdentified(temps) && Noted(temps, k.uninspected)
      invariant k.calm ==> old(k.calm) && Midway(base, k.volume, entries, temps, [], 0, q)
      invariant k.calm && ok ==> Written(k.volume.nodes, entries, temps) && Secured(k.stored, entries, temps)
      decreases |entries| - |temps|, ok
    {
      assert EntryUsable(known, entries[|temps|], q);
      if k.calm && Prepared(base, entries) && Collisionless(entries) {
        TemporaryIsFree(base, k.volume, entries, temps, q);
      }
      ok, temps := StageOutput(k, entries, temps, q, base);
    }
  }

  lemma NothingStagedYet(staged: set<Object>, open: set<Object>, recorded: map<Object, Inode>,
                         nodes: map<Object, Node>, entries: seq<OutputEntry>)
    ensures StagedOk(staged, open, recorded, []) && Identified([]) && Written(nodes, entries, [])
    ensures forall stored :: Secured(stored, entries, [])
  {
  }

  // --- Backing up -------------------------------------------------------------

  /** The originals to observe: every existing target, with its backup and its claim. */
  ghost function Originals(base: Volume, entries: seq<OutputEntry>): set<Original> {
    set i {:trigger entries[i]} | 0 <= i < |entries| && entries[i].hadExistingTarget && entries[i].target in base.links ::
      Original(base.links[entries[i].target], entries[i].target, entries[i].backup, entries[i].backupClaim)
  }

  lemma OriginalsAreInPlace(origin: Volume, base: Volume, entries: seq<OutputEntry>, q: Object)
    requires Prepared(base, entries) && WellNamed(entries, q) && NothingIn(base.links, q)
    requires forall o | o in base.nodes && base.nodes[o].File? :: o in origin.nodes
    ensures Observed(Originals(base, entries), origin, base.links)
  {
    forall w | w in Originals(base, entries) ensures w.file in origin.nodes && w.AtExactlyOne(base.links) {
      var i :| 0 <= i < |entries| && entries[i].hadExistingTarget && entries[i].target in base.links
               && w == Original(base.links[entries[i].target], entries[i].target, entries[i].backup, entries[i].backupClaim);
      assert EntryPrepared(base, entries[i]) && EntryNamed(entries[i], q);
    }
  }

  /** Once everything is staged, no two outputs have the same target. */
  lemma TargetsDiffer(links: Links, entries: seq<OutputEntry>, temps: seq<StagedFile>, q: Object, i: nat, j: nat)
    requires |temps| == |entries| && i < |entries| && j < |entries| && i != j
    requires Apart(entries, temps, [], q) && Placed(links, entries, temps, [], 0, 0, 0) && WellNamed(entries, q)
    ensures entries[i].target != entries[j].target
  {
    assert PairNamed(entries[i], entries[j]);
    assert Holds(links, entries[i].temporary, temps[i].descriptor);
    assert Holds(links, entries[j].temporary, temps[j].descriptor);
  }

  lemma OriginalsTravel(base: Volume, links: Links, entries: seq<OutputEntry>, temps: seq<StagedFile>, q: Object,
                        j: nat, o: Object)
    requires |temps| == |entries| && j < |entries| && entries[j].hadExistingTarget
    requires Apart(entries, temps, [], q) && Placed(links, entries, temps, [], 0, 0, 0)
    requires WellNamed(entries, q) && Prepared(base, entries)
    ensures TravelsWithin(Originals(base, entries), o, {entries[j].backup, entries[j].backupClaim, entries[j].target})
  {
    var e := entries[j];
    var places := {e.backup, e.backupClaim, e.target};
    assert EntryPrepared(base, e) && EntryNamed(e, q);
    forall w | w in Originals(base, entries) ensures places <= w.Places() || places !! w.Places() {
      var i :| 0 <= i < |entries| && entries[i].hadExistingTarget && entries[i].target in base.links
               && w == Original(base.links[entries[i].target], entries[i].target, entries[i].backup, entries[i].backupClaim);
      if i != j {
        TargetsDiffer(links, entries, temps, q, i, j);
        assert EntryPrepared(base, entries[i]) && EntryNamed(entries[i], q) && PairNamed(entries[i], e);
      }
    }
  }

  lemma WithoutBackups(entries: seq<OutputEntry>, temps: seq<StagedFile>, backs: seq<RetainedBackup>, q: Object,
                       links: Links)
    requires |temps| <= |entries| && IndicesOk(entries, backs)
    requires Apart(entries, temps, backs, q) && Placed(links, entries, temps, backs, 0, 0, |backs|)
    ensures Apart(entries, temps, [], q) && Placed(links, entries, temps, [], 0, 0, 0)
  {
  }

  lemma ObservedPushed(watched: set<Original>, entries: seq<OutputEntry>, backs: seq<RetainedBackup>, b: RetainedBackup)
    requires IndicesOk(entries, backs) && BackupsObserved(watched, entries, backs) && b.index < |entries|
    requires var e := entries[b.index]; TravelsWithin(watched, b.descriptor, {e.backup, e.backupClaim, e.target})
    ensures IndicesOk(entries, backs + [b]) && BackupsObserved(watched, entries, backs + [b])
  {
    var all := backs + [b];
    assert forall i | 0 <= i < |backs| :: all[i] == backs[i] && Entry(entries, all, i) == Entry(entries, backs, i);
    assert Entry(entries, all, |backs|) == entries[b.index];
  }

  lemma SameRecords(recorded: map<Object, Inode>)
    ensures RecordsKept(recorded, recorded)
  {
  }

  lemma BackupsStay(open: set<Object>, recorded: map<Object, Inode>, entries: seq<OutputEntry>,
                    backs: seq<RetainedBackup>, moreOpen: set<Object>, moreRecorded: map<Object, Inode>)
    requires BackupsOk(open, recorded, entries, backs) && open <= moreOpen
    requires RecordsKept(recorded, moreRecorded)
    ensures BackupsOk(moreOpen, moreRecorded, entries, backs)
  {
  }

  lemma BackupsPushed(open: set<Object>, recorded: map<Object, Inode>, entries: seq<OutputEntry>,
                      backs: seq<RetainedBackup>, b: RetainedBackup)
    requires BackupsOk(open, recorded, entries, backs)
    requires b.index < |entries| && Retained(open, recorded, b.descriptor, b.identity)
    ensures BackupsOk(open, recorded, entries, backs + [b])
  {
  }

  /** Every backup is a regular file that was opened at its output's target. */
  ghost predicate BackupsMet(met: set<(Slot, Object)>, entries: seq<OutputEntry>, backs: seq<RetainedBackup>)
    requires IndicesOk(entries, backs)
  {
    forall i {:trigger backs[i]} | 0 <= i < |backs| :: (Entry(entries, backs, i).target, backs[i].descriptor) in met
  }

  lemma BackupsMetGrow(met: set<(Slot, Object)>, more: set<(Slot, Object)>, entries: seq<OutputEntry>,
                       backs: seq<RetainedBackup>)
    requires IndicesOk(entries, backs) && BackupsMet(met, entries, backs) && met <= more
    ensures BackupsMet(more, entries, backs)
    ensures forall b: RetainedBackup | b.index < |entries| && (entries[b.index].target, b.descriptor) in more ::
              IndicesOk(entries, backs + [b]) && BackupsMet(more, entries, backs + [b])
  {
    forall b: RetainedBackup | b.index < |entries| && (entries[b.index].target, b.descriptor) in more
      ensures IndicesOk(entries, backs + [b]) && BackupsMet(more, entries, backs + [b])
    {
      var all := backs + [b];
      forall i {:trigger all[i]} | 0 <= i < |all| ensures (Entry(entries, all, i).target, all[i].descriptor) in more {
        if i < |backs| {
          assert all[i] == backs[i] && Entry(entries, all, i) == Entry(entries, backs, i);
        }
      }
    }
  }

  /** The original can be moved: it is there, and its backup name is free. */
  ghost predicate CanBackUp(v: Volume, e: OutputEntry) {
    && e.target in v.links && v.links[e.target] in v.nodes && v.nodes[v.links[e.target]].File?
    && e.backup !in v.links
  }

  /** At most one backup more, that of the output at `index`. */
  ghost predicate OneMore(backs: seq<RetainedBackup>, all: seq<RetainedBackup>, index: nat, moved: bool) {
    if |all| == |backs| then all == backs && !moved
    else |all| == |backs| + 1 && all[..|backs|] == backs && all[|backs|].index == index
  }

  lemma NoneMore(backs: seq<RetainedBackup>, index: nat)
    ensures OneMore(backs, backs, index, false)
  {
  }

  lemma OneMoreCounts(entries: seq<OutputEntry>, backs: seq<RetainedBackup>, all: seq<RetainedBackup>, index: nat,
                      moved: bool)
    requires index < |entries| && OneMore(backs, all, index, moved) && BackedBefore(backs, index)
    ensures BackedBefore(all, index + 1)
    ensures moved && AllBackedUp(entries, backs, index) ==> AllBackedUp(entries, all, index + 1)
  {
    forall i {:trigger all[i]} | 0 <= i < |all| ensures all[i].index < index + 1 {
      if i < |backs| {
        assert all[i] == backs[i];
      }
    }
    if moved && AllBackedUp(entries, backs, index) {
      forall j {:trigger entries[j]} | 0 <= j < index + 1 && entries[j].hadExistingTarget ensures HasBackup(all, j) {
        if j == index {
          assert all[|backs|].index == j;
        } else {
          var i :| 0 <= i < |backs| && backs[i].index == j;
          assert all[i] == backs[i];
        }
      }
    }
  }

  /** What every step of the backup phase relies on, without interference. */
  ghost predicate BackingUp(base: Volume, v: Volume, watched: set<Original>, entries: seq<OutputEntry>,
                            temps: seq<StagedFile>, backs: seq<RetainedBackup>, q: Object)
    requires |temps| == |entries| && IndicesOk(entries, backs)
  {
    && Midway(base, v, entries, temps, backs, 0, q)
    && base.Valid() && Prepared(base, entries) && WellNamed(entries, q)
    && watched == Originals(base, entries) && BackupsObserved(watched, entries, backs)
  }

  /** The original about to move is watched, and only between places of its own. */
  lemma BackupMayMove(base: Volume, v: Volume, watched: set<Original>, entries: seq<OutputEntry>,
                      temps: seq<StagedFile>, backs: seq<RetainedBackup>, q: Object, index: nat, d: Object)
    requires |temps| == |entries| && IndicesOk(entries, backs) && index < |entries| && entries[index].hadExistingTarget
    requires BackingUp(base, v, watched, entries, temps, backs, q) && Holds(v.links, entries[index].target, d)
    ensures var e := entries[index];
            && TravelsWithin(watched, d, {e.backup, e.backupClaim, e.target})
            && AllKeptByMove(watched, v.links, e.target, e.backup)
  {
    hide Undone, Differing, AgreeOutside, WithoutTargets, TravelsWithin, AllKeptByMove, Originals, Prepared, WellNamed;
    var e := entries[index];
    WithoutBackups(entries, temps, backs, q, v.links);
    OriginalsTravel(base, v.links, entries, temps, q, index, d);
    JourneyIsKept(watched, v.links, e.target, e.backup, d, {e.backup, e.backupClaim, e.target});
  }

  lemma BackedUp(base: Volume, v: Volume, w: Volume, watched: set<Original>, entries: seq<OutputEntry>,
                 temps: seq<StagedFile>, backs: seq<RetainedBackup>, q: Object, b: RetainedBackup)
    requires |temps| == |entries| && IndicesOk(entries, backs) && b.index < |entries|
    requires BackingUp(base, v, watched, entries, temps, backs, q)
    requires var e := entries[b.index];
             && e.hadExistingTarget && Holds(v.links, e.target, b.descriptor) && e.backup !in v.links
             && w.links == Moved(v.links, e.target, e.backup)
             && TravelsWithin(watched, b.descriptor, {e.backup, e.backupClaim, e.target})
    requires b.descriptor in v.nodes && v.nodes[b.descriptor].File?
    requires w.nodes == v.nodes && InodesKept(v, w)
    ensures IndicesOk(entries, backs + [b]) && BackingUp(base, w, watched, entries, temps, backs + [b], q)
  {
    hide Midway, Prepared, WellNamed, Originals, BackupsObserved, TravelsWithin;
    BackupStep(base, v, w, entries, temps, backs, q, b);
    ObservedPushed(watched, entries, backs, b);
  }

  /** Opening a file does not disturb the state of the publication. */
  lemma DescriptorsDoNotMatter(base: Volume, v: Volume, w: Volume, watched: set<Original>, entries: seq<OutputEntry>,
                               temps: seq<StagedFile>, backs: seq<RetainedBackup>, q: Object)
    requires |temps| == |entries| && IndicesOk(entries, backs)
    requires BackingUp(base, v, watched, entries, temps, backs, q) && w == v.(open := w.open)
    ensures BackingUp(base, w, watched, entries, temps, backs, q)
  {
    hide Undone, Differing, AgreeOutside, WithoutTargets, Originals, Prepared, WellNamed, Apart, Placed;
  }

  /**
   Moves one existing target to its backup.  The descriptor that authenticated it is
   kept, so its inode number cannot be recycled for a file that takes its place.
  */
  method BackUpOutput(k: Kernel, entries: seq<OutputEntry>, ghost temps: seq<StagedFile>, backs: seq<RetainedBackup>,
                      q: Object, index: nat, ghost base: Volume)
    returns (ok: bool, all: seq<RetainedBackup>)
    requires k.Valid() && |temps| == |entries| && index < |entries| && entries[index].hadExistingTarget
    requires IndicesOk(entries, backs) && BackupsOk(k.volume.open, k.recorded, entries, backs)
    requires entries[index].backup.directory in k.volume.nodes
    requires k.calm ==> BackingUp(base, k.volume, k.watched, entries, temps, backs, q)
    requires BackupsMet(k.met, entries, backs)
    modifies k`volume, k`calm, k`touched, k`faults, k`recorded, k`met
    ensures k.Valid() && old(k.volume.nodes.Keys) <= k.volume.nodes.Keys && old(k.volume.open) <= k.volume.open
    ensures old(k.faults) <= k.faults <= old(k.faults) + 1 && (ok ==> k.faults == old(k.faults))
    ensures k.calm && k.faults == old(k.faults) && CanBackUp(old(k.volume), entries[index]) ==> ok
    ensures OneMore(backs, all, index, ok)
    ensures old(k.met) <= k.met && IndicesOk(entries, all) && BackupsMet(k.met, entries, all)
    ensures RecordsKept(old(k.recorded), k.recorded)
    ensures IndicesOk(entries, all) && BackupsOk(k.volume.open, k.recorded, entries, all)
    ensures k.calm ==> old(k.calm) && k.volume.nodes == old(k.volume.nodes)
    ensures k.calm ==> BackingUp(base, k.volume, k.watched, entries, temps, all, q)
  {
    hide Kernel.Valid, BackingUp, BackupsOk, BackupsMet, OneMore, RecordsKept;
    ok, all := false, backs;
    NoneMore(backs, index);
    var e := entries[index];
    VolumeIsValid(k);
    var original := k.OpenRegular(e.target);
    BackupsMetGrow(old(k.met), k.met, entries, backs);
    SameRecords(k.recorded);
    BackupsStay(old(k.volume.open), k.recorded, entries, backs, k.volume.open, k.recorded);
    if k.calm {
      DescriptorsDoNotMatter(base, old(k.volume), k.volume, k.watched, entries, temps, backs, q);
    }
    if original.None? {
      return;
    }
    ok, all := RecordAndMove(k, entries, temps, backs, q, index, original.value, base);
  }

  /** Notes the identity of an opened original, and moves it. */
  method RecordAndMove(k: Kernel, entries: seq<OutputEntry>, ghost temps: seq<StagedFile>, backs: seq<RetainedBackup>,
                       q: Object, index: nat, d: Object, ghost base: Volume)
    returns (ok: bool, all: seq<RetainedBackup>)
    requires k.Valid() && |temps| == |entries| && index < |entries| && entries[index].hadExistingTarget
    requires IndicesOk(entries, backs) && BackupsOk(k.volume.open, k.recorded, entries, backs)
    requires entries[index].backup.directory in k.volume.nodes
    requires k.calm ==> BackingUp(base, k.volume, k.watched, entries, temps, backs, q)
    requires d in k.volume.open && d in k.volume.nodes && k.volume.nodes[d].File?
    requires k.calm ==> Holds(k.volume.links, entries[index].target, d)
    requires BackupsMet(k.met, entries, backs) && (entries[index].target, d) in k.met
    modifies k`volume, k`calm, k`touched, k`faults, k`recorded
    ensures k.Valid() && old(k.volume.nodes.Keys) <= k.volume.nodes.Keys && old(k.volume.open) == k.volume.open
    ensures old(k.faults) <= k.faults <= old(k.faults) + 1 && (ok ==> k.faults == old(k.faults))
    ensures k.calm && k.faults == old(k.faults) && entries[index].backup !in old(k.volume.links) ==> ok
    ensures OneMore(backs, all, index, ok)
    ensures IndicesOk(entries, all) && BackupsMet(k.met, entries, all)
    ensures BackupsOk(k.volume.open, k.recorded, entries, all) && RecordsKept(old(k.recorded), k.recorded)
    ensures k.calm ==> old(k.calm) && k.volume.nodes == old(k.volume.nodes)
    ensures k.calm ==> BackingUp(base, k.volume, k.watched, entries, temps, all, q)
  {
    hide Kernel.Valid, BackingUp, BackupsOk, BackupsMet, OneMore;
    VolumeIsValid(k);
    var identity := k.volume.inode[d];
    k.Record(d);
    BackupsStay(k.volume.open, old(k.recorded), entries, backs, k.volume.open, k.recorded);
    ok, all := MoveToBackup(k, entries, temps, backs, q, RetainedBackup(index, identity, d), base);
  }

  method MoveToBackup(k: Kernel, entries: seq<OutputEntry>, ghost temps: seq<StagedFile>, backs: seq<RetainedBackup>,
                      q: Object, b: RetainedBackup, ghost base: Volume)
    returns (ok: bool, all: seq<RetainedBackup>)
    requires k.Valid() && |temps| == |entries| && b.index < |entries| && entries[b.index].hadExistingTarget
    requires IndicesOk(entries, backs) && BackupsOk(k.volume.open, k.recorded, entries, backs)
    requires Retained(k.volume.open, k.recorded, b.descriptor, b.identity)
    requires entries[b.index].backup.directory in k.volume.nodes
    requires k.calm ==> BackingUp(base, k.volume, k.watched, entries, temps, backs, q)
    requires k.calm ==> Holds(k.volume.links, entries[b.index].target, b.descriptor)
                        && b.descriptor in k.volume.nodes && k.volume.nodes[b.descriptor].File?
    requires BackupsMet(k.met, entries, backs) && (entries[b.index].target, b.descriptor) in k.met
    modifies k`volume, k`calm, k`touched, k`faults
    ensures k.Valid() && old(k.volume.nodes.Keys) <= k.volume.nodes.Keys && old(k.volume.open) == k.volume.open
    ensures old(k.faults) <= k.faults <= old(k.faults) + 1 && (ok ==> k.faults == old(k.faults))
    ensures k.calm && k.faults == old(k.faults) && entries[b.index].backup !in old(k.volume.links) ==> ok
    ensures OneMore(backs, all, b.index, ok)
    ensures IndicesOk(entries, all) && BackupsMet(k.met, entries, all)
    ensures BackupsOk(k.volume.open, k.recorded, entries, all)
    ensures k.calm ==> old(k.calm) && k.volume.nodes == old(k.volume.nodes)
    ensures k.calm ==> BackingUp(base, k.volume, k.watched, entries, temps, all, q)
  {
    hide Kernel.Valid, BackingUp, BackupsOk, BackupsMet, AllKeptByMove, TravelsWithin, Retained;
    ok, all := false, backs;
    VolumeIsValid(k);
    BackupsMetGrow(k.met, k.met, entries, backs);
    var e := entries[b.index];
    if k.calm {
      BackupMayMove(base, k.volume, k.watched, entries, temps, backs, q, b.index, b.descriptor);
    }
    var moving := k.Rename(e.target, e.backup);
    if moving != Done {
      return;
    }
    all := backs + [b];
    BackupsPushed(k.volume.open, k.recorded, entries, backs, b);
    if k.calm {
      BackedUp(base, old(k.volume), k.volume, k.watched, entries, temps, backs, q, b);
    }
    if k.calm {
      SameIdentity(k, b);
    }
    var actual := k.Identify(e.backup);
    ok := actual == Some(b.identity);
  }

  lemma SameIdentity(k: Kernel, b: RetainedBackup)
    requires k.Valid() && Retained(k.volume.open, k.recorded, b.descriptor, b.identity)
    ensures b.descriptor in k.volume.inode && k.volume.inode[b.descriptor] == b.identity
  {
  }

  method BackUpAll(k: Kernel, entries: seq<OutputEntry>, ghost temps: seq<StagedFile>, q: Object, ghost base: Volume,
                   ghost known: set<Object>)
    returns (ok: bool, backs: seq<RetainedBackup>)
    requires k.Valid() && known <= k.volume.nodes.Keys && EntriesUsable(known, k.shield, entries, q)
    requires |temps| == |entries|
    requires k.calm ==> BackingUp(base, k.volume, k.watched, entries, temps, [], q)
    modifies k`volume, k`calm, k`touched, k`faults, k`recorded, k`met
    ensures k.Valid() && old(k.volume.nodes.Keys) <= k.volume.nodes.Keys && old(k.volume.open) <= k.volume.open
    ensures old(k.faults) <= k.faults <= old(k.faults) + 1
    ensures ok ==> k.faults == old(k.faults) && AllBackedUp(entries, backs, |entries|)
    ensures k.calm && k.faults == old(k.faults) && Collisionless(entries) ==> ok
    ensures IndicesOk(entries, backs) && BackupsMet(k.met, entries, backs)
    ensures RecordsKept(old(k.recorded), k.recorded)
    ensures IndicesOk(entries, backs) && BackupsOk(k.volume.open, k.recorded, entries, backs)
    ensures k.calm ==> old(k.calm) && k.volume.nodes == old(k.volume.nodes)
    ensures k.calm ==> BackingUp(base, k.volume, k.watched, entries, temps, backs, q)
  {
    hide Kernel.Valid, BackingUp, BackupsOk, BackupsMet, Collisionless, CanBackUp, OneMore, BackedBefore, AllBackedUp;
    ok, backs := true, [];
    NothingBackedUp(k.met, entries);
    assert BackupsOk(k.volume.open, k.recorded, entries, backs) by {
      NoBackups(k.volume.open, k.recorded, entries);
    }
    var index := 0;
    while ok && index < |entries|
      invariant index <= |entries|
      invariant k.Valid() && old(k.volume.nodes.Keys) <= k.volume.nodes.Keys && old(k.volume.open) <= k.volume.open
      invariant old(k.faults) <= k.faults <= old(k.faults) + 1 && (ok ==> k.faults == old(k.faults))
      invariant BackedBefore(backs, index) && (ok ==> AllBackedUp(entries, backs, index))
      invariant k.calm && k.faults == old(k.faults) && Collisionless(entries) ==> ok
      invariant IndicesOk(entries, backs) && BackupsMet(k.met, entries, backs)
      invariant RecordsKept(old(k.recorded), k.recorded)
      invariant IndicesOk(entries, backs) && BackupsOk(k.volume.open, k.recorded, entries, backs)
      invariant k.calm ==> old(k.calm) && k.volume.nodes == old(k.volume.nodes)
      invariant k.calm ==> BackingUp(base, k.volume, k.watched, entries, temps, backs, q)
      decreases |entries| - index
    {
      assert EntryUsable(known, entries[index], q);
      ghost var before := backs;
      if entries[index].hadExistingTarget {
        if k.calm && Collisionless(entries) {
          NextCanBeBackedUp(base, k.volume, k.watched, entries, temps, backs, q, index);
        }
        ok, backs := BackUpOutput(k, entries, temps, backs, q, index, base);
        OneMoreCounts(entries, before, backs, index, ok);
      } else {
        NothingToBackUp(entries, backs, index);
      }
      index := index + 1;
    }
  }

  lemma NothingBackedUp(met: set<(Slot, Object)>, entries: seq<OutputEntry>)
    ensures BackedBefore([], 0) && AllBackedUp(entries, [], 0) && BackupsMet(met, entries, [])
  {
  }

  lemma NothingToBackUp(entries: seq<OutputEntry>, backs: seq<RetainedBackup>, index: nat)
    requires index < |entries| && !entries[index].hadExistingTarget && BackedBefore(backs, index)
    ensures BackedBefore(backs, index + 1)
    ensures AllBackedUp(entries, backs, index) ==> AllBackedUp(entries, backs, index + 1)
  {
  }

  lemma NextCanBeBackedUp(base: Volume, v: Volume, watched: set<Original>, entries: seq<OutputEntry>,
                          temps: seq<StagedFile>, backs: seq<RetainedBackup>, q: Object, index: nat)
    requires |temps| == |entries| && IndicesOk(entries, backs) && index < |entries| && entries[index].hadExistingTarget
    requires BackingUp(base, v, watched, entries, temps, backs, q) && Collisionless(entries) && BackedBefore(backs, index)
    ensures CanBackUp(v, entries[index])
  {
    hide Midway, Prepared, WellNamed, Collisionless, BackedBefore;
    BackupIsPossible(base, v, entries, temps, backs, q, index);
  }

  lemma NoBackups(open: set<Object>, recorded: map<Object, Inode>, entries: seq<OutputEntry>)
    ensures BackupsOk(open, recorded, entries, [])
  {
  }

  // --- Publishing -------------------------------------------------------------

  /** What every step of the publishing phase relies on, without interference. */
  ghost predicate Publishing(base: Volume, v: Volume, entries: seq<OutputEntry>, temps: seq<StagedFile>,
                             backs: seq<RetainedBackup>, published: nat, q: Object)
    requires |temps| == |entries| && published <= |entries| && IndicesOk(entries, backs)
  {
    Midway(base, v, entries, temps, backs, published, q) && Prepared(base, entries) && WellNamed(entries, q)
  }

  lemma NextIsStaged(base: Volume, v: Volume, entries: seq<OutputEntry>, temps: seq<StagedFile>,
                     backs: seq<RetainedBackup>, p: nat, q: Object)
    requires |temps| == |entries| && p < |entries| && IndicesOk(entries, backs)
    requires Publishing(base, v, entries, temps, backs, p, q)
    ensures Holds(v.links, entries[p].temporary, temps[p].descriptor)
  {
    assert Holds(v.links, entries[p].temporary, temps[p].descriptor);
  }

  lemma NextTargetIsFree(base: Volume, v: Volume, entries: seq<OutputEntry>, temps: seq<StagedFile>,
                         backs: seq<RetainedBackup>, p: nat, q: Object)
    requires |temps| == |entries| && p < |entries| && IndicesOk(entries, backs)
    requires Publishing(base, v, entries, temps, backs, p, q)
    requires Collisionless(entries) && AllBackedUp(entries, backs, |entries|)
    ensures entries[p].target !in v.links
  {
    hide Midway, Prepared, WellNamed, Collisionless, AllBackedUp;
    TargetIsFree(base, v, entries, temps, backs, p, q);
  }

  lemma Advance(base: Volume, v: Volume, w: Volume, entries: seq<OutputEntry>, temps: seq<StagedFile>,
                backs: seq<RetainedBackup>, p: nat, q: Object)
    requires |temps| == |entries| && p < |entries| && IndicesOk(entries, backs)
    requires Publishing(base, v, entries, temps, backs, p, q)
    requires var e := entries[p];
             e.temporary in v.links && e.target !in v.links && w.links == Moved(v.links, e.temporary, e.target)
    requires w.nodes == v.nodes && InodesKept(v, w)
    ensures Publishing(base, w, entries, temps, backs, p + 1, q)
  {
    hide Midway, Prepared, WellNamed;
    PublishStep(base, v, w, entries, temps, backs, p, q);
  }

  /** Renames one staged file to its target, without replacing anything. */
  method PublishOutput(k: Kernel, entries: seq<OutputEntry>, temps: seq<StagedFile>, ghost backs: seq<RetainedBackup>,
                       p: nat, q: Object, ghost base: Volume) returns (ok: bool)
    requires k.Valid() && |temps| == |entries| && p < |entries| && IndicesOk(entries, backs)
    requires temps[p].descriptor in k.staged && entries[p].target.directory in k.volume.nodes
    requires k.calm ==> Publishing(base, k.volume, entries, temps, backs, p, q)
    modifies k`volume, k`calm, k`touched, k`faults
    ensures k.Valid() && old(k.volume.nodes.Keys) <= k.volume.nodes.Keys && old(k.volume.open) == k.volume.open
    ensures old(k.faults) <= k.faults <= old(k.faults) + 1 && (ok ==> k.faults == old(k.faults))
    ensures k.calm && k.faults == old(k.faults) && entries[p].target !in old(k.volume.links) ==> ok
    ensures k.calm ==> old(k.calm) && k.volume.nodes == old(k.volume.nodes)
    ensures k.calm ==> Publishing(base, k.volume, entries, temps, backs, if ok then p + 1 else p, q)
  {
    hide Kernel.Valid, Publishing, AllKeptByMove;
    ok := k.Attempt();
    if !ok {
      return;
    }
    ghost var before := k.volume;
    if k.calm {
      NextIsStaged(base, k.volume, entries, temps, backs, p, q);
      StagedMayMove(k, entries[p].temporary, entries[p].target);
    }
    var moving := k.Rename(entries[p].temporary, entries[p].target);
    ok := moving == Done;
    if ok && k.calm {
      Advance(base, before, k.volume, entries, temps, backs, p, q);
    }
  }

  method PublishAll(k: Kernel, entries: seq<OutputEntry>, temps: seq<StagedFile>, ghost backs: seq<RetainedBackup>,
                    q: Object, ghost base: Volume, ghost known: set<Object>)
    returns (ok: bool, published: seq<PublishedOutput>)
    requires k.Valid() && known <= k.volume.nodes.Keys && EntriesUsable(known, k.shield, entries, q)
    requires |temps| == |entries| && IndicesOk(entries, backs) && Identified(temps)
    requires StagedOk(k.staged, k.volume.open, k.recorded, temps)
    requires k.calm ==> Publishing(base, k.volume, entries, temps, backs, 0, q)
    modifies k`volume, k`calm, k`touched, k`faults
    ensures k.Valid() && old(k.volume.nodes.Keys) <= k.volume.nodes.Keys && old(k.volume.open) == k.volume.open
    ensures old(k.faults) <= k.faults <= old(k.faults) + 1 && (ok ==> k.faults == old(k.faults))
    ensures k.calm && k.faults == old(k.faults) && Collisionless(entries) && AllBackedUp(entries, backs, |entries|) ==>
              ok
    ensures PublishedOk(temps, published) && (ok ==> |published| == |entries|)
    ensures k.calm ==> old(k.calm) && k.volume.nodes == old(k.volume.nodes)
    ensures k.calm ==> Publishing(base, k.volume, entries, temps, backs, |published|, q)
  {
    hide Kernel.Valid, Publishing, Collisionless, AllBackedUp;
    ok, published := true, [];
    while ok && |published| < |entries|
      invariant k.Valid() && old(k.volume.nodes.Keys) <= k.volume.nodes.Keys && old(k.volume.open) == k.volume.open
      invariant old(k.faults) <= k.faults <= old(k.faults) + 1 && (ok ==> k.faults == old(k.faults))
      invariant k.calm && k.faults == old(k.faults) ==>
                  Collisionless(entries) && AllBackedUp(entries, backs, |entries|) ==> ok
      invariant PublishedOk(temps, published)
      invariant k.calm ==> old(k.calm) && k.volume.nodes == old(k.volume.nodes)
      invariant k.calm ==> Publishing(base, k.volume, entries, temps, backs, |published|, q)
      decreases |entries| - |published|, ok
    {
      var p := |published|;
      assert EntryUsable(known, entries[p], q);
      if k.calm && Collisionless(entries) && AllBackedUp(entries, backs, |entries|) {
        NextTargetIsFree(base, k.volume, entries, temps, backs, p, q);
      }
      ok := PublishOutput(k, entries, temps, backs, p, q, base);
      if ok {
        published := published + [PublishedOutput(p, temps[p].identity.value)];
      }
    }
  }

  // --- Preflight and the rename probe -----------------------------------------

  /** The target is absent or a regular file, and all other names of the output are free. */
  ghost predicate Preparable(v: Volume, e: OutputEntry) {
    && IsRegularOrAbsent(v, e.target)
    && e.temporary !in v.links && e.backup !in v.links && e.renameProbe !in v.links && Claims(e) !! v.links.Keys
  }

  ghost predicate AllPreparable(v: Volume, entries: seq<OutputEntry>) {
    forall i {:trigger entries[i]} | 0 <= i < |entries| :: Preparable(v, entries[i])
  }

  /** Decides whether one output's target exists, and that all its other names are free. */
  method PreflightOutput(k: Kernel, e: OutputEntry) returns (r: Option<OutputEntry>)
    requires k.Valid()
    modifies k`volume, k`calm, k`touched, k`faults
    ensures k.Valid() && old(k.volume.nodes.Keys) <= k.volume.nodes.Keys && old(k.volume.open) == k.volume.open
    ensures old(k.faults) <= k.faults <= old(k.faults) + 1 && (r.Some? ==> k.faults == old(k.faults))
    ensures k.calm && k.faults == old(k.faults) && Preparable(k.volume, e) ==> r.Some?
    ensures r.Some? ==> r.value == e.(hadExistingTarget := r.value.hadExistingTarget)
    ensures k.calm ==> old(k.calm) && k.volume == old(k.volume) && (r.Some? ==> EntryPrepared(k.volume, r.value))
  {
    hide Kernel.Valid;
    r := None;
    VolumeIsValid(k);
    var sameDevice := k.Attempt();
    if !sameDevice {
      return;
    }
    var target := k.InspectTarget(e.target);
    if target == Irregular {
      return;
    }
    var free := AllAbsent(k, OwnNames(e));
    if free {
      r := Some(e.(hadExistingTarget := target == Regular));
    }
    OwnNamesAre(e);
  }

  /** The names that an output uses on the way, in the order in which they are inspected. */
  function OwnNames(e: OutputEntry): seq<Slot> {
    [e.temporary, e.backup, e.renameProbe, e.publishedClaim, e.temporaryClaim, e.backupClaim, e.renameProbeClaim]
  }

  lemma OwnNamesAre(e: OutputEntry)
    ensures forall s :: s in OwnNames(e) <==> s in Claims(e) + {e.temporary, e.backup, e.renameProbe}
  {
  }

  /** Looks at names until one is taken. */
  method AllAbsent(k: Kernel, names: seq<Slot>) returns (ok: bool)
    requires k.Valid()
    modifies k`volume, k`calm, k`touched, k`faults
    ensures k.Valid() && old(k.volume.nodes.Keys) <= k.volume.nodes.Keys && old(k.volume.open) == k.volume.open
    ensures old(k.faults) <= k.faults <= old(k.faults) + 1 && (ok ==> k.faults == old(k.faults))
    ensures k.calm ==> old(k.calm) && k.volume == old(k.volume)
    ensures k.calm && k.faults == old(k.faults) ==> (ok <==> forall s | s in names :: s !in k.volume.links)
  {
    hide Kernel.Valid;
    for index := 0 to |names|
      invariant k.Valid() && old(k.volume.nodes.Keys) <= k.volume.nodes.Keys && old(k.volume.open) == k.volume.open
      invariant k.faults == old(k.faults)
      invariant k.calm ==> old(k.calm) && k.volume == old(k.volume)
      invariant k.calm ==> forall i {:trigger names[i]} | 0 <= i < index :: names[i] !in k.volume.links
    {
      assert names[index] in names;
      var free := k.EnsureAbsent(names[index]);
      if !free {
        return false;
      }
    }
    ok := true;
  }

  /** The same outputs, apart from what is known about their targets. */
  ghost predicate SameNames(a: seq<OutputEntry>, b: seq<OutputEntry>) {
    && |a| <= |b|
    && forall i {:trigger a[i]} | 0 <= i < |a| :: a[i] == b[i].(hadExistingTarget := a[i].hadExistingTarget)
  }

  lemma SameNamesAreWell(a: seq<OutputEntry>, b: seq<OutputEntry>, q: Object, nodes: set<Object>, shield: set<Object>)
    requires SameNames(a, b) && |a| == |b|
    ensures WellNamed(b, q) ==> WellNamed(a, q)
    ensures EntriesUsable(nodes, shield, b, q) ==> EntriesUsable(nodes, shield, a, q)
  {
    if WellNamed(b, q) {
      forall i {:trigger a[i]} | 0 <= i < |a| ensures EntryNamed(a[i], q) {
        assert EntryNamed(b[i], q);
      }
      forall i, j {:trigger a[i], a[j]} | 0 <= i < |a| && 0 <= j < |a| && i != j ensures PairNamed(a[i], a[j]) {
        assert PairNamed(b[i], b[j]);
      }
    }
    if EntriesUsable(nodes, shield, b, q) {
      forall i | 0 <= i < |a| ensures EntryUsable(nodes, a[i], q) {
        assert EntryUsable(nodes, b[i], q);
      }
    }
  }

  lemma PreparedPushed(v: Volume, entries: seq<OutputEntry>, e: OutputEntry)
    requires Prepared(v, entries) && EntryPrepared(v, e)
    ensures Prepared(v, entries + [e])
  {
  }

  method PreflightAll(k: Kernel, entries: seq<OutputEntry>) returns (ok: bool, all: seq<OutputEntry>)
    requires k.Valid()
    modifies k`volume, k`calm, k`touched, k`faults
    ensures k.Valid() && old(k.volume.nodes.Keys) <= k.volume.nodes.Keys && old(k.volume.open) == k.volume.open
    ensures old(k.faults) <= k.faults <= old(k.faults) + 1 && (ok ==> k.faults == old(k.faults))
    ensures k.calm && k.faults == old(k.faults) && AllPreparable(k.volume, entries) ==> ok
    ensures SameNames(all, entries) && (ok ==> |all| == |entries|)
    ensures k.calm ==> old(k.calm) && k.volume == old(k.volume) && Prepared(k.volume, all)
  {
    hide Kernel.Valid, EntryPrepared, Preparable;
    ok, all := true, [];
    while ok && |all| < |entries|
      invariant k.Valid() && old(k.volume.nodes.Keys) <= k.volume.nodes.Keys && old(k.volume.open) == k.volume.open
      invariant old(k.faults) <= k.faults <= old(k.faults) + 1 && (ok ==> k.faults == old(k.faults))
      invariant k.calm && k.faults == old(k.faults) && AllPreparable(k.volume, entries) ==> ok
      invariant SameNames(all, entries)
      invariant k.calm ==> old(k.calm) && k.volume == old(k.volume) && Prepared(k.volume, all)
      decreases |entries| - |all|, ok
    {
      var checked := PreflightOutput(k, entries[|all|]);
      match checked {
        case None => ok := false;
        case Some(e) =>
          if k.calm {
            PreparedPushed(k.volume, all, e);
          }
          all := all + [e];
      }
    }
  }

  /** Removes the probe if it is still the probe. */
  method RemoveVerifiedProbe(k: Kernel, s: Slot, expected: Inode) returns (ok: bool)
    requires k.Valid() && s in k.volume.links && k.volume.links[s] in k.staged
    requires k.volume.nodes[k.volume.links[s]].File?
    requires expected == k.volume.inode[k.volume.links[s]]
    modifies k`volume, k`faults, k`unlinked, k`stranded
    ensures k.Valid() && k.faults == if ok then old(k.faults) else old(k.faults) + 1
    ensures k.stranded == if ok then old(k.stranded) else old(k.stranded) + {old(k.volume.links)[s]}
    ensures k.volume == if ok then old(k.volume).(links := old(k.volume.links) - {s}) else old(k.volume)
    ensures k.unlinked == if ok then old(k.unlinked) + {old(k.volume.links)[s]} else old(k.unlinked)
  {
    hide Kernel.Valid;
    VolumeIsValid(k);
    var actual := k.IdentifyProbeNow(s);
    if actual != Some(expected) {
      return false;
    }
    ok := k.UnlinkProbeNow(s);
  }

  /** The two names of the probe are free, and differ. */
  ghost predicate ProbeFree(links: Links, e: OutputEntry) {
    e.renameProbe !in links && e.renameProbeClaim !in links && e.renameProbe != e.renameProbeClaim
  }

  /** The probe `f`, which is new, stands at `s`, and every other name is as before. */
  ghost predicate StrandedAt(v: Volume, w: Volume, s: Slot, f: Object) {
    && s !in v.links && f !in v.nodes && w.links == v.links[s := f]
    && (forall o | o in v.nodes :: o in w.nodes && w.nodes[o] == v.nodes[o]) && InodesKept(v, w)
  }

  /**
   Checks that a file can travel between the quarantine and an output's directory and
   back.  Nobody else can touch the probe: its directories admit no other user.  A
   probe that cannot be removed is left at one of the two names; if its removal was
   the only call that failed, it is left in the quarantine.
  */
  method Probe(k: Kernel, e: OutputEntry) returns (ok: bool, clean: bool)
    requires k.Valid() && e.renameProbe.directory in k.volume.nodes && e.renameProbeClaim.directory in k.volume.nodes
    requires k.stranded <= k.staged - k.unlinked
    modifies k`volume, k`faults, k`staged, k`unlinked, k`stranded
    ensures k.Valid() && old(k.volume.nodes.Keys) <= k.volume.nodes.Keys && k.volume.open <= old(k.volume.open)
    ensures old(k.staged) <= k.staged && k.stranded <= k.staged - k.unlinked
    ensures ok ==> clean && k.faults == old(k.faults)
    ensures k.faults == old(k.faults) && ProbeFree(old(k.volume.links), e) ==> ok
    ensures clean <==> k.stranded == old(k.stranded)
    ensures clean <==> Discarded(old(k.volume), k.volume)
    ensures if clean then old(k.faults) <= k.faults else old(k.faults) < k.faults
    ensures !clean ==>
              exists s, f | s in {e.renameProbe, e.renameProbeClaim} && f in k.stranded ::
                StrandedAt(old(k.volume), k.volume, s, f) && (k.faults == old(k.faults) + 1 ==> s == e.renameProbeClaim)
  {
    hide Kernel.Valid, Discarded, StrandedAt, InodesKept;
    ok, clean := false, true;
    VolumeIsValid(k);
    StagedExist(k);
    NothingDiscarded(k.volume);
    var creating := k.CreateFileNow(e.renameProbeClaim);
    if !creating.Created? {
      return;
    }
    ghost var f, made, last := creating.made, k.volume, e.renameProbeClaim;
    VolumeIsValid(k);
    ok, clean, last := TryProbe(k, e, creating.made);
    ProbeSettled(old(k.volume), made, k.volume, e.renameProbeClaim, last, f, clean);
  }

  lemma ProbeSettled(v: Volume, made: Volume, w: Volume, claim: Slot, last: Slot, f: Object, clean: bool)
    requires v.Valid() && claim !in v.links && f !in v.nodes && made.links == v.links[claim := f]
    requires made.nodes == v.nodes[f := File([])] && InodesKept(v, made)
    requires made.open == v.open + {f} && w.open == made.open - {f}
    requires w.nodes == made.nodes && w.inode == made.inode
    requires var others := made.links - {claim};
             if clean then w.links == others else last !in others && w.links == others[last := f]
    ensures w.open <= v.open && v.nodes.Keys <= w.nodes.Keys
    ensures if clean then Discarded(v, w) else StrandedAt(v, w, last, f) && !Discarded(v, w)
  {
    assert made.links - {claim} == v.links;
  }

  /** Out of the quarantine, back again, and away; `last` is where the probe was last. */
  method SendProbe(k: Kernel, e: OutputEntry, ghost f: Object, expected: Inode)
    returns (ok: bool, clean: bool, ghost last: Slot)
    requires k.Valid() && e.renameProbe.directory in k.volume.nodes && e.renameProbeClaim.directory in k.volume.nodes
    requires Holds(k.volume.links, e.renameProbeClaim, f) && f in k.staged && k.volume.nodes[f].File?
    requires expected == k.volume.inode[f]
    modifies k`volume, k`faults, k`unlinked, k`stranded
    ensures k.Valid() && OnlyLinks(old(k.volume), k.volume)
    ensures k.unlinked == if clean then old(k.unlinked) + {f} else old(k.unlinked)
    ensures k.stranded == if clean then old(k.stranded) else old(k.stranded) + {f}
    ensures ok ==> clean && k.faults == old(k.faults)
    ensures k.faults == old(k.faults) && e.renameProbe !in old(k.volume.links) ==> ok
    ensures if clean then old(k.faults) <= k.faults else old(k.faults) < k.faults
    ensures last in {e.renameProbe, e.renameProbeClaim}
    ensures !clean && k.faults == old(k.faults) + 1 ==> last == e.renameProbeClaim
    ensures var others := old(k.volume.links) - {e.renameProbeClaim};
            if clean then k.volume.links == others else last !in others && k.volume.links == others[last := f]
  {
    hide Kernel.Valid, AllKeptByMove;
    VolumeIsValid(k);
    ok, clean := false, true;
    var claim, probe := e.renameProbeClaim, e.renameProbe;
    last := claim;
    ghost var others := k.volume.links - {claim};
    assert k.volume.links == others[claim := f];
    StagedMayMove(k, claim, probe);
    var out := k.RenameNow(claim, probe);
    if out != Done {
      clean := RemoveVerifiedProbe(k, claim, expected);
      return;
    }
    assert k.volume.links == others[probe := f] && k.volume.links - {probe} == others;
    StagedMayMove(k, probe, claim);
    var back := k.RenameNow(probe, claim);
    if back != Done {
      last := probe;
      clean := RemoveVerifiedProbe(k, probe, expected);
      return;
    }
    assert k.volume.links == others[claim := f] && k.volume.links - {claim} == others;
    ok := RemoveVerifiedProbe(k, claim, expected);
    clean := ok;
  }

  /** The rest of a probe, once its file exists. */
  method TryProbe(k: Kernel, e: OutputEntry, f: Object) returns (ok: bool, clean: bool, ghost last: Slot)
    requires k.Valid() && e.renameProbe.directory in k.volume.nodes && e.renameProbeClaim.directory in k.volume.nodes
    requires Holds(k.volume.links, e.renameProbeClaim, f) && f in k.staged && k.volume.nodes[f].File?
    modifies k`volume, k`faults, k`unlinked, k`stranded
    ensures k.Valid() && k.volume.open == old(k.volume.open) - {f}
    ensures k.volume.nodes == old(k.volume.nodes) && k.volume.inode == old(k.volume.inode)
    ensures k.unlinked == if clean then old(k.unlinked) + {f} else old(k.unlinked)
    ensures k.stranded == if clean then old(k.stranded) else old(k.stranded) + {f}
    ensures ok ==> clean && k.faults == old(k.faults)
    ensures k.faults == old(k.faults) && e.renameProbe !in old(k.volume.links) ==> ok
    ensures if clean then old(k.faults) <= k.faults else old(k.faults) < k.faults
    ensures last in {e.renameProbe, e.renameProbeClaim}
    ensures !clean && k.faults == old(k.faults) + 1 ==> last == e.renameProbeClaim
    ensures var others := old(k.volume.links) - {e.renameProbeClaim};
            if clean then k.volume.links == others else last !in others && k.volume.links == others[last := f]
  {
    hide Kernel.Valid;
    VolumeIsValid(k);
    ok, last := false, e.renameProbeClaim;
    var inspected := k.AttemptNow();
    if !inspected {
      ghost var others := k.volume.links - {e.renameProbeClaim};
      assert k.volume.links == others[e.renameProbeClaim := f];
      clean := k.UnlinkProbeNow(e.renameProbeClaim);
      k.Close(f);
    } else {
      var expected := k.volume.inode[f];
      k.Close(f);
      ok, clean, last := SendProbe(k, e, f, expected);
    }
  }

  lemma DiscardedTwice(u: Volume, v: Volume, w: Volume)
    requires Discarded(u, v) && Discarded(v, w)
    ensures Discarded(u, w)
  {
  }

  ghost predicate ProbesFree(links: Links, entries: seq<OutputEntry>) {
    forall i {:trigger entries[i]} | 0 <= i < |entries| :: ProbeFree(links, entries[i])
  }

  /** One file more than before: a stranded probe, and if `inside`, in the quarantine. */
  ghost predicate OneStranded(v: Volume, w: Volume, stranded: set<Object>, q: Object, inside: bool) {
    exists s, f | f in stranded :: StrandedAt(v, w, s, f) && (inside ==> s.directory == q)
  }

  method ProbeAll(k: Kernel, entries: seq<OutputEntry>, q: Object, ghost known: set<Object>)
    returns (ok: bool, clean: bool)
    requires k.Valid() && known <= k.volume.nodes.Keys && EntriesUsable(known, k.shield, entries, q)
    requires k.stranded <= k.staged - k.unlinked
    modifies k`volume, k`faults, k`staged, k`unlinked, k`stranded
    ensures k.Valid() && old(k.volume.nodes.Keys) <= k.volume.nodes.Keys && k.volume.open <= old(k.volume.open)
    ensures old(k.staged) <= k.staged && k.stranded <= k.staged - k.unlinked
    ensures ok ==> clean && k.faults == old(k.faults)
    ensures k.faults == old(k.faults) && ProbesFree(old(k.volume.links), entries) ==> ok
    ensures clean <==> k.stranded == old(k.stranded)
    ensures clean <==> Discarded(old(k.volume), k.volume)
    ensures if clean then old(k.faults) <= k.faults else old(k.faults) < k.faults
    ensures !clean ==> OneStranded(old(k.volume), k.volume, k.stranded, q, k.faults == old(k.faults) + 1)
  {
    hide Kernel.Valid, Discarded, ProbesFree, OneStranded, NothingIn, StrandedAt;
    ok, clean := true, true;
    VolumeIsValid(k);
    NothingDiscarded(k.volume);
    var index := 0;
    while ok && index < |entries|
      invariant index <= |entries|
      invariant k.Valid() && old(k.volume.nodes.Keys) <= k.volume.nodes.Keys && k.volume.open <= old(k.volume.open)
      invariant old(k.staged) <= k.staged && k.stranded <= k.staged - k.unlinked
      invariant ok ==> clean && k.faults == old(k.faults)
      invariant k.faults == old(k.faults) && ProbesFree(old(k.volume.links), entries) ==> ok
      invariant clean <==> k.stranded == old(k.stranded)
      invariant clean <==> Discarded(old(k.volume), k.volume)
      invariant if clean then old(k.faults) <= k.faults else old(k.faults) < k.faults
      invariant !clean ==> OneStranded(old(k.volume), k.volume, k.stranded, q, k.faults == old(k.faults) + 1)
      decreases |entries| - index
    {
      var e := entries[index];
      assert EntryUsable(known, e, q);
      ghost var before := k.volume;
      SameNamesFree(old(k.volume), before, entries, index);
      ok, clean := Probe(k, e);
      if clean {
        DiscardedTwice(old(k.volume), before, k.volume);
      } else {
        StrandedLater(old(k.volume), before, k.volume, e, k.stranded, q, k.faults == old(k.faults) + 1);
      }
      index := index + 1;
    }
  }

  lemma SameNamesFree(v: Volume, w: Volume, entries: seq<OutputEntry>, index: nat)
    requires Discarded(v, w) && index < |entries|
    ensures ProbesFree(v.links, entries) ==>
              ProbeFree(w.links, entries[index])
  {
  }

  lemma StrandedLater(u: Volume, v: Volume, w: Volume, e: OutputEntry, stranded: set<Object>, q: Object, inside: bool)
    requires Discarded(u, v) && e.renameProbeClaim.directory == q
    requires exists s, f | s in {e.renameProbe, e.renameProbeClaim} && f in stranded ::
               StrandedAt(v, w, s, f) && (inside ==> s == e.renameProbeClaim)
    ensures OneStranded(u, w, stranded, q, inside) && !Discarded(u, w)
  {
    var s, f :| s in {e.renameProbe, e.renameProbeClaim} && f in stranded && StrandedAt(v, w, s, f)
                && (inside ==> s == e.renameProbeClaim);
    assert StrandedAt(u, w, s, f);
  }
}
