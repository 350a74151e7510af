/**
 Undoing an unfinished publication: published outputs are removed, originals are put
 back, staged files are removed, and then the quarantine and the created directories.
*/
module Rollback {
  import opened Wrappers
  import opened Namespace
  import opened Cleanup

  /** The names that one output uses, and what is to be written. */
  datatype OutputEntry = OutputEntry(
    target: Slot, temporary: Slot, backup: Slot, renameProbe: Slot,
    publishedClaim: Slot, temporaryClaim: Slot, backupClaim: Slot, renameProbeClaim: Slot,
    contents: Bytes, hadExistingTarget: bool)

  datatype StagedFile = StagedFile(index: nat, identity: Option<Inode>, descriptor: Object)

  datatype RetainedBackup = RetainedBackup(index: nat, identity: Inode, descriptor: Object)

  datatype PublishedOutput = PublishedOutput(index: nat, identity: Inode)

  /** The private directory, and how to remove it. */
  datatype Quarantine = Quarantine(directory: Object, created: CreatedDirectory)

  // --- What the vectors of the transaction mean -------------------------------

  /** The directories of all names exist, and claims lie in the private one. */
  ghost predicate EntriesUsable(nodes: set<Object>, shield: set<Object>, entries: seq<OutputEntry>, q: Object) {
    && q in shield && q in nodes
    && forall i | 0 <= i < |entries| :: EntryUsable(nodes, entries[i], q)
  }

  ghost predicate EntryUsable(nodes: set<Object>, e: OutputEntry, q: Object) {
    && {e.target.directory, e.temporary.directory, e.backup.directory, e.renameProbe.directory} <= nodes
    && e.publishedClaim.directory == e.temporaryClaim.directory == e.backupClaim.directory
       == e.renameProbeClaim.directory == q
  }

  /** The descriptor is open and its recorded inode number is the one we keep. */
  ghost predicate Retained(open: set<Object>, recorded: map<Object, Inode>, o: Object, identity: Inode) {
    o in open && o in recorded && recorded[o] == identity
  }

  ghost predicate StagedOk(staged: set<Object>, open: set<Object>, recorded: map<Object, Inode>,
                           temps: seq<StagedFile>) {
    forall i | 0 <= i < |temps| ::
      && temps[i].index == i && temps[i].descriptor in staged
      && (temps[i].identity.Some? ==> Retained(open, recorded, temps[i].descriptor, temps[i].identity.value))
  }

  function StagedFiles(temps: seq<StagedFile>): set<Object> {
    set f | f in temps :: f.descriptor
  }

  ghost predicate BackupsOk(open: set<Object>, recorded: map<Object, Inode>, entries: seq<OutputEntry>,
                            backs: seq<RetainedBackup>) {
    forall i | 0 <= i < |backs| ::
      backs[i].index < |entries| && Retained(open, recorded, backs[i].descriptor, backs[i].identity)
  }

  ghost predicate PublishedOk(temps: seq<StagedFile>, published: seq<PublishedOutput>) {
    && |published| <= |temps|
    && forall i | 0 <= i < |published| ::
         published[i].index == i && temps[i].identity == Some(published[i].identity)
  }

  // --- Where everything is, without interference ------------------------------

  /** Published files are at their targets, staged ones at their temporary names, originals at their backups. */
  ghost predicate Placed(links: Links, entries: seq<OutputEntry>, temps: seq<StagedFile>, backs: seq<RetainedBackup>,
                         published: nat, lo: nat, backups: nat)
    requires |temps| <= |entries| && IndicesOk(entries, backs)
  {
    && (forall i {:trigger temps[i]} | 0 <= i < published && i < |temps| ::
          Holds(links, entries[i].target, temps[i].descriptor))
    && (forall i {:trigger temps[i]} | lo <= i < |temps| :: Holds(links, entries[i].temporary, temps[i].descriptor))
    && (forall i {:trigger backs[i]} | 0 <= i < backups && i < |backs| ::
          Holds(links, Entry(entries, backs, i).backup, backs[i].descriptor))
  }

  ghost predicate IndicesOk(entries: seq<OutputEntry>, backs: seq<RetainedBackup>) {
    forall i | 0 <= i < |backs| :: backs[i].index < |entries|
  }

  /** The entry whose original the i-th backup is. */
  function Entry(entries: seq<OutputEntry>, backs: seq<RetainedBackup>, i: nat): OutputEntry
    requires i < |backs| && backs[i].index < |entries|
  {
    entries[backs[i].index]
  }

  /** No name of one kind is a name of another, as far as the run has used them. */
  ghost predicate Apart(entries: seq<OutputEntry>, temps: seq<StagedFile>, backs: seq<RetainedBackup>, q: Object)
    requires |temps| <= |entries| && IndicesOk(entries, backs)
  {
    && FilesApart(temps, backs)
    && (forall i, j {:trigger temps[i], backs[j]} {:trigger entries[i], Entry(entries, backs, j)} |
          0 <= i < |temps| && 0 <= j < |backs| ::
          entries[i].temporary != Entry(entries, backs, j).target)
    && (forall i, j {:trigger backs[i], backs[j]} {:trigger Entry(entries, backs, i), Entry(entries, backs, j)} |
          0 <= i < |backs| && 0 <= j < |backs| && i != j ::
          && Entry(entries, backs, i).backup != Entry(entries, backs, j).backup
          && Entry(entries, backs, i).target != Entry(entries, backs, j).target)
    && (forall i, j {:trigger backs[i], backs[j]} {:trigger Entry(entries, backs, i), Entry(entries, backs, j)} |
          0 <= i < |backs| && 0 <= j < |backs| ::
          Entry(entries, backs, i).backup != Entry(entries, backs, j).target)
    && (forall i {:trigger entries[i]} | 0 <= i < |entries| ::
          entries[i].target.directory != q && entries[i].temporary.directory != q && entries[i].backup.directory != q)
  }

  ghost predicate FilesApart(temps: seq<StagedFile>, backs: seq<RetainedBackup>) {
    && (forall i, j {:trigger temps[i], temps[j]} | 0 <= i < j < |temps| :: temps[i].descriptor != temps[j].descriptor)
    && (forall i, j {:trigger temps[i], backs[j]} | 0 <= i < |temps| && 0 <= j < |backs| ::
          temps[i].descriptor != backs[j].descriptor)
  }

  /** The original behind each backup moves only among the places it is observed at. */
  ghost predicate BackupsObserved(watched: set<Original>, entries: seq<OutputEntry>, backs: seq<RetainedBackup>)
    requires IndicesOk(entries, backs)
  {
    forall i | 0 <= i < |backs| ::
      var e := Entry(entries, backs, i);
      TravelsWithin(watched, backs[i].descriptor, {e.backup, e.backupClaim, e.target})
  }

  // --- Step 1: remove published outputs, newest first -------------------------

  lemma UnpublishKeepsTheRest(before: Links, after: Links, entries: seq<OutputEntry>, temps: seq<StagedFile>,
                              backs: seq<RetainedBackup>, q: Object, i: nat, lo: nat)
    requires |temps| <= |entries| && IndicesOk(entries, backs) && Apart(entries, temps, backs, q)
    requires i < lo <= |temps| && entries[i].publishedClaim.directory == q
    requires Placed(before, entries, temps, backs, i + 1, lo, |backs|)
    requires AgreeOutside(before, after, {entries[i].target, entries[i].publishedClaim})
    ensures Placed(after, entries, temps, backs, i, lo, |backs|)
  {
    assert Holds(before, entries[i].target, temps[i].descriptor);
    forall j {:trigger temps[j]} | 0 <= j < i ensures Holds(after, entries[j].target, temps[j].descriptor) {
      assert Holds(before, entries[j].target, temps[j].descriptor);
    }
    forall j {:trigger temps[j]} | lo <= j < |temps| ensures Holds(after, entries[j].temporary, temps[j].descriptor) {
      assert Holds(before, entries[j].temporary, temps[j].descriptor);
    }
    forall j {:trigger backs[j]} | 0 <= j < |backs|
      ensures Holds(after, Entry(entries, backs, j).backup, backs[j].descriptor)
    {
      assert entries[backs[j].index] == Entry(entries, backs, j);
    }
  }

  /** The names once the first n targets are removed, last one first. */
  function WithoutTargets(links: Links, entries: seq<OutputEntry>, n: nat): Links
    requires n <= |entries|
  {
    if n == 0 then links else WithoutTargets(links - {entries[n - 1].target}, entries, n - 1)
  }

  method RemovePublishedOutput(k: Kernel, entries: seq<OutputEntry>, temps: seq<StagedFile>,
                               ghost backs: seq<RetainedBackup>, published: seq<PublishedOutput>, q: Object,
                               ghost known: set<Object>, index: nat) returns (ok: bool)
    requires k.Valid() && known <= k.volume.nodes.Keys && EntriesUsable(known, k.shield, entries, q)
    requires |temps| <= |entries| && IndicesOk(entries, backs) && PublishedOk(temps, published)
    requires StagedOk(k.staged, k.volume.open, k.recorded, temps)
    requires index < |published|
    requires k.calm ==> Apart(entries, temps, backs, q)
    requires k.calm ==> Placed(k.volume.links, entries, temps, backs, index + 1, |published|, |backs|)
    modifies k`volume, k`calm, k`touched, k`faults, k`unlinked
    ensures k.Valid() && k.volume.open == old(k.volume.open) && old(k.volume.nodes.Keys) <= k.volume.nodes.Keys
    ensures old(k.faults) <= k.faults && k.unlinked <= old(k.unlinked) + StagedFiles(temps)
    ensures k.calm ==> old(k.calm) && OnlyLinks(old(k.volume), k.volume)
    ensures k.calm ==> Placed(k.volume.links, entries, temps, backs, index, |published|, |backs|)
    ensures k.calm && ok ==>
              WithoutTargets(k.volume.links, entries, index) == WithoutTargets(old(k.volume.links), entries, index + 1)
    ensures k.calm && ok && NothingIn(old(k.volume.links), q) ==> NothingIn(k.volume.links, q)
    ensures NothingIn(old(k.volume.links), q) && FilesIn(old(k.volume.nodes), temps) ==>
              k.calm && k.faults == old(k.faults) ==> ok
  {
    hide Kernel.Valid, AgreeOutside, KeepsAllBut, AllKeptByMove;
    var e := entries[index];
    assert EntryUsable(known, e, q);
    StagedIsNotWatched(k, temps[index].descriptor);
    if k.calm {
      assert Holds(k.volume.links, e.target, temps[index].descriptor);
      StagedMayMove(k, e.target, e.publishedClaim);
    }
    ok := RemoveOwnedFile(k, e.target, e.publishedClaim, published[index].identity, true, temps[index].descriptor);
    if k.calm {
      UnpublishKeepsTheRest(old(k.volume.links), k.volume.links, entries, temps, backs, q, index, |published|);
    }
  }

  method RemovePublished(k: Kernel, entries: seq<OutputEntry>, temps: seq<StagedFile>, ghost backs: seq<RetainedBackup>,
                         published: seq<PublishedOutput>, q: Object, ghost known: set<Object>) returns (ok: bool)
    requires k.Valid() && known <= k.volume.nodes.Keys && EntriesUsable(known, k.shield, entries, q)
    requires |temps| <= |entries| && IndicesOk(entries, backs) && PublishedOk(temps, published)
    requires StagedOk(k.staged, k.volume.open, k.recorded, temps)
    requires k.calm ==> Apart(entries, temps, backs, q)
    requires k.calm ==> Placed(k.volume.links, entries, temps, backs, |published|, |published|, |backs|)
    modifies k`volume, k`calm, k`touched, k`faults, k`unlinked
    ensures k.Valid() && k.volume.open == old(k.volume.open) && old(k.volume.nodes.Keys) <= k.volume.nodes.Keys
    ensures old(k.faults) <= k.faults && k.unlinked <= old(k.unlinked) + StagedFiles(temps)
    ensures k.calm ==> old(k.calm) && OnlyLinks(old(k.volume), k.volume)
    ensures k.calm ==> Placed(k.volume.links, entries, temps, backs, 0, |published|, |backs|)
    ensures |published| == 0 ==> k.volume == old(k.volume)
    ensures k.calm && ok ==> k.volume.links == WithoutTargets(old(k.volume.links), entries, |published|)
    ensures k.calm && ok && NothingIn(old(k.volume.links), q) ==> NothingIn(k.volume.links, q)
    ensures NothingIn(old(k.volume.links), q) && FilesIn(old(k.volume.nodes), temps) ==>
              k.calm && k.faults == old(k.faults) ==> ok
  {
    hide Kernel.Valid, Placed, Apart, StagedOk, EntriesUsable, NothingIn, FilesIn, StagedFiles;
    ok := true;
    ghost var final := WithoutTargets(k.volume.links, entries, |published|);
    ghost var empty := NothingIn(k.volume.links, q);
    ghost var clean := empty && FilesIn(k.volume.nodes, temps);
    var index := |published|;
    while index > 0
      invariant 0 <= index <= |published|
      invariant k.Valid() && k.volume.open == old(k.volume.open)
      invariant old(k.volume.nodes.Keys) <= k.volume.nodes.Keys && old(k.faults) <= k.faults
      invariant k.unlinked <= old(k.unlinked) + StagedFiles(temps)
      invariant |published| == 0 ==> k.volume == old(k.volume)
      invariant k.calm ==> old(k.calm) && OnlyLinks(old(k.volume), k.volume)
      invariant k.calm ==> Placed(k.volume.links, entries, temps, backs, index, |published|, |backs|)
      invariant k.calm && ok ==> WithoutTargets(k.volume.links, entries, index) == final
      invariant k.calm && ok && empty ==> NothingIn(k.volume.links, q)
      invariant clean && k.calm && k.faults == old(k.faults) ==> ok
    {
      index := index - 1;
      var removed := RemovePublishedOutput(k, entries, temps, backs, published, q, known, index);
      ok := ok && removed;
    }
  }

  /** The staged objects are regular files. */
  ghost predicate FilesIn(nodes: map<Object, Node>, temps: seq<StagedFile>) {
    forall i {:trigger temps[i]} | 0 <= i < |temps| :: temps[i].descriptor in nodes && nodes[temps[i].descriptor].File?
  }

  ghost predicate BackupFilesIn(nodes: map<Object, Node>, backs: seq<RetainedBackup>) {
    forall i {:trigger backs[i]} | 0 <= i < |backs| :: backs[i].descriptor in nodes && nodes[backs[i].descriptor].File?
  }

  // --- Step 2: put the originals back, newest first ---------------------------

  /** The names once every backup is renamed to its target, last one first. */
  function Restored(links: Links, entries: seq<OutputEntry>, backs: seq<RetainedBackup>): Links
    requires IndicesOk(entries, backs)
    decreases |backs|
  {
    if backs == [] then links
    else
      var last := |backs| - 1;
      var e := Entry(entries, backs, last);
      Restored((links - {e.backup})[e.target := backs[last].descriptor], entries, backs[..last])
  }

  ghost predicate TargetsFree(links: Links, entries: seq<OutputEntry>, backs: seq<RetainedBackup>, n: nat)
    requires IndicesOk(entries, backs)
  {
    forall i | 0 <= i < n && i < |backs| :: Entry(entries, backs, i).target !in links
  }

  lemma RestoreKeepsTheRest(before: Links, after: Links, entries: seq<OutputEntry>, temps: seq<StagedFile>,
                            backs: seq<RetainedBackup>, q: Object, i: nat, lo: nat)
    requires |temps| <= |entries| && IndicesOk(entries, backs) && Apart(entries, temps, backs, q)
    requires i < |backs| && Entry(entries, backs, i).backupClaim.directory == q
    requires Placed(before, entries, temps, backs, 0, lo, i + 1)
    requires var e := Entry(entries, backs, i); AgreeOutside(before, after, {e.backup, e.backupClaim, e.target})
    ensures Placed(after, entries, temps, backs, 0, lo, i)
  {
    var e := Entry(entries, backs, i);
    var b := backs[i];
    assert entries[b.index] == e;
    forall j {:trigger temps[j]} | lo <= j < |temps| ensures Holds(after, entries[j].temporary, temps[j].descriptor) {
      assert Holds(before, entries[j].temporary, temps[j].descriptor);
      assert Holds(before, e.backup, b.descriptor);
    }
    forall j {:trigger backs[j]} | 0 <= j < i
      ensures Holds(after, Entry(entries, backs, j).backup, backs[j].descriptor)
    {
      assert entries[backs[j].index] == Entry(entries, backs, j);
    }
  }

  lemma TargetsStayFree(before: Links, after: Links, entries: seq<OutputEntry>, temps: seq<StagedFile>,
                        backs: seq<RetainedBackup>, q: Object, i: nat)
    requires |temps| <= |entries| && IndicesOk(entries, backs) && Apart(entries, temps, backs, q)
    requires i < |backs| && Entry(entries, backs, i).backupClaim.directory == q
    requires var e := Entry(entries, backs, i); AgreeOutside(before, after, {e.backup, e.backupClaim, e.target})
    requires TargetsFree(before, entries, backs, i)
    ensures TargetsFree(after, entries, backs, i)
  {
    var e := Entry(entries, backs, i);
    assert entries[backs[i].index] == e;
    forall j | 0 <= j < i ensures Entry(entries, backs, j).target !in after {
      var t := Entry(entries, backs, j).target;
      assert entries[backs[j].index] == Entry(entries, backs, j);
      assert t !in {e.backup, e.backupClaim, e.target};
      assert t !in before;
    }
  }

  lemma BackupIsPlaced(v: Volume, entries: seq<OutputEntry>, temps: seq<StagedFile>, backs: seq<RetainedBackup>,
                       q: Object, index: nat, lo: nat)
    requires |temps| <= |entries| && IndicesOk(entries, backs) && index < |backs|
    requires Apart(entries, temps, backs, q) && Placed(v.links, entries, temps, backs, 0, lo, index + 1)
    requires Entry(entries, backs, index).backupClaim.directory == q
    ensures var e := Entry(entries, backs, index);
            && Holds(v.links, e.backup, backs[index].descriptor) && e.target.directory != q
            && (NothingIn(v.links, q) && BackupFilesIn(v.nodes, backs) ==>
                  Claimable(v, e.backup, e.backupClaim, backs[index].descriptor))
  {
    var e := Entry(entries, backs, index);
    assert Holds(v.links, e.backup, backs[index].descriptor);
    assert entries[backs[index].index] == e;
  }

  method RestoreBackup(k: Kernel, entries: seq<OutputEntry>, ghost temps: seq<StagedFile>, backs: seq<RetainedBackup>,
                       q: Object, ghost known: set<Object>, index: nat, ghost lo: nat) returns (ok: bool)
    requires k.Valid() && known <= k.volume.nodes.Keys && EntriesUsable(known, k.shield, entries, q)
    requires |temps| <= |entries| && IndicesOk(entries, backs)
    requires BackupsOk(k.volume.open, k.recorded, entries, backs)
    requires index < |backs|
    requires k.calm ==> Apart(entries, temps, backs, q) && BackupsObserved(k.watched, entries, backs)
    requires k.calm ==> Placed(k.volume.links, entries, temps, backs, 0, lo, index + 1)
    modifies k`volume, k`calm, k`touched, k`faults
    ensures k.Valid() && k.volume.open == old(k.volume.open) && old(k.volume.nodes.Keys) <= k.volume.nodes.Keys
    ensures old(k.faults) <= k.faults
    ensures k.calm ==> old(k.calm) && OnlyLinks(old(k.volume), k.volume)
    ensures k.calm ==> Placed(k.volume.links, entries, temps, backs, 0, lo, index)
    ensures k.calm && TargetsFree(old(k.volume.links), entries, backs, index + 1) ==>
              TargetsFree(k.volume.links, entries, backs, index)
    ensures k.calm && ok ==>
              Restored(k.volume.links, entries, backs[..index])
              == Restored(old(k.volume.links), entries, backs[..index + 1])
    ensures k.calm && ok && NothingIn(old(k.volume.links), q) ==> NothingIn(k.volume.links, q)
    ensures NothingIn(old(k.volume.links), q) && BackupFilesIn(old(k.volume.nodes), backs)
            && TargetsFree(old(k.volume.links), entries, backs, index + 1) ==>
              k.calm && k.faults == old(k.faults) ==> ok
  {
    hide Kernel.Valid, AgreeOutside, KeepsAllBut, TravelsWithin, Apart, Placed, Claimable;
    var b := backs[index];
    var e := entries[b.index];
    assert e == Entry(entries, backs, index);
    assert EntryUsable(known, e, q);
    if k.calm {
      BackupIsPlaced(k.volume, entries, temps, backs, q, index, lo);
    }
    var restoring := RestoreOwnedFile(k, e.backup, e.backupClaim, e.target, b.identity, b.descriptor);
    ok := restoring == AtTarget;
    if k.calm {
      RestoreKeepsTheRest(old(k.volume.links), k.volume.links, entries, temps, backs, q, index, lo);
      if TargetsFree(old(k.volume.links), entries, backs, index) {
        TargetsStayFree(old(k.volume.links), k.volume.links, entries, temps, backs, q, index);
      }
      RestoredStep(old(k.volume.links), entries, backs, index);
    }
  }

  method RestoreBackups(k: Kernel, entries: seq<OutputEntry>, ghost temps: seq<StagedFile>, backs: seq<RetainedBackup>,
                        q: Object, ghost known: set<Object>, ghost lo: nat) returns (ok: bool)
    requires k.Valid() && known <= k.volume.nodes.Keys && EntriesUsable(known, k.shield, entries, q)
    requires |temps| <= |entries| && IndicesOk(entries, backs)
    requires BackupsOk(k.volume.open, k.recorded, entries, backs)
    requires k.calm ==> Apart(entries, temps, backs, q) && BackupsObserved(k.watched, entries, backs)
    requires k.calm ==> Placed(k.volume.links, entries, temps, backs, 0, lo, |backs|)
    modifies k`volume, k`calm, k`touched, k`faults
    ensures k.Valid() && k.volume.open == old(k.volume.open) && old(k.volume.nodes.Keys) <= k.volume.nodes.Keys
    ensures old(k.faults) <= k.faults
    ensures k.calm ==> old(k.calm) && OnlyLinks(old(k.volume), k.volume)
    ensures k.calm ==> Placed(k.volume.links, entries, temps, backs, 0, lo, 0)
    ensures |backs| == 0 ==> k.volume == old(k.volume)
    ensures k.calm && ok ==> k.volume.links == Restored(old(k.volume.links), entries, backs)
    ensures k.calm && ok && NothingIn(old(k.volume.links), q) ==> NothingIn(k.volume.links, q)
    ensures NothingIn(old(k.volume.links), q) && BackupFilesIn(old(k.volume.nodes), backs)
            && TargetsFree(old(k.volume.links), entries, backs, |backs|) ==>
              k.calm && k.faults == old(k.faults) ==> ok
  {
    hide Kernel.Valid, Placed, Apart, BackupsOk, BackupsObserved, EntriesUsable, NothingIn, BackupFilesIn, TargetsFree;
    ok := true;
    ghost var final := Restored(k.volume.links, entries, backs);
    ghost var empty := NothingIn(k.volume.links, q);
    ghost var clean := empty && BackupFilesIn(k.volume.nodes, backs)
                       && TargetsFree(k.volume.links, entries, backs, |backs|);
    var index := |backs|;
    assert backs[..index] == backs;
    while index > 0
      invariant 0 <= index <= |backs|
      invariant k.Valid() && k.volume.open == old(k.volume.open)
      invariant old(k.volume.nodes.Keys) <= k.volume.nodes.Keys && old(k.faults) <= k.faults
      invariant |backs| == 0 ==> k.volume == old(k.volume)
      invariant k.calm ==> old(k.calm) && OnlyLinks(old(k.volume), k.volume)
      invariant k.calm ==> Placed(k.volume.links, entries, temps, backs, 0, lo, index)
      invariant k.calm && ok ==> Restored(k.volume.links, entries, backs[..index]) == final
      invariant k.calm && ok && empty ==> NothingIn(k.volume.links, q)
      invariant k.calm && clean ==> TargetsFree(k.volume.links, entries, backs, index)
      invariant clean && k.calm && k.faults == old(k.faults) ==> ok
    {
      index := index - 1;
      var restored := RestoreBackup(k, entries, temps, backs, q, known, index, lo);
      ok := ok && restored;
    }
  }

  lemma RestoredStep(links: Links, entries: seq<OutputEntry>, backs: seq<RetainedBackup>, index: nat)
    requires IndicesOk(entries, backs) && index < |backs|
    ensures var e := Entry(entries, backs, index);
            Restored(links, entries, backs[..index + 1])
            == Restored((links - {e.backup})[e.target := backs[index].descriptor], entries, backs[..index])
  {
    assert backs[..index + 1][..index] == backs[..index];
  }

  // --- Step 3: remove what is still staged ------------------------------------

  lemma StagedRemovalKeepsTheRest(before: Links, after: Links, entries: seq<OutputEntry>, temps: seq<StagedFile>,
                                  backs: seq<RetainedBackup>, q: Object, i: nat)
    requires |temps| <= |entries| && IndicesOk(entries, backs) && Apart(entries, temps, backs, q)
    requires i < |temps| && entries[i].temporaryClaim.directory == q
    requires Placed(before, entries, temps, backs, 0, i, 0)
    requires AgreeOutside(before, after, {entries[i].temporary, entries[i].temporaryClaim})
    ensures Placed(after, entries, temps, backs, 0, i + 1, 0)
  {
    forall j {:trigger temps[j]} | i + 1 <= j < |temps| ensures Holds(after, entries[j].temporary, temps[j].descriptor) {
      assert Holds(before, entries[j].temporary, temps[j].descriptor);
      assert Holds(before, entries[i].temporary, temps[i].descriptor);
    }
  }

  /** The names once the temporaries from lo on are removed. */
  function WithoutStaged(links: Links, entries: seq<OutputEntry>, lo: nat, hi: nat): Links
    requires hi <= |entries|
    decreases hi - lo
  {
    if lo >= hi then links else WithoutStaged(links - {entries[lo].temporary}, entries, lo + 1, hi)
  }

  method RemoveStagedFile(k: Kernel, entries: seq<OutputEntry>, temps: seq<StagedFile>,
                          ghost backs: seq<RetainedBackup>, q: Object, ghost known: set<Object>, index: nat)
    returns (ok: bool)
    requires k.Valid() && known <= k.volume.nodes.Keys && EntriesUsable(known, k.shield, entries, q)
    requires |temps| <= |entries| && IndicesOk(entries, backs)
    requires StagedOk(k.staged, k.volume.open, k.recorded, temps)
    requires index < |temps|
    requires k.calm ==> Apart(entries, temps, backs, q)
    requires k.calm ==> Placed(k.volume.links, entries, temps, backs, 0, index, 0)
    modifies k`volume, k`calm, k`touched, k`faults, k`unlinked
    ensures k.Valid() && k.volume.open == old(k.volume.open) && old(k.volume.nodes.Keys) <= k.volume.nodes.Keys
    ensures old(k.faults) <= k.faults && k.unlinked <= old(k.unlinked) + StagedFiles(temps)
    ensures k.calm ==> old(k.calm) && OnlyLinks(old(k.volume), k.volume)
    ensures k.calm ==> Placed(k.volume.links, entries, temps, backs, 0, index + 1, 0)
    ensures k.calm && ok ==>
              WithoutStaged(k.volume.links, entries, index + 1, |temps|)
              == WithoutStaged(old(k.volume.links), entries, index, |temps|)
    ensures k.calm && ok && NothingIn(old(k.volume.links), q) ==> NothingIn(k.volume.links, q)
    ensures NothingIn(old(k.volume.links), q) && FilesIn(old(k.volume.nodes), temps)
            && k.calm && k.faults == old(k.faults) ==>
              if temps[index].identity.Some? then ok
              else k.volume.links
                   == (old(k.volume.links) - {entries[index].temporary})
                      [entries[index].temporaryClaim := temps[index].descriptor]
  {
    hide Kernel.Valid, AgreeOutside, KeepsAllBut, AllKeptByMove;
    var e := entries[index];
    assert EntryUsable(known, e, q);
    StagedIsNotWatched(k, temps[index].descriptor);
    if k.calm {
      assert Holds(k.volume.links, e.temporary, temps[index].descriptor);
      StagedMayMove(k, e.temporary, e.temporaryClaim);
    }
    match temps[index].identity {
      case Some(identity) =>
        ok := RemoveOwnedFile(k, e.temporary, e.temporaryClaim, identity, true, temps[index].descriptor);
      case None =>
        ok := PreserveUnidentifiedFile(k, e.temporary, e.temporaryClaim);
    }
    if k.calm {
      StagedRemovalKeepsTheRest(old(k.volume.links), k.volume.links, entries, temps, backs, q, index);
    }
  }

  /** Every staged file was identified. */
  ghost predicate Identified(temps: seq<StagedFile>) {
    forall i {:trigger temps[i]} | 0 <= i < |temps| :: temps[i].identity.Some?
  }

  /** At most the file staged last could not be identified. */
  ghost predicate FrontIdentified(temps: seq<StagedFile>) {
    forall i {:trigger temps[i]} | 0 <= i && i + 1 < |temps| :: temps[i].identity.Some?
  }

  /** A file that could not be identified goes from its temporary name to its claim. */
  function Leftover(links: Links, entries: seq<OutputEntry>, temps: seq<StagedFile>): Links
    requires |temps| <= |entries|
  {
    var last := |temps| - 1;
    if temps == [] || temps[last].identity.Some? then links
    else links[entries[last].temporaryClaim := temps[last].descriptor]
  }

  method RemoveStaged(k: Kernel, entries: seq<OutputEntry>, temps: seq<StagedFile>, ghost backs: seq<RetainedBackup>,
                      published: seq<PublishedOutput>, q: Object, ghost known: set<Object>) returns (ok: bool)
    requires k.Valid() && known <= k.volume.nodes.Keys && EntriesUsable(known, k.shield, entries, q)
    requires |temps| <= |entries| && IndicesOk(entries, backs) && PublishedOk(temps, published)
    requires StagedOk(k.staged, k.volume.open, k.recorded, temps)
    requires k.calm ==> Apart(entries, temps, backs, q)
    requires k.calm ==> Placed(k.volume.links, entries, temps, backs, 0, |published|, 0)
    modifies k`volume, k`calm, k`touched, k`faults, k`unlinked
    ensures k.Valid() && k.volume.open == old(k.volume.open) && old(k.volume.nodes.Keys) <= k.volume.nodes.Keys
    ensures old(k.faults) <= k.faults && k.unlinked <= old(k.unlinked) + StagedFiles(temps)
    ensures k.calm ==> old(k.calm) && OnlyLinks(old(k.volume), k.volume)
    ensures k.calm && ok ==>
              k.volume.links == WithoutStaged(old(k.volume.links), entries, |published|, |temps|)
    ensures k.calm && ok && NothingIn(old(k.volume.links), q) ==> NothingIn(k.volume.links, q)
    ensures |temps| == 0 ==> k.volume == old(k.volume)
    ensures NothingIn(old(k.volume.links), q) && FilesIn(old(k.volume.nodes), temps) && FrontIdentified(temps)
            && k.calm && k.faults == old(k.faults) ==>
              && (Identified(temps) ==> ok)
              && k.volume.links == Leftover(WithoutStaged(old(k.volume.links), entries, |published|, |temps|), entries, temps)
  {
    hide Kernel.Valid, Placed, Apart, StagedOk, EntriesUsable, NothingIn, FilesIn, Identified, StagedFiles;
    ok := true;
    ghost var final := WithoutStaged(k.volume.links, entries, |published|, |temps|);
    ghost var empty := NothingIn(k.volume.links, q);
    ghost var clean := empty && FilesIn(k.volume.nodes, temps) && FrontIdentified(temps);
    ghost var whole := temps == [] || temps[|temps| - 1].identity.Some?;
    FrontAndLast(temps);
    for index := 0 to |temps|
      invariant k.Valid() && k.volume.open == old(k.volume.open)
      invariant old(k.volume.nodes.Keys) <= k.volume.nodes.Keys && old(k.faults) <= k.faults
      invariant k.unlinked <= old(k.unlinked) + StagedFiles(temps)
      invariant k.calm ==> old(k.calm) && OnlyLinks(old(k.volume), k.volume)
      invariant k.calm ==> Placed(k.volume.links, entries, temps, backs, 0, Max(index, |published|), 0)
      invariant k.calm && ok ==>
                  WithoutStaged(k.volume.links, entries, Max(index, |published|), |temps|) == final
      invariant k.calm && ok && empty ==> NothingIn(k.volume.links, q)
      invariant |temps| == 0 ==> k.volume == old(k.volume)
      invariant clean && k.calm && k.faults == old(k.faults) ==>
                  if index < |temps| || whole then ok else k.volume.links == Leftover(final, entries, temps)
    {
      if index < |published| {
        PublishedIsIdentified(temps, published, index);
        continue;
      }
      ghost var before := k.volume.links;
      if index + 1 == |temps| {
        ghost var others := before - {entries[index].temporary};
        assert WithoutStaged(others, entries, index + 1, |temps|) == others;
      }
      var removed := RemoveStagedFile(k, entries, temps, backs, q, known, index);
      ok := ok && removed;
    }
  }

  lemma FrontAndLast(temps: seq<StagedFile>)
    ensures FrontIdentified(temps) ==>
              (Identified(temps) <==> temps == [] || temps[|temps| - 1].identity.Some?)
    ensures FrontIdentified(temps) ==> forall i | 0 <= i && i + 1 < |temps| :: temps[i].identity.Some?
  {
  }

  lemma PublishedIsIdentified(temps: seq<StagedFile>, published: seq<PublishedOutput>, i: nat)
    requires PublishedOk(temps, published) && i < |published|
    ensures temps[i].identity.Some?
  {
  }

  // --- The whole rollback -----------------------------------------------------

  /** The names that the three file steps of a rollback leave. */
  function Undone(links: Links, entries: seq<OutputEntry>, staged: nat, backs: seq<RetainedBackup>, published: nat): Links
    requires staged <= |entries| && published <= |entries| && IndicesOk(entries, backs)
  {
    WithoutStaged(Restored(WithoutTargets(links, entries, published), entries, backs), entries, published, staged)
  }

  /** Nothing stands in the way of the file steps. */
  ghost predicate Undoable(v: Volume, entries: seq<OutputEntry>, temps: seq<StagedFile>, backs: seq<RetainedBackup>,
                           published: nat, q: Object)
    requires |temps| <= |entries| && published <= |entries| && IndicesOk(entries, backs)
  {
    CanUndo(v, entries, temps, backs, published, q) && Identified(temps)
  }

  /** Nothing but a file that could not be identified stands in the way of the file steps. */
  ghost predicate CanUndo(v: Volume, entries: seq<OutputEntry>, temps: seq<StagedFile>, backs: seq<RetainedBackup>,
                           published: nat, q: Object)
    requires |temps| <= |entries| && published <= |entries| && IndicesOk(entries, backs)
  {
    && NothingIn(v.links, q) && FilesIn(v.nodes, temps) && BackupFilesIn(v.nodes, backs) && FrontIdentified(temps)
    && TargetsFree(WithoutTargets(v.links, entries, published), entries, backs, |backs|)
  }

  method UndoFiles(k: Kernel, entries: seq<OutputEntry>, temps: seq<StagedFile>, backs: seq<RetainedBackup>,
                   published: seq<PublishedOutput>, q: Object, ghost known: set<Object>) returns (ok: bool)
    requires k.Valid() && known <= k.volume.nodes.Keys && EntriesUsable(known, k.shield, entries, q)
    requires |temps| <= |entries| && IndicesOk(entries, backs) && PublishedOk(temps, published)
    requires StagedOk(k.staged, k.volume.open, k.recorded, temps)
    requires BackupsOk(k.volume.open, k.recorded, entries, backs)
    requires k.calm ==> Apart(entries, temps, backs, q) && BackupsObserved(k.watched, entries, backs)
    requires k.calm ==> Placed(k.volume.links, entries, temps, backs, |published|, |published|, |backs|)
    modifies k`volume, k`calm, k`touched, k`faults, k`unlinked
    ensures k.Valid() && k.volume.open == old(k.volume.open) && old(k.volume.nodes.Keys) <= k.volume.nodes.Keys
    ensures old(k.faults) <= k.faults && k.unlinked <= old(k.unlinked) + StagedFiles(temps)
    ensures k.calm ==> old(k.calm) && OnlyLinks(old(k.volume), k.volume)
    ensures k.calm && ok ==> k.volume.links == Undone(old(k.volume.links), entries, |temps|, backs, |published|)
    ensures Undoable(old(k.volume), entries, temps, backs, |published|, q) ==>
              k.calm && k.faults == old(k.faults) ==> ok
    ensures CanUndo(old(k.volume), entries, temps, backs, |published|, q) ==>
              k.calm && k.faults == old(k.faults) ==>
                k.volume.links
                == Leftover(Undone(old(k.volume.links), entries, |temps|, backs, |published|), entries, temps)
    ensures temps == [] && backs == [] ==> k.volume == old(k.volume)
  {
    hide Kernel.Valid, Placed, Apart, StagedOk, BackupsOk, BackupsObserved, EntriesUsable, NothingIn, FilesIn,
         BackupFilesIn, TargetsFree, StagedFiles, FrontIdentified, Leftover, Identified, WithoutTargets, Restored, WithoutStaged;
    var unpublished := RemovePublished(k, entries, temps, backs, published, q, known);
    var restored := RestoreBackups(k, entries, temps, backs, q, known, |published|);
    var unstaged := RemoveStaged(k, entries, temps, backs, published, q, known);
    ok := unpublished && restored && unstaged;
  }

  /** The quarantine and the created directories go last; observation of the originals ends with the file steps. */
  method RollBack(k: Kernel, entries: seq<OutputEntry>, temps: seq<StagedFile>, backs: seq<RetainedBackup>,
                  published: seq<PublishedOutput>, quarantine: Quarantine, created: seq<CreatedDirectory>,
                  ghost known: set<Object>) returns (ok: bool)
    requires k.Valid() && known <= k.volume.nodes.Keys && EntriesUsable(known, k.shield, entries, quarantine.directory)
    requires |temps| <= |entries| && IndicesOk(entries, backs) && PublishedOk(temps, published)
    requires StagedOk(k.staged, k.volume.open, k.recorded, temps)
    requires BackupsOk(k.volume.open, k.recorded, entries, backs)
    requires DirectoryUsable(known, quarantine.created) && forall d | d in created :: DirectoryUsable(known, d)
    requires k.calm ==> Apart(entries, temps, backs, quarantine.directory)
                        && BackupsObserved(k.watched, entries, backs)
    requires k.calm ==> Placed(k.volume.links, entries, temps, backs, |published|, |published|, |backs|)
    modifies k`volume, k`calm, k`touched, k`faults, k`unlinked, k`watched
    ensures k.Valid() && old(k.faults) <= k.faults && k.unlinked <= old(k.unlinked) + StagedFiles(temps)
    ensures k.calm ==> old(k.calm) && OnlyLinks(old(k.volume), k.volume)
    ensures k.calm && ok ==>
              k.volume.links == Undone(old(k.volume.links), entries, |temps|, backs, |published|)
                                - {quarantine.created.slot} - Slots(created)
    ensures Undoable(old(k.volume), entries, temps, backs, |published|, quarantine.directory)
            && LeftoversRemovable(
                 old(k.volume).(links := Undone(old(k.volume.links), entries, |temps|, backs, |published|)),
                 quarantine.created, created) ==>
              k.calm && k.faults == old(k.faults) ==> ok
    ensures k.calm && k.faults == old(k.faults) ==>
              if temps == [] && backs == [] then
                Dropped(old(k.volume.links), k.volume.links, {quarantine.created.slot} + Slots(created))
              else
                CanUndo(old(k.volume), entries, temps, backs, |published|, quarantine.directory) ==>
                  Dropped(Leftover(Undone(old(k.volume.links), entries, |temps|, backs, |published|), entries, temps),
                          k.volume.links, {quarantine.created.slot} + Slots(created))
    ensures k.calm ==>
              forall w | w in old(k.watched) && w.Places() !! Disturbed(quarantine.created, created) ::
                w.AtExactlyOne(k.volume.links)
  {
    hide Kernel.Valid, Placed, Apart, StagedOk, BackupsOk, BackupsObserved, EntriesUsable, Undoable, CanUndo, Undone,
         Removable, Stacked, KeepsAllBut, Disposable, StagedFiles, NothingIn, Leftover, Dropped, AgreeOutside;
    var undone := UndoFiles(k, entries, temps, backs, published, quarantine.directory, known);
    ghost var links := k.volume.links;
    OriginalsAreObserved(k);
    k.StopWatching();
    var removed := RemoveLeftovers(k, quarantine.created, created, known);
    if k.calm {
      OriginalsStay(old(k.watched), links, k.volume.links, Disturbed(quarantine.created, created));
    }
    ok := undone && removed;
  }

  lemma OriginalsAreObserved(k: Kernel)
    requires k.Valid()
    ensures k.calm ==> forall w | w in k.watched :: w.AtExactlyOne(k.volume.links)
  {
  }

  /** The names that removing the quarantine and the created directories may disturb on the way. */
  function Disturbed(quarantine: CreatedDirectory, created: seq<CreatedDirectory>): set<Slot> {
    {quarantine.slot, quarantine.cleanup} + Slots(created) + CleanupSlots(created)
  }

  lemma OriginalsStay(originals: set<Original>, a: Links, b: Links, disturbed: set<Slot>)
    requires (forall w | w in originals :: w.AtExactlyOne(a)) && AgreeOutside(a, b, disturbed)
    ensures forall w | w in originals && w.Places() !! disturbed :: w.AtExactlyOne(b)
  {
    forall w | w in originals && w.Places() !! disturbed ensures w.AtExactlyOne(b) {
      assert w.target !in disturbed && w.backup !in disturbed && w.claim !in disturbed by {
        assert {w.target, w.backup, w.claim} <= w.Places();
      }
    }
  }

  /** Removes the quarantine, and then the created directories. */
  method RemoveLeftovers(k: Kernel, quarantine: CreatedDirectory, created: seq<CreatedDirectory>,
                         ghost known: set<Object>) returns (ok: bool)
    requires k.Valid() && k.watched == {} && known <= k.volume.nodes.Keys
    requires DirectoryUsable(known, quarantine) && forall d | d in created :: DirectoryUsable(known, d)
    modifies k`volume, k`calm, k`touched, k`faults
    ensures k.Valid() && old(k.faults) <= k.faults
    ensures k.calm ==> old(k.calm) && OnlyLinks(old(k.volume), k.volume)
    ensures k.calm && ok ==> k.volume.links == old(k.volume.links) - {quarantine.slot} - Slots(created)
    ensures LeftoversRemovable(old(k.volume), quarantine, created) ==> k.calm && k.faults == old(k.faults) ==> ok
    ensures k.calm && k.faults == old(k.faults) ==>
              Dropped(old(k.volume.links), k.volume.links, {quarantine.slot} + Slots(created))
    ensures k.calm ==> AgreeOutside(old(k.volume.links), k.volume.links, Disturbed(quarantine, created))
  {
    hide Kernel.Valid, Removable, Stacked, KeepsAllBut, Disposable, Dropped, AgreeOutside, Slots, CleanupSlots;
    var removed := RemoveOwnedDirectory(k, quarantine);
    ghost var halfway := k.volume;
    var cleared := RemoveCreatedDirectories(k, created);
    ok := removed && cleared;
    if k.calm {
      AgreementJoins(old(k.volume.links), halfway.links, k.volume.links, {quarantine.slot, quarantine.cleanup},
                     Slots(created) + CleanupSlots(created), Disturbed(quarantine, created));
      if k.faults == old(k.faults) {
        DroppedTwice(old(k.volume.links), halfway.links, k.volume.links, {quarantine.slot}, Slots(created));
      }
    }
  }

  ghost predicate DirectoryUsable(known: set<Object>, d: CreatedDirectory) {
    d.slot.directory in known && d.cleanup.directory == d.slot.directory
  }

  /** The quarantine can be removed, and after it the created directories, last one first. */
  ghost predicate LeftoversRemovable(v: Volume, quarantine: CreatedDirectory, created: seq<CreatedDirectory>) {
    && Removable(v, quarantine)
    && Stacked(v.(links := v.links - {quarantine.slot}), created)
  }
}
