/**
 A publication in progress, as a state: what has been staged, backed up and
 published so far, and how far that is from the names as they were before.

 `Midway` relates the names now to the names before the first output was staged: what
 a rollback would do to them leads exactly back.  Each forward step of the transaction
 keeps it, so a rollback may start after any of them.
*/
module Progress {
  import opened Namespace
  import opened Rollback

  // --- Names ------------------------------------------------------------------

  /** The names of one output belong together, all differ, and claims lie in the quarantine. */
  ghost predicate EntryNamed(e: OutputEntry, q: Object) {
    && e.target.directory == e.temporary.directory == e.backup.directory == e.renameProbe.directory
    && e.publishedClaim.directory == e.temporaryClaim.directory == e.backupClaim.directory
       == e.renameProbeClaim.directory == q
    && e.target.directory != q
    && e.target !in {e.temporary, e.backup, e.renameProbe}
    && KindsDiffer(e, e)
    && |Claims(e)| == 4
  }

  /** Two outputs share all their public names or none, and never a claim. */
  ghost predicate PairNamed(a: OutputEntry, b: OutputEntry) {
    && (a.target == b.target <==> a.temporary == b.temporary)
    && (a.target == b.target <==> a.backup == b.backup)
    && (a.target == b.target <==> a.renameProbe == b.renameProbe)
    && KindsDiffer(a, b)
    && a.backupClaim != b.backupClaim && Claims(a) !! Claims(b)
  }

  /** No temporary is a backup or a probe, and no backup is a probe. */
  predicate KindsDiffer(a: OutputEntry, b: OutputEntry) {
    a.temporary != b.backup && a.temporary != b.renameProbe && a.backup != b.renameProbe
  }

  function Claims(e: OutputEntry): set<Slot> {
    {e.publishedClaim, e.temporaryClaim, e.backupClaim, e.renameProbeClaim}
  }

  ghost predicate WellNamed(entries: seq<OutputEntry>, q: Object) {
    && (forall i {:trigger entries[i]} | 0 <= i < |entries| :: EntryNamed(entries[i], q))
    && (forall i, j {:trigger entries[i], entries[j]} | 0 <= i < |entries| && 0 <= j < |entries| && i != j ::
          PairNamed(entries[i], entries[j]))
  }

  /** What the second preflight establishes about one output. */
  ghost predicate EntryPrepared(v: Volume, e: OutputEntry) {
    && e.temporary !in v.links && e.backup !in v.links && e.renameProbe !in v.links
    && Claims(e) !! v.links.Keys
    && (e.target in v.links <==> e.hadExistingTarget)
    && (e.hadExistingTarget ==> v.links[e.target] in v.nodes && v.nodes[v.links[e.target]].File?)
  }

  ghost predicate Prepared(v: Volume, entries: seq<OutputEntry>) {
    forall i {:trigger entries[i]} | 0 <= i < |entries| :: EntryPrepared(v, entries[i])
  }

  /** The target of no output is a name that another output uses on the way. */
  ghost predicate Collisionless(entries: seq<OutputEntry>) {
    && (forall i, j {:trigger entries[i], entries[j]} | 0 <= i < j < |entries| :: entries[i].target != entries[j].target)
    && (forall i, j {:trigger entries[i], entries[j]} | 0 <= i < |entries| && 0 <= j < |entries| ::
          entries[i].target !in {entries[j].temporary, entries[j].backup})
  }

  // --- How far the names are from where they were -----------------------------

  /** Files may come and change; directories and inode numbers stay. */
  ghost predicate Grew(v: Volume, w: Volume) {
    && (forall o | o in v.nodes :: o in w.nodes && w.nodes[o].Directory? == v.nodes[o].Directory?)
    && InodesKept(v, w)
  }

  /** The names that may differ from how they were. */
  function Differing(entries: seq<OutputEntry>, staged: nat, backs: seq<RetainedBackup>, published: nat): set<Slot>
    requires staged <= |entries| && published <= |entries| && IndicesOk(entries, backs)
  {
    (set i | 0 <= i < published :: entries[i].target)
    + (set i | published <= i < staged :: entries[i].temporary)
    + (set i | 0 <= i < |backs| :: Entry(entries, backs, i).target)
    + (set i | 0 <= i < |backs| :: Entry(entries, backs, i).backup)
  }

  /** Staged files are new. */
  ghost predicate TempsNew(base: Volume, temps: seq<StagedFile>) {
    forall i {:trigger temps[i]} | 0 <= i < |temps| :: temps[i].descriptor !in base.nodes
  }

  /** Each backup is the file that stood at the target before. */
  ghost predicate BackupsAreOriginals(base: Volume, entries: seq<OutputEntry>, backs: seq<RetainedBackup>)
    requires IndicesOk(entries, backs)
  {
    forall i {:trigger backs[i]} | 0 <= i < |backs| ::
      && Holds(base.links, Entry(entries, backs, i).target, backs[i].descriptor)
      && Entry(entries, backs, i).hadExistingTarget
      && backs[i].descriptor in base.nodes
  }

  ghost predicate Midway(base: Volume, v: Volume, entries: seq<OutputEntry>, temps: seq<StagedFile>,
                         backs: seq<RetainedBackup>, published: nat, q: Object)
    requires |temps| <= |entries| && published <= |entries| && IndicesOk(entries, backs)
  {
    && Undone(v.links, entries, |temps|, backs, published) == base.links
    && Placed(v.links, entries, temps, backs, published, published, |backs|)
    && Apart(entries, temps, backs, q)
    && NothingIn(v.links, q)
    && FilesIn(v.nodes, temps) && BackupFilesIn(v.nodes, backs)
    && TargetsFree(WithoutTargets(v.links, entries, published), entries, backs, |backs|)
    && Grew(base, v)
    && TempsNew(base, temps) && BackupsAreOriginals(base, entries, backs)
    && AgreeOutside(base.links, v.links, Differing(entries, |temps|, backs, published))
  }

  /** Nothing staged yet. */
  lemma AtTheStart(v: Volume, entries: seq<OutputEntry>, q: Object)
    requires v.Valid() && WellNamed(entries, q) && NothingIn(v.links, q)
    ensures Midway(v, v, entries, [], [], 0, q)
  {
  }

  // --- Step: stage one output -------------------------------------------------

  function TempSlots(entries: seq<OutputEntry>, lo: nat, hi: nat): set<Slot>
    requires hi <= |entries|
  {
    set i | lo <= i < hi :: entries[i].temporary
  }

  lemma {:induction false} StagedAtOnce(links: Links, entries: seq<OutputEntry>, lo: nat, hi: nat)
    requires hi <= |entries|
    ensures WithoutStaged(links, entries, lo, hi) == links - TempSlots(entries, lo, hi)
    decreases hi - lo
  {
    if lo >= hi {
      assert links - TempSlots(entries, lo, hi) == links;
    } else {
      StagedAtOnce(links - {entries[lo].temporary}, entries, lo + 1, hi);
      assert TempSlots(entries, lo, hi) == {entries[lo].temporary} + TempSlots(entries, lo + 1, hi);
      assert links - TempSlots(entries, lo, hi)
          == links - {entries[lo].temporary} - TempSlots(entries, lo + 1, hi);
    }
  }

  lemma StagingIsUndone(links: Links, entries: seq<OutputEntry>, t: nat, o: Object)
    requires t < |entries| && entries[t].temporary !in links
    ensures WithoutStaged(links[entries[t].temporary := o], entries, 0, t + 1) == WithoutStaged(links, entries, 0, t)
  {
    var s := entries[t].temporary;
    StagedAtOnce(links[s := o], entries, 0, t + 1);
    StagedAtOnce(links, entries, 0, t);
    assert TempSlots(entries, 0, t + 1) == TempSlots(entries, 0, t) + {s};
    assert links[s := o] - TempSlots(entries, 0, t + 1) == links - TempSlots(entries, 0, t);
  }

  lemma StageStep(base: Volume, v: Volume, w: Volume, entries: seq<OutputEntry>, temps: seq<StagedFile>, q: Object,
                  f: StagedFile)
    requires |temps| < |entries| && Midway(base, v, entries, temps, [], 0, q)
    requires WellNamed(entries, q) && v.Valid()
    requires var s := entries[|temps|].temporary; s !in v.links && w.links == v.links[s := f.descriptor]
    requires f.descriptor !in v.nodes && f.descriptor in w.nodes && w.nodes[f.descriptor].File?
    requires forall o | o in v.nodes :: o in w.nodes && w.nodes[o] == v.nodes[o]
    requires InodesKept(v, w)
    ensures Midway(base, w, entries, temps + [f], [], 0, q)
  {
    hide Undone, Placed, Apart, FilesIn, Grew, TempsNew, NothingIn, AgreeOutside, Differing, WellNamed, InodesKept;
    StagedUndoneHere(v.links, entries, |temps|, f.descriptor);
    StagePlaced(v, w, entries, temps, q, f);
    StageKeepsTheRest(base, v, w, entries, temps, q, f);
  }

  lemma StageKeepsTheRest(base: Volume, v: Volume, w: Volume, entries: seq<OutputEntry>, temps: seq<StagedFile>,
                          q: Object, f: StagedFile)
    requires |temps| < |entries| && WellNamed(entries, q)
    requires NothingIn(v.links, q) && Grew(base, v) && TempsNew(base, temps)
    requires AgreeOutside(base.links, v.links, Differing(entries, |temps|, [], 0))
    requires var s := entries[|temps|].temporary; s !in v.links && w.links == v.links[s := f.descriptor]
    requires f.descriptor !in v.nodes && forall o | o in v.nodes :: o in w.nodes && w.nodes[o] == v.nodes[o]
    requires InodesKept(v, w)
    ensures NothingIn(w.links, q) && Grew(base, w) && TempsNew(base, temps + [f])
    ensures AgreeOutside(base.links, w.links, Differing(entries, |temps| + 1, [], 0))
  {
    hide PairNamed, KindsDiffer, Claims;
    assert EntryNamed(entries[|temps|], q);
    assert Differing(entries, |temps| + 1, [], 0) == Differing(entries, |temps|, [], 0) + {entries[|temps|].temporary};
  }

  lemma StagedUndoneHere(links: Links, entries: seq<OutputEntry>, t: nat, o: Object)
    requires t < |entries| && entries[t].temporary !in links
    ensures Undone(links[entries[t].temporary := o], entries, t + 1, [], 0) == Undone(links, entries, t, [], 0)
  {
    StagingIsUndone(links, entries, t, o);
  }

  lemma StagePlaced(v: Volume, w: Volume, entries: seq<OutputEntry>, temps: seq<StagedFile>, q: Object, f: StagedFile)
    requires |temps| < |entries| && v.Valid()
    requires Placed(v.links, entries, temps, [], 0, 0, 0) && Apart(entries, temps, [], q) && FilesIn(v.nodes, temps)
    requires var s := entries[|temps|].temporary; s !in v.links && w.links == v.links[s := f.descriptor]
    requires f.descriptor !in v.nodes && f.descriptor in w.nodes && w.nodes[f.descriptor].File?
    requires forall o | o in v.nodes :: o in w.nodes && w.nodes[o] == v.nodes[o]
    ensures Placed(w.links, entries, temps + [f], [], 0, 0, 0) && Apart(entries, temps + [f], [], q)
    ensures FilesIn(w.nodes, temps + [f])
  {
    var all := temps + [f];
    forall i {:trigger all[i]} | 0 <= i < |all|
      ensures Holds(w.links, entries[i].temporary, all[i].descriptor)
      ensures all[i].descriptor in w.nodes && w.nodes[all[i].descriptor].File?
      ensures i < |temps| ==> all[i].descriptor != f.descriptor
    {
      if i < |temps| {
        assert all[i] == temps[i];
        assert Holds(v.links, entries[i].temporary, temps[i].descriptor);
      }
    }
    forall i, j {:trigger all[i], all[j]} | 0 <= i < j < |all| ensures all[i].descriptor != all[j].descriptor {
      assert i < |temps| && all[i] == temps[i];
      if j < |temps| {
        assert all[j] == temps[j];
      }
    }
  }

  /** Rewriting staged files, or reading them, changes nothing that matters here. */
  lemma ContentsDoNotMatter(base: Volume, v: Volume, w: Volume, entries: seq<OutputEntry>, temps: seq<StagedFile>,
                            same: seq<StagedFile>, backs: seq<RetainedBackup>, published: nat, q: Object)
    requires |temps| <= |entries| && published <= |entries| && IndicesOk(entries, backs)
    requires Midway(base, v, entries, temps, backs, published, q)
    requires w.links == v.links && InodesKept(v, w)
    requires forall o | o in v.nodes :: o in w.nodes && w.nodes[o].Directory? == v.nodes[o].Directory?
    requires |same| == |temps| && forall i {:trigger same[i]} | 0 <= i < |temps| :: same[i].descriptor == temps[i].descriptor
    ensures Midway(base, w, entries, same, backs, published, q)
  {
    hide Undone, WithoutTargets, Differing, Apart;
    ApartAlike(entries, temps, same, backs, q);
  }

  lemma ApartAlike(entries: seq<OutputEntry>, temps: seq<StagedFile>, same: seq<StagedFile>,
                   backs: seq<RetainedBackup>, q: Object)
    requires |temps| <= |entries| && IndicesOk(entries, backs) && Apart(entries, temps, backs, q)
    requires |same| == |temps| && forall i {:trigger same[i]} | 0 <= i < |temps| :: same[i].descriptor == temps[i].descriptor
    ensures Apart(entries, same, backs, q)
  {
  }

  /** The next temporary name is still free. */
  lemma TemporaryIsFree(base: Volume, v: Volume, entries: seq<OutputEntry>, temps: seq<StagedFile>, q: Object)
    requires |temps| < |entries| && Midway(base, v, entries, temps, [], 0, q)
    requires Prepared(base, entries) && WellNamed(entries, q) && Collisionless(entries)
    ensures entries[|temps|].temporary !in v.links
  {
    hide Undone, Placed, Apart;
    var t := entries[|temps|];
    assert EntryPrepared(base, t);
    forall i | 0 <= i < |temps| ensures t.temporary != entries[i].temporary {
      assert PairNamed(t, entries[i]);
    }
    assert t.temporary !in Differing(entries, |temps|, [], 0);
  }

  // --- Step: move one original to its backup ----------------------------------

  /** The files that the backup step meets are exactly those from before. */
  lemma TargetIsOriginal(base: Volume, v: Volume, entries: seq<OutputEntry>, temps: seq<StagedFile>,
                         backs: seq<RetainedBackup>, q: Object, e: OutputEntry)
    requires |temps| == |entries| && IndicesOk(entries, backs) && e in entries
    requires Midway(base, v, entries, temps, backs, 0, q) && Prepared(base, entries) && WellNamed(entries, q)
    requires e.target in v.links && e.hadExistingTarget
    ensures e.target !in Differing(entries, |temps|, backs, 0)
    ensures Holds(base.links, e.target, v.links[e.target])
  {
    hide Undone, Placed, Apart;
    assert EntryPrepared(base, e);
    forall i | 0 <= i < |backs|
      ensures e.target != Entry(entries, backs, i).target && e.target != Entry(entries, backs, i).backup
    {
      assert EntryPrepared(base, entries[backs[i].index]);
    }
    forall i | 0 <= i < |temps| ensures e.target != entries[i].temporary {
      assert EntryPrepared(base, entries[i]);
    }
  }

  lemma BackupStep(base: Volume, v: Volume, w: Volume, entries: seq<OutputEntry>, temps: seq<StagedFile>,
                   backs: seq<RetainedBackup>, q: Object, b: RetainedBackup)
    requires |temps| == |entries| && IndicesOk(entries, backs) && b.index < |entries|
    requires Midway(base, v, entries, temps, backs, 0, q) && Prepared(base, entries) && WellNamed(entries, q)
    requires base.Valid()
    requires var e := entries[b.index];
             && e.hadExistingTarget && Holds(v.links, e.target, b.descriptor) && e.backup !in v.links
             && w.links == Moved(v.links, e.target, e.backup)
    requires b.descriptor in v.nodes && v.nodes[b.descriptor].File?
    requires w.nodes == v.nodes && InodesKept(v, w)
    ensures IndicesOk(entries, backs + [b]) && Midway(base, w, entries, temps, backs + [b], 0, q)
  {
    hide Undone, Placed, Apart, Differing, WithoutTargets, TargetsFree, BackupsAreOriginals, Prepared, WellNamed,
         FilesIn, TempsNew, Grew, NothingIn, AgreeOutside, BackupFilesIn;
    assert WithoutTargets(v.links, entries, 0) == v.links && WithoutTargets(w.links, entries, 0) == w.links by {
      WithoutNoTargets(v.links, entries);
      WithoutNoTargets(w.links, entries);
    }
    TargetIsOriginal(base, v, entries, temps, backs, q, entries[b.index]);
    BackupIsUndone(base, v, w, entries, temps, backs, b);
    BackupKeepsPlaces(base, v, w, entries, temps, backs, q, b);
    BackupKeepsApart(base, v, entries, temps, backs, q, b);
    BackupIsOriginal(base, entries, backs, b);
    BackupKeepsTargetsFree(base, v, w, entries, temps, backs, q, b);
    BackupKeepsTheRest(base, v, w, entries, temps, backs, q, b);
  }

  lemma WithoutNoTargets(links: Links, entries: seq<OutputEntry>)
    ensures WithoutTargets(links, entries, 0) == links
  {
  }

  lemma BackupKeepsTheRest(base: Volume, v: Volume, w: Volume, entries: seq<OutputEntry>, temps: seq<StagedFile>,
                           backs: seq<RetainedBackup>, q: Object, b: RetainedBackup)
    requires |temps| == |entries| && IndicesOk(entries, backs) && b.index < |entries|
    requires NothingIn(v.links, q) && BackupFilesIn(v.nodes, backs) && Grew(base, v) && WellNamed(entries, q)
    requires AgreeOutside(base.links, v.links, Differing(entries, |temps|, backs, 0))
    requires var e := entries[b.index]; e.target in v.links && w.links == Moved(v.links, e.target, e.backup)
    requires b.descriptor in v.nodes && v.nodes[b.descriptor].File?
    requires w.nodes == v.nodes && InodesKept(v, w)
    ensures IndicesOk(entries, backs + [b])
    ensures NothingIn(w.links, q) && BackupFilesIn(w.nodes, backs + [b]) && Grew(base, w)
    ensures AgreeOutside(base.links, w.links, Differing(entries, |temps|, backs + [b], 0))
  {
    hide Differing;
    assert EntryNamed(entries[b.index], q);
    DifferingAfterBackup(entries, |temps|, backs, b);
  }

  lemma DifferingAfterBackup(entries: seq<OutputEntry>, staged: nat, backs: seq<RetainedBackup>, b: RetainedBackup)
    requires staged <= |entries| && IndicesOk(entries, backs) && b.index < |entries|
    ensures IndicesOk(entries, backs + [b])
    ensures var e := entries[b.index];
            Differing(entries, staged, backs + [b], 0) == Differing(entries, staged, backs, 0) + {e.target, e.backup}
  {
    var all := backs + [b];
    assert forall i | 0 <= i < |backs| :: Entry(entries, all, i) == Entry(entries, backs, i) && all[i] == backs[i];
    assert Entry(entries, all, |backs|) == entries[b.index];
    assert (set i | 0 <= i < |all| :: Entry(entries, all, i).target)
        == (set i | 0 <= i < |backs| :: Entry(entries, backs, i).target) + {entries[b.index].target};
    assert (set i | 0 <= i < |all| :: Entry(entries, all, i).backup)
        == (set i | 0 <= i < |backs| :: Entry(entries, backs, i).backup) + {entries[b.index].backup};
  }

  lemma BackupIsUndone(base: Volume, v: Volume, w: Volume, entries: seq<OutputEntry>, temps: seq<StagedFile>,
                       backs: seq<RetainedBackup>, b: RetainedBackup)
    requires |temps| == |entries| && IndicesOk(entries, backs) && b.index < |entries|
    requires Undone(v.links, entries, |temps|, backs, 0) == base.links
    requires var e := entries[b.index];
             && Holds(v.links, e.target, b.descriptor) && e.backup !in v.links
             && w.links == Moved(v.links, e.target, e.backup)
    ensures IndicesOk(entries, backs + [b])
    ensures Undone(w.links, entries, |temps|, backs + [b], 0) == base.links
  {
    var e := entries[b.index];
    var all := backs + [b];
    assert all[..|backs|] == backs && Entry(entries, all, |backs|) == e;
    assert (w.links - {e.backup})[e.target := b.descriptor] == v.links;
    assert Restored(w.links, entries, all) == Restored(v.links, entries, backs);
  }

  lemma BackupKeepsPlaces(base: Volume, v: Volume, w: Volume, entries: seq<OutputEntry>, temps: seq<StagedFile>,
                          backs: seq<RetainedBackup>, q: Object, b: RetainedBackup)
    requires |temps| == |entries| && IndicesOk(entries, backs) && b.index < |entries|
    requires Placed(v.links, entries, temps, backs, 0, 0, |backs|) && Prepared(base, entries)
    requires var e := entries[b.index];
             && e.hadExistingTarget && Holds(v.links, e.target, b.descriptor) && e.backup !in v.links
             && w.links == Moved(v.links, e.target, e.backup)
    ensures IndicesOk(entries, backs + [b])
    ensures Placed(w.links, entries, temps, backs + [b], 0, 0, |backs| + 1)
  {
    var e := entries[b.index];
    var all := backs + [b];
    assert EntryPrepared(base, e);
    forall i {:trigger temps[i]} | 0 <= i < |temps| ensures Holds(w.links, entries[i].temporary, temps[i].descriptor) {
      assert EntryPrepared(base, entries[i]);
      assert Holds(v.links, entries[i].temporary, temps[i].descriptor);
    }
    forall i {:trigger all[i]} | 0 <= i < |all| ensures Holds(w.links, Entry(entries, all, i).backup, all[i].descriptor) {
      assert EntryPrepared(base, entries[all[i].index]);
      if i < |backs| {
        assert all[i] == backs[i];
        assert Holds(v.links, Entry(entries, backs, i).backup, backs[i].descriptor);
      }
    }
  }

  lemma BackupKeepsApart(base: Volume, v: Volume, entries: seq<OutputEntry>, temps: seq<StagedFile>,
                         backs: seq<RetainedBackup>, q: Object, b: RetainedBackup)
    requires |temps| == |entries| && IndicesOk(entries, backs) && b.index < |entries| && base.Valid()
    requires Apart(entries, temps, backs, q) && Prepared(base, entries) && WellNamed(entries, q)
    requires Placed(v.links, entries, temps, backs, 0, 0, |backs|)
    requires TempsNew(base, temps) && BackupsAreOriginals(base, entries, backs)
    requires TargetsFree(v.links, entries, backs, |backs|)
    requires var e := entries[b.index];
             && e.hadExistingTarget && Holds(v.links, e.target, b.descriptor) && e.backup !in v.links
             && Holds(base.links, e.target, b.descriptor)
    ensures IndicesOk(entries, backs + [b])
    ensures Apart(entries, temps, backs + [b], q)
  {
    assert EntryPrepared(base, entries[b.index]) && EntryNamed(entries[b.index], q);
    assert b.descriptor in base.nodes;
    BackupNamesDiffer(base, v, entries, temps, backs, q, b);
    ApartGrows(entries, temps, backs, q, b);
  }

  lemma ApartGrows(entries: seq<OutputEntry>, temps: seq<StagedFile>, backs: seq<RetainedBackup>, q: Object,
                   b: RetainedBackup)
    requires |temps| == |entries| && IndicesOk(entries, backs) && b.index < |entries|
    requires Apart(entries, temps, backs, q) && entries[b.index].target != entries[b.index].backup
    requires forall i {:trigger backs[i]} {:trigger Entry(entries, backs, i)} | 0 <= i < |backs| ::
               && Entry(entries, backs, i).backup !in {entries[b.index].backup, entries[b.index].target}
               && Entry(entries, backs, i).target !in {entries[b.index].backup, entries[b.index].target}
    requires forall i {:trigger entries[i]} | 0 <= i < |temps| :: entries[i].temporary != entries[b.index].target
    requires forall i {:trigger temps[i]} | 0 <= i < |temps| :: temps[i].descriptor != b.descriptor
    ensures IndicesOk(entries, backs + [b])
    ensures Apart(entries, temps, backs + [b], q)
  {
    hide FilesApart;
    FilesApartGrow(temps, backs, b);
    var all := backs + [b];
    assert forall i {:trigger all[i]} {:trigger Entry(entries, all, i)} | 0 <= i < |backs| ::
        Entry(entries, all, i) == Entry(entries, backs, i) && all[i] == backs[i];
    assert Entry(entries, all, |backs|) == entries[b.index] && all[|backs|] == b;
  }

  lemma FilesApartGrow(temps: seq<StagedFile>, backs: seq<RetainedBackup>, b: RetainedBackup)
    requires FilesApart(temps, backs)
    requires forall i {:trigger temps[i]} | 0 <= i < |temps| :: temps[i].descriptor != b.descriptor
    ensures FilesApart(temps, backs + [b])
  {
  }

  lemma BackupIsOriginal(base: Volume, entries: seq<OutputEntry>, backs: seq<RetainedBackup>, b: RetainedBackup)
    requires IndicesOk(entries, backs) && b.index < |entries| && base.Valid()
    requires BackupsAreOriginals(base, entries, backs)
    requires entries[b.index].hadExistingTarget && Holds(base.links, entries[b.index].target, b.descriptor)
    ensures IndicesOk(entries, backs + [b])
    ensures BackupsAreOriginals(base, entries, backs + [b])
  {
  }

  lemma BackupNamesDiffer(base: Volume, v: Volume, entries: seq<OutputEntry>, temps: seq<StagedFile>,
                          backs: seq<RetainedBackup>, q: Object, b: RetainedBackup)
    requires |temps| == |entries| && IndicesOk(entries, backs) && b.index < |entries|
    requires Prepared(base, entries) && BackupsAreOriginals(base, entries, backs)
    requires Placed(v.links, entries, temps, backs, 0, 0, |backs|)
    requires TargetsFree(v.links, entries, backs, |backs|)
    requires var e := entries[b.index]; e.hadExistingTarget && e.target in v.links && e.backup !in v.links
    ensures forall i {:trigger backs[i]} {:trigger Entry(entries, backs, i)} | 0 <= i < |backs| ::
              && Entry(entries, backs, i).backup !in {entries[b.index].backup, entries[b.index].target}
              && Entry(entries, backs, i).target !in {entries[b.index].backup, entries[b.index].target}
    ensures forall i {:trigger entries[i]} | 0 <= i < |temps| :: entries[i].temporary != entries[b.index].target
  {
    var e := entries[b.index];
    assert EntryPrepared(base, e);
    forall i {:trigger backs[i]} {:trigger Entry(entries, backs, i)} | 0 <= i < |backs|
      ensures Entry(entries, backs, i).backup !in {e.backup, e.target}
      ensures Entry(entries, backs, i).target !in {e.backup, e.target}
    {
      assert EntryPrepared(base, entries[backs[i].index]);
    }
    forall i {:trigger entries[i]} | 0 <= i < |temps| ensures entries[i].temporary != e.target {
      assert EntryPrepared(base, entries[i]);
    }
  }

  lemma BackupKeepsTargetsFree(base: Volume, v: Volume, w: Volume, entries: seq<OutputEntry>, temps: seq<StagedFile>,
                               backs: seq<RetainedBackup>, q: Object, b: RetainedBackup)
    requires IndicesOk(entries, backs) && b.index < |entries|
    requires TargetsFree(v.links, entries, backs, |backs|) && BackupsAreOriginals(base, entries, backs)
    requires Prepared(base, entries) && WellNamed(entries, q)
    requires var e := entries[b.index];
             && e.target in v.links && w.links == Moved(v.links, e.target, e.backup)
    ensures IndicesOk(entries, backs + [b])
    ensures TargetsFree(w.links, entries, backs + [b], |backs| + 1)
  {
    var e := entries[b.index];
    var all := backs + [b];
    assert EntryPrepared(base, e) && EntryNamed(e, q);
    forall i | 0 <= i < |all| ensures Entry(entries, all, i).target !in w.links {
      if i < |backs| {
        assert all[i] == backs[i];
        assert Entry(entries, backs, i).target !in v.links;
      }
    }
  }

  /** The backups so far are those of earlier outputs. */
  ghost predicate BackedBefore(backs: seq<RetainedBackup>, n: nat) {
    forall i {:trigger backs[i]} | 0 <= i < |backs| :: backs[i].index < n
  }

  /** Every existing target of the first `n` outputs has its backup. */
  ghost predicate AllBackedUp(entries: seq<OutputEntry>, backs: seq<RetainedBackup>, n: nat)
    requires n <= |entries|
  {
    forall j {:trigger entries[j]} | 0 <= j < n && entries[j].hadExistingTarget :: HasBackup(backs, j)
  }

  ghost predicate HasBackup(backs: seq<RetainedBackup>, j: nat) {
    exists i :: 0 <= i < |backs| && backs[i].index == j
  }

  /** The next original is at its target, and its backup name is free. */
  lemma BackupIsPossible(base: Volume, v: Volume, entries: seq<OutputEntry>, temps: seq<StagedFile>,
                         backs: seq<RetainedBackup>, q: Object, n: nat)
    requires |temps| == |entries| && IndicesOk(entries, backs) && n < |entries| && entries[n].hadExistingTarget
    requires Midway(base, v, entries, temps, backs, 0, q) && Prepared(base, entries) && WellNamed(entries, q)
    requires Collisionless(entries) && BackedBefore(backs, n)
    ensures var e := entries[n];
            && e.target in v.links && v.links[e.target] in v.nodes && v.nodes[v.links[e.target]].File?
            && e.backup !in v.links
  {
    hide Undone, Placed, Apart;
    var e := entries[n];
    assert EntryPrepared(base, e) && EntryNamed(e, q);
    forall i | 0 <= i < |backs|
      ensures {e.target, e.backup} !! {Entry(entries, backs, i).target, Entry(entries, backs, i).backup}
    {
      var b := entries[backs[i].index];
      assert EntryPrepared(base, b) && PairNamed(b, e);
    }
    forall i | 0 <= i < |temps| ensures entries[i].temporary !in {e.target, e.backup} {
      assert EntryPrepared(base, entries[i]);
      if i != n {
        assert PairNamed(entries[i], e);
      }
    }
    assert {e.target, e.backup} !! Differing(entries, |temps|, backs, 0);
  }

  // --- Step: publish one output -----------------------------------------------

  lemma {:induction false} WithoutTargetsCommutes(links: Links, entries: seq<OutputEntry>, n: nat, s: Slot)
    requires n <= |entries|
    ensures WithoutTargets(links - {s}, entries, n) == WithoutTargets(links, entries, n) - {s}
  {
    if n > 0 {
      var t := entries[n - 1].target;
      assert links - {s} - {t} == links - {t} - {s};
      WithoutTargetsCommutes(links - {t}, entries, n - 1, s);
    }
  }

  lemma {:induction false} RestoredCommutes(links: Links, entries: seq<OutputEntry>, backs: seq<RetainedBackup>, s: Slot)
    requires IndicesOk(entries, backs)
    requires forall i | 0 <= i < |backs| :: Entry(entries, backs, i).target != s
    ensures Restored(links - {s}, entries, backs) == Restored(links, entries, backs) - {s}
    decreases |backs|
  {
    if backs != [] {
      var last := |backs| - 1;
      var e, d, rest := Entry(entries, backs, last), backs[last].descriptor, backs[..last];
      assert (links - {s} - {e.backup})[e.target := d] == (links - {e.backup})[e.target := d] - {s};
      forall i | 0 <= i < |rest| ensures Entry(entries, rest, i).target != s {
        assert Entry(entries, rest, i) == Entry(entries, backs, i);
      }
      RestoredCommutes((links - {e.backup})[e.target := d], entries, rest, s);
    }
  }

  lemma {:induction false} PublishIsUndone(base: Volume, v: Volume, w: Volume, entries: seq<OutputEntry>,
                                           temps: seq<StagedFile>, backs: seq<RetainedBackup>, p: nat, q: Object)
    requires |temps| == |entries| && IndicesOk(entries, backs) && p < |temps|
    requires Undone(v.links, entries, |temps|, backs, p) == base.links
    requires Apart(entries, temps, backs, q)
    requires var e := entries[p];
             e.temporary in v.links && e.target !in v.links && w.links == Moved(v.links, e.temporary, e.target)
    ensures Undone(w.links, entries, |temps|, backs, p + 1) == base.links
    ensures WithoutTargets(w.links, entries, p + 1) == WithoutTargets(v.links, entries, p) - {entries[p].temporary}
  {
    var e := entries[p];
    assert w.links - {e.target} == v.links - {e.temporary};
    WithoutTargetsCommutes(v.links, entries, p, e.temporary);
    assert temps[p] in temps;
    forall i | 0 <= i < |backs| ensures Entry(entries, backs, i).target != e.temporary {
      assert entries[backs[i].index] == Entry(entries, backs, i);
    }
    RestoredCommutes(WithoutTargets(v.links, entries, p), entries, backs, e.temporary);
  }

  lemma PublishKeepsPlaces(base: Volume, v: Volume, w: Volume, entries: seq<OutputEntry>, temps: seq<StagedFile>,
                           backs: seq<RetainedBackup>, p: nat, q: Object)
    requires |temps| == |entries| && IndicesOk(entries, backs) && p < |temps|
    requires Placed(v.links, entries, temps, backs, p, p, |backs|) && Apart(entries, temps, backs, q)
    requires var e := entries[p]; e.target !in v.links && e.temporary in v.links
                                  && w.links == Moved(v.links, e.temporary, e.target)
    ensures Placed(w.links, entries, temps, backs, p + 1, p + 1, |backs|)
  {
    var e := entries[p];
    assert Holds(v.links, e.temporary, temps[p].descriptor);
    forall i {:trigger temps[i]} | 0 <= i < p + 1 ensures Holds(w.links, entries[i].target, temps[i].descriptor) {
      if i < p {
        assert Holds(v.links, entries[i].target, temps[i].descriptor);
      }
    }
    forall i {:trigger temps[i]} | p + 1 <= i < |temps|
      ensures Holds(w.links, entries[i].temporary, temps[i].descriptor)
    {
      assert Holds(v.links, entries[i].temporary, temps[i].descriptor);
    }
    forall i {:trigger backs[i]} | 0 <= i < |backs|
      ensures Holds(w.links, Entry(entries, backs, i).backup, backs[i].descriptor)
    {
      assert Holds(v.links, Entry(entries, backs, i).backup, backs[i].descriptor);
    }
  }

  lemma PublishAgrees(base: Volume, v: Volume, w: Volume, entries: seq<OutputEntry>, temps: seq<StagedFile>,
                      backs: seq<RetainedBackup>, p: nat)
    requires |temps| == |entries| && IndicesOk(entries, backs) && p < |temps|
    requires AgreeOutside(base.links, v.links, Differing(entries, |temps|, backs, p)) && Prepared(base, entries)
    requires var e := entries[p]; e.temporary in v.links && w.links == Moved(v.links, e.temporary, e.target)
    ensures AgreeOutside(base.links, w.links, Differing(entries, |temps|, backs, p + 1))
  {
    var e := entries[p];
    assert EntryPrepared(base, e);
    forall s | s !in Differing(entries, |temps|, backs, p + 1)
      ensures (s in base.links <==> s in w.links) && (s in base.links ==> base.links[s] == w.links[s])
    {
      assert s != e.target;
      if s != e.temporary {
        assert s !in Differing(entries, |temps|, backs, p);
      }
    }
  }

  lemma PublishStep(base: Volume, v: Volume, w: Volume, entries: seq<OutputEntry>, temps: seq<StagedFile>,
                    backs: seq<RetainedBackup>, p: nat, q: Object)
    requires |temps| == |entries| && IndicesOk(entries, backs) && p < |temps|
    requires Midway(base, v, entries, temps, backs, p, q) && Prepared(base, entries) && WellNamed(entries, q)
    requires var e := entries[p];
             e.temporary in v.links && e.target !in v.links && w.links == Moved(v.links, e.temporary, e.target)
    requires w.nodes == v.nodes && InodesKept(v, w)
    ensures Midway(base, w, entries, temps, backs, p + 1, q)
  {
    hide Undone, Placed, Apart, Differing, WithoutTargets, AgreeOutside, Prepared, BackupsAreOriginals;
    assert EntryNamed(entries[p], q);
    PublishIsUndone(base, v, w, entries, temps, backs, p, q);
    PublishKeepsPlaces(base, v, w, entries, temps, backs, p, q);
    PublishAgrees(base, v, w, entries, temps, backs, p);
  }

  lemma {:induction false} OthersStay(links: Links, entries: seq<OutputEntry>, n: nat, s: Slot)
    requires n <= |entries| && forall i | 0 <= i < n :: entries[i].target != s
    ensures s in WithoutTargets(links, entries, n) <==> s in links
  {
    if n > 0 {
      OthersStay(links - {entries[n - 1].target}, entries, n - 1, s);
    }
  }

  /** With all originals out of the way, the next target is free. */
  lemma TargetIsFree(base: Volume, v: Volume, entries: seq<OutputEntry>, temps: seq<StagedFile>,
                     backs: seq<RetainedBackup>, p: nat, q: Object)
    requires |temps| == |entries| && IndicesOk(entries, backs) && p < |entries|
    requires Midway(base, v, entries, temps, backs, p, q) && Prepared(base, entries)
    requires Collisionless(entries) && AllBackedUp(entries, backs, |entries|)
    ensures entries[p].target !in v.links
  {
    hide Undone, Placed, Apart, WithoutTargets;
    var e := entries[p];
    assert EntryPrepared(base, e);
    if e.hadExistingTarget {
      assert HasBackup(backs, p);
      var i :| 0 <= i < |backs| && backs[i].index == p;
      assert Entry(entries, backs, i).target == e.target;
      OthersStay(v.links, entries, p, e.target);
    } else {
      forall i | 0 <= i < |backs|
        ensures e.target !in {Entry(entries, backs, i).target, Entry(entries, backs, i).backup}
      {
        var b := entries[backs[i].index];
        assert Holds(base.links, Entry(entries, backs, i).target, backs[i].descriptor);
      }
      assert e.target !in Differing(entries, |temps|, backs, p);
    }
  }
}
