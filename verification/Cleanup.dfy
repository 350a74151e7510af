/**
 Giving back what a transaction made.  A name is first moved into the private
 quarantine, where nobody else can change it; only then is the object behind it
 identified, and removed, restored or preserved.
*/
module Cleanup {
  import opened Wrappers
  import opened Namespace

  datatype CreatedDirectory = CreatedDirectory(slot: Slot, cleanup: Slot, identity: Option<Inode>)

  /** The file stands at its name and the name in the quarantine is free. */
  ghost predicate Claimable(v: Volume, source: Slot, claim: Slot, owner: Object) {
    Holds(v.links, source, owner) && claim !in v.links && owner in v.nodes && v.nodes[owner].File?
  }

  /** Nothing but names differs. */
  ghost predicate OnlyLinks(v: Volume, w: Volume) {
    w == v.(links := w.links)
  }

  datatype Claiming = Owned | Nothing | Unclaimed

  /** A blocked restore claimed the file and could not put it at its target. */
  datatype Restoring = AtTarget | Blocked | NotClaimed

  /**
   Moves `source` to `claim` and checks that the object that arrived is the expected
   one.  The open descriptor on `owner` keeps its inode number from being recycled,
   so equal numbers mean the same file.
  */
  method ClaimOwnedFile(k: Kernel, source: Slot, claim: Slot, expected: Inode, missingIsClean: bool, ghost owner: Object)
    returns (r: Claiming)
    requires k.Valid() && claim.directory in k.shield && source.directory in k.volume.nodes
    requires owner in k.volume.open && owner in k.recorded && k.recorded[owner] == expected
    requires k.calm ==> AllKeptByMove(k.watched, k.volume.links, source, claim)
    modifies k`volume, k`calm, k`touched, k`faults
    ensures k.Valid() && k.volume.open == old(k.volume.open) && old(k.volume.nodes.Keys) <= k.volume.nodes.Keys
    ensures old(k.faults) <= k.faults && (r != Unclaimed ==> k.faults == old(k.faults))
    ensures r == Owned ==> Holds(k.volume.links, claim, owner)
    ensures k.calm ==> old(k.calm) && OnlyLinks(old(k.volume), k.volume)
    ensures k.calm && r == Owned ==>
              && Holds(old(k.volume.links), source, owner) && claim !in old(k.volume.links)
              && k.volume.links == Moved(old(k.volume.links), source, claim)
    ensures k.calm && r == Nothing ==>
              missingIsClean && k.volume.links == old(k.volume.links) && source !in k.volume.links
    ensures k.calm ==> AgreeOutside(old(k.volume.links), k.volume.links, {source, claim})
    ensures k.calm ==> KeepsAllBut(old(k.volume.links), k.volume.links, {source})
    ensures k.calm && k.faults == old(k.faults) && Claimable(old(k.volume), source, claim, owner) ==> r == Owned
    ensures k.calm && k.faults == old(k.faults) && source !in old(k.volume.links) && missingIsClean ==> r == Nothing
    ensures k.calm && k.faults == old(k.faults) && r != Owned ==> k.volume.links == old(k.volume.links)
  {
    hide Kernel.Valid, AllKeptByMove, AgreeOutside, KeepsAllBut;
    VolumeIsValid(k);
    SameNamesAgree(k.volume.links, {source, claim}, {source});
    var moving := k.Rename(source, claim);
    if moving != Done {
      return if moving == Missing && missingIsClean then Nothing else Unclaimed;
    }
    if k.calm {
      MovedAgrees(old(k.volume.links), source, claim);
      MovedBack(old(k.volume.links), source, claim);
      MoveBackIsKept(k.watched, old(k.volume.links), source, claim);
    }
    var owned := CheckClaim(k, source, claim, expected, owner);
    r := if owned then Owned else Unclaimed;
  }

  /** Identifies what was claimed, and sends anything but the expected file back. */
  method CheckClaim(k: Kernel, source: Slot, claim: Slot, expected: Inode, ghost owner: Object) returns (ok: bool)
    requires k.Valid() && claim.directory in k.shield && source.directory in k.volume.nodes
    requires owner in k.volume.open && owner in k.recorded && k.recorded[owner] == expected
    requires k.calm ==> AllKeptByMove(k.watched, k.volume.links, claim, source)
    modifies k`volume, k`calm, k`touched, k`faults
    ensures k.Valid() && k.volume.open == old(k.volume.open) && old(k.volume.nodes.Keys) <= k.volume.nodes.Keys
    ensures old(k.faults) <= k.faults && (ok ==> k.faults == old(k.faults))
    ensures ok ==> Holds(k.volume.links, claim, owner)
    ensures k.calm ==> old(k.calm) && OnlyLinks(old(k.volume), k.volume)
    ensures k.calm && ok ==> k.volume == old(k.volume)
    ensures k.calm && !ok ==>
              || k.volume.links == old(k.volume.links)
              || (claim in old(k.volume.links) && k.volume.links == Moved(old(k.volume.links), claim, source))
    ensures k.calm && !ok && k.faults == old(k.faults) && claim in old(k.volume.links) ==>
              source !in old(k.volume.links) ==> k.volume.links == Moved(old(k.volume.links), claim, source)
    ensures k.calm && k.faults == old(k.faults) && Holds(old(k.volume.links), claim, owner) ==>
              owner in old(k.volume.nodes) && old(k.volume.nodes)[owner].File? ==> ok
  {
    hide Kernel.Valid, AllKeptByMove;
    VolumeIsValid(k);
    var actual := k.Identify(claim);
    if claim in k.volume.links {
      EqualIdentity(k, claim, owner);
    }
    ok := actual.Some? && actual.value == expected;
    if !ok {
      var _ := k.Rename(claim, source);
    }
  }

  lemma SameNamesAgree(links: Links, changed: set<Slot>, fewer: set<Slot>)
    ensures AgreeOutside(links, links, changed) && KeepsAllBut(links, links, fewer)
  {
  }

  /** Moving a name away and back changes nothing. */
  lemma MovedBack(links: Links, src: Slot, via: Slot)
    requires src in links && via !in links
    ensures Moved(Moved(links, src, via), via, src) == links
    ensures KeepsAllBut(links, Moved(links, src, via), {src})
  {
  }

  /** An open descriptor keeps its inode number to itself. */
  lemma EqualIdentity(k: Kernel, s: Slot, owner: Object)
    requires k.Valid() && s in k.volume.links && owner in k.volume.open && owner in k.recorded
    ensures k.volume.links[s] in k.volume.inode && owner in k.volume.inode
    ensures k.volume.inode[k.volume.links[s]] == k.recorded[owner] <==> k.volume.links[s] == owner
  {
    assert {owner, k.volume.links[s]} <= k.volume.Live();
  }

  method RemoveOwnedFile(k: Kernel, source: Slot, claim: Slot, expected: Inode, missingIsClean: bool, ghost owner: Object)
    returns (ok: bool)
    requires k.Valid() && claim.directory in k.shield && source.directory in k.volume.nodes
    requires owner in k.volume.open && owner in k.recorded && k.recorded[owner] == expected
    requires owner in k.staged + k.retired
    requires k.calm ==> AllKeptByMove(k.watched, k.volume.links, source, claim)
    requires k.calm ==> forall w | w in k.watched :: w.file != owner
    modifies k`volume, k`calm, k`touched, k`faults, k`unlinked
    ensures k.Valid() && k.volume.open == old(k.volume.open) && old(k.volume.nodes.Keys) <= k.volume.nodes.Keys
    ensures old(k.faults) <= k.faults && (ok ==> k.faults == old(k.faults))
    ensures k.calm ==> old(k.calm) && OnlyLinks(old(k.volume), k.volume)
    ensures k.unlinked == old(k.unlinked) || k.unlinked == old(k.unlinked) + {owner}
    ensures k.calm && ok ==> k.volume.links == old(k.volume.links) - {source}
    ensures k.calm && ok && source in old(k.volume.links) ==>
              Holds(old(k.volume.links), source, owner) && owner in k.unlinked
    ensures k.calm ==> AgreeOutside(old(k.volume.links), k.volume.links, {source, claim})
    ensures k.calm ==> KeepsAllBut(old(k.volume.links), k.volume.links, {source})
    ensures k.calm && k.faults == old(k.faults) && Claimable(old(k.volume), source, claim, owner) ==> ok
  {
    hide Kernel.Valid, AgreeOutside, KeepsAllBut, AllKeptByMove;
    var claimed := ClaimOwnedFile(k, source, claim, expected, missingIsClean, owner);
    match claimed {
      case Unclaimed => ok := false;
      case Nothing =>
        ok := true;
        if k.calm {
          assert k.volume.links - {source} == k.volume.links;
        }
      case Owned =>
        ok := k.Unlink(claim);
        if k.calm {
          ClaimedAndRemoved(old(k.volume.links), source, claim);
        }
    }
  }

  lemma ClaimedAndRemoved(links: Links, source: Slot, claim: Slot)
    requires source in links && claim !in links
    ensures Moved(links, source, claim) - {claim} == links - {source}
    ensures AgreeOutside(links, links - {source}, {source, claim}) && KeepsAllBut(links, links - {source}, {source})
  {
  }

  /** Under interference too, a file that was claimed is at its target, back where it was, or still at its claim. */
  method RestoreOwnedFile(k: Kernel, source: Slot, claim: Slot, target: Slot, expected: Inode, ghost owner: Object)
    returns (r: Restoring)
    requires k.Valid() && claim.directory in k.shield
    requires source.directory in k.volume.nodes && target.directory in k.volume.nodes
    requires owner in k.volume.open && owner in k.recorded && k.recorded[owner] == expected
    requires k.calm ==> Holds(k.volume.links, source, owner)
    requires k.calm ==> TravelsWithin(k.watched, owner, {source, claim, target})
    modifies k`volume, k`calm, k`touched, k`faults
    ensures k.Valid() && k.volume.open == old(k.volume.open) && old(k.volume.nodes.Keys) <= k.volume.nodes.Keys
    ensures old(k.faults) <= k.faults
    ensures r == AtTarget ==> Holds(k.volume.links, target, owner)
    ensures r == Blocked ==> Holds(k.volume.links, source, owner) || Holds(k.volume.links, claim, owner)
    ensures k.calm ==> old(k.calm) && OnlyLinks(old(k.volume), k.volume)
    ensures k.calm && r == AtTarget ==>
              && claim !in old(k.volume.links)
              && k.volume.links == (old(k.volume.links) - {source})[target := owner]
    ensures k.calm ==> AgreeOutside(old(k.volume.links), k.volume.links, {source, claim, target})
    ensures k.calm && k.faults == old(k.faults) && target !in old(k.volume.links) && target != claim ==>
              Claimable(old(k.volume), source, claim, owner) ==> r == AtTarget
    ensures k.calm && k.faults == old(k.faults) && r != AtTarget ==> k.volume.links == old(k.volume.links)
  {
    hide Kernel.Valid, AgreeOutside, KeepsAllBut, TravelsWithin, AllKeptByMove;
    if k.calm {
      JourneyIsKept(k.watched, k.volume.links, source, claim, owner, {source, claim, target});
    }
    var claimed := ClaimOwnedFile(k, source, claim, expected, false, owner);
    if claimed != Owned {
      if k.calm {
        AgreementWidens(old(k.volume.links), k.volume.links, {source, claim}, {source, claim, target});
      }
      return NotClaimed;
    }
    ghost var claimedLinks := k.volume.links;
    if k.calm {
      MovedTwice(old(k.volume.links), source, claim, target);
      MovedBack(old(k.volume.links), source, claim);
    }
    var placed := PlaceClaimedFile(k, source, claim, target, owner);
    r := if placed then AtTarget else Blocked;
    if k.calm {
      AgreementWidens(old(k.volume.links), claimedLinks, {source, claim}, {source, claim, target});
      AgreementIsTransitive(old(k.volume.links), claimedLinks, k.volume.links, {source, claim, target});
    }
  }

  /** Moves a claimed file to its target, or else back to where it was claimed. */
  method PlaceClaimedFile(k: Kernel, source: Slot, claim: Slot, target: Slot, ghost owner: Object) returns (ok: bool)
    requires k.Valid() && claim.directory in k.shield && Holds(k.volume.links, claim, owner)
    requires source.directory in k.volume.nodes && target.directory in k.volume.nodes
    requires k.calm ==> TravelsWithin(k.watched, owner, {source, claim, target})
    modifies k`volume, k`calm, k`touched, k`faults
    ensures k.Valid() && k.volume.open == old(k.volume.open) && old(k.volume.nodes.Keys) <= k.volume.nodes.Keys
    ensures old(k.faults) <= k.faults
    ensures k.calm ==> old(k.calm) && OnlyLinks(old(k.volume), k.volume)
    ensures if ok then Holds(k.volume.links, target, owner)
            else Holds(k.volume.links, source, owner) || Holds(k.volume.links, claim, owner)
    ensures k.calm && ok ==> k.volume.links == Moved(old(k.volume.links), claim, target)
    ensures k.calm ==> AgreeOutside(old(k.volume.links), k.volume.links, {source, claim, target})
    ensures k.calm && k.faults == old(k.faults) && target !in old(k.volume.links) ==> ok
    ensures k.calm && k.faults == old(k.faults) && !ok && source !in old(k.volume.links) ==>
              k.volume.links == Moved(old(k.volume.links), claim, source)
  {
    hide Kernel.Valid, AgreeOutside, TravelsWithin, AllKeptByMove;
    if k.calm {
      JourneyIsKept(k.watched, k.volume.links, claim, target, owner, {source, claim, target});
      JourneyIsKept(k.watched, k.volume.links, claim, source, owner, {source, claim, target});
    }
    var moving := k.Rename(claim, target);
    if moving == Done {
      if k.calm {
        AgreementWidens(old(k.volume.links), k.volume.links, {claim, target}, {source, claim, target});
      }
      return true;
    }
    var _ := k.Rename(claim, source);
    if k.calm {
      AgreementWidens(old(k.volume.links), k.volume.links, {source, claim}, {source, claim, target});
    }
    ok := false;
  }

  /** A file whose descriptor could not be inspected is kept, in the quarantine. */
  method PreserveUnidentifiedFile(k: Kernel, source: Slot, claim: Slot) returns (ok: bool)
    requires k.Valid() && claim.directory in k.volume.nodes
    requires k.calm ==> AllKeptByMove(k.watched, k.volume.links, source, claim)
    modifies k`volume, k`calm, k`touched, k`faults
    ensures k.Valid() && k.volume.open == old(k.volume.open) && old(k.volume.nodes.Keys) <= k.volume.nodes.Keys
    ensures old(k.faults) <= k.faults
    ensures k.calm ==> old(k.calm) && OnlyLinks(old(k.volume), k.volume)
    ensures k.calm && ok ==> k.volume.links == old(k.volume.links) && source !in k.volume.links
    ensures k.calm && !ok && source in old(k.volume.links) && claim !in old(k.volume.links) ==>
              k.faults == old(k.faults) ==>
                Holds(k.volume.links, claim, old(k.volume.links)[source])
                && k.volume.links == Moved(old(k.volume.links), source, claim)
    ensures k.calm ==> k.volume.links == old(k.volume.links)
                       || (source in old(k.volume.links) && k.volume.links == Moved(old(k.volume.links), source, claim))
    ensures k.calm ==> AgreeOutside(old(k.volume.links), k.volume.links, {source, claim})
  {
    hide Kernel.Valid;
    var moving := k.Rename(source, claim);
    ok := moving == Missing;
  }

  /** The identity of the directory behind a name, or nothing. */
  method IdentifyDirectory(k: Kernel, s: Slot) returns (r: Option<Inode>)
    requires k.Valid()
    modifies k`volume, k`calm, k`touched, k`faults
    ensures k.Valid() && k.volume.open == old(k.volume.open) && old(k.volume.nodes.Keys) <= k.volume.nodes.Keys
    ensures old(k.faults) <= k.faults && (r.Some? ==> k.faults == old(k.faults))
    ensures k.calm ==> old(k.calm) && k.volume == old(k.volume)
    ensures k.calm && k.faults == old(k.faults) && s in k.volume.links && k.volume.nodes[k.volume.links[s]].Directory?
            ==> r == Some(k.volume.inode[k.volume.links[s]])
    ensures k.calm && r.Some? ==>
              s in k.volume.links && k.volume.nodes[k.volume.links[s]].Directory?
              && r.value == k.volume.inode[k.volume.links[s]]
  {
    var lookup := k.OpenDirectory(s);
    if !lookup.Found? {
      return None;
    }
    r := k.Inspect(lookup.found);
  }

  /** Some of the names, of directories in which nothing is left, are gone, and nothing else has changed. */
  ghost predicate Dropped(a: Links, b: Links, some: set<Slot>) {
    && (forall s | s in b :: s in a && a[s] == b[s])
    && (forall s | s in a && s !in b :: s in some && NothingIn(b, a[s]))
  }

  lemma NothingDropped(links: Links, some: set<Slot>)
    ensures Dropped(links, links, some)
  {
  }

  lemma DroppedTwice(a: Links, b: Links, c: Links, some: set<Slot>, more: set<Slot>)
    requires Dropped(a, b, some) && Dropped(b, c, more)
    ensures Dropped(a, c, some + more)
  {
  }

  /** An empty directory that is removed is dropped. */
  lemma DisposedIsDropped(v: Volume, s: Slot, identity: Option<Inode>)
    requires s !in v.links || Disposable(v, s, identity)
    ensures Dropped(v.links, v.links - {s}, {s})
  {
  }

  /**
   Moves a created directory aside, checks that it is the created one, and removes it
   if it is empty.  In every other case it goes back to its name.
  */
  method RemoveOwnedDirectory(k: Kernel, d: CreatedDirectory) returns (ok: bool)
    requires k.Valid() && k.watched == {} && d.cleanup.directory == d.slot.directory
    requires d.slot.directory in k.volume.nodes
    modifies k`volume, k`calm, k`touched, k`faults
    ensures k.Valid() && k.volume.open == old(k.volume.open) && old(k.volume.nodes.Keys) <= k.volume.nodes.Keys
    ensures old(k.faults) <= k.faults && (ok ==> k.faults == old(k.faults))
    ensures k.calm ==> old(k.calm) && OnlyLinks(old(k.volume), k.volume)
    ensures k.calm && ok ==> k.volume.links == old(k.volume.links) - {d.slot}
    ensures k.calm && ok ==> d.slot !in old(k.volume.links) || Disposable(old(k.volume), d.slot, d.identity)
    ensures k.calm ==> KeepsAllBut(old(k.volume.links), k.volume.links, {d.slot})
    ensures k.calm ==> AgreeOutside(old(k.volume.links), k.volume.links, {d.slot, d.cleanup})
    ensures k.calm && k.faults == old(k.faults) && Removable(old(k.volume), d) ==> ok
    ensures k.calm && k.faults == old(k.faults) && !ok ==> k.volume.links == old(k.volume.links)
    ensures k.calm && k.faults == old(k.faults) ==> Dropped(old(k.volume.links), k.volume.links, {d.slot})
  {
    hide Kernel.Valid, Disposable, Removable, Dropped;
    NothingDropped(k.volume.links, {d.slot});
    if d.slot !in k.volume.links || Disposable(k.volume, d.slot, d.identity) {
      DisposedIsDropped(k.volume, d.slot, d.identity);
    }
    if Removable(k.volume, d) {
      RemovableAside(k.volume, d);
    }
    var moving := k.Rename(d.slot, d.cleanup);
    if moving != Done {
      return moving == Missing;
    }
    if k.calm {
      MovedBack(old(k.volume.links), d.slot, d.cleanup);
      DisposableAside(old(k.volume), d);
    }
    ok := RemoveClaimedDirectory(k, d);
  }

  /** Removes a directory that was moved aside, or moves it back. */
  method RemoveClaimedDirectory(k: Kernel, d: CreatedDirectory) returns (ok: bool)
    requires k.Valid() && k.watched == {}
    requires d.slot.directory in k.volume.nodes
    modifies k`volume, k`calm, k`touched, k`faults
    ensures k.Valid() && k.volume.open == old(k.volume.open) && old(k.volume.nodes.Keys) <= k.volume.nodes.Keys
    ensures old(k.faults) <= k.faults && (ok ==> k.faults == old(k.faults))
    ensures k.calm ==> old(k.calm) && OnlyLinks(old(k.volume), k.volume)
    ensures k.calm && ok ==>
              k.volume.links == old(k.volume.links) - {d.cleanup} && Disposable(old(k.volume), d.cleanup, d.identity)
    ensures k.calm ==> KeepsAllBut(old(k.volume.links), k.volume.links, {d.cleanup})
    ensures k.calm ==> AgreeOutside(old(k.volume.links), k.volume.links, {d.slot, d.cleanup})
    ensures k.calm && k.faults == old(k.faults) && Disposable(old(k.volume), d.cleanup, d.identity) ==> ok
    ensures k.calm && k.faults == old(k.faults) && !ok && d.cleanup in old(k.volume.links) ==>
              d.slot !in old(k.volume.links) ==>
                k.volume.links == Moved(old(k.volume.links), d.cleanup, d.slot)
  {
    hide Kernel.Valid, KeepsAllBut, AgreeOutside, NothingIn, Volume.Valid;
    assert {d.slot, d.cleanup} == {d.cleanup, d.slot};
    VolumeIsValid(k);
    SameNamesAgree(k.volume.links, {d.slot, d.cleanup}, {d.cleanup});
    if k.calm && d.cleanup in k.volume.links {
      AwayIsKept(k.volume.links, d.cleanup, d.slot);
      AwayAgrees(k.volume.links, d.cleanup, d.slot);
    }
    if d.identity.Some? {
      var actual := IdentifyDirectory(k, d.cleanup);
      if actual == d.identity {
        ok := k.RemoveDirectory(d.cleanup);
        if ok {
          return;
        }
      }
    }
    var _ := k.Rename(d.cleanup, d.slot);
    ok := false;
  }

  lemma AwayAgrees(links: Links, s: Slot, dst: Slot)
    ensures AgreeOutside(links, links - {s}, {dst, s})
  {
  }

  lemma AwayIsKept(links: Links, s: Slot, dst: Slot)
    requires s in links
    ensures KeepsAllBut(links, links - {s}, {s})
    ensures dst !in links ==> KeepsAllBut(links, Moved(links, s, dst), {s})
  {
  }

  /** An empty directory with this identity stands at the name. */
  ghost predicate Disposable(v: Volume, s: Slot, identity: Option<Inode>) {
    && identity.Some? && s in v.links
    && var o := v.links[s];
       && o in v.nodes && v.nodes[o].Directory? && o in v.inode && v.inode[o] == identity.value
       && NothingIn(v.links, o)
  }

  /** The directory can be disposed of, and the name to move it to is free. */
  ghost predicate Removable(v: Volume, d: CreatedDirectory) {
    && Disposable(v, d.slot, d.identity)
    && d.cleanup !in v.links && d.cleanup.directory != v.links[d.slot]
  }

  /** A directory that can be disposed of where it was moved to could be disposed of before. */
  lemma DisposableAside(v: Volume, d: CreatedDirectory)
    requires d.slot in v.links && d.cleanup !in v.links && d.cleanup.directory == d.slot.directory
    ensures Disposable(v.(links := Moved(v.links, d.slot, d.cleanup)), d.cleanup, d.identity) ==>
              Disposable(v, d.slot, d.identity)
  {
    var moved := Moved(v.links, d.slot, d.cleanup);
    assert moved[d.cleanup] == v.links[d.slot];
    assert forall t | t in v.links && t != d.slot :: t in moved;
  }

  lemma RemovableAside(v: Volume, d: CreatedDirectory)
    requires Removable(v, d)
    ensures d.slot in v.links && d.cleanup !in v.links
    ensures Disposable(v.(links := Moved(v.links, d.slot, d.cleanup)), d.cleanup, d.identity)
  {
  }

  /** Reverse order: what was made last goes first. */
  method RemoveCreatedDirectories(k: Kernel, created: seq<CreatedDirectory>) returns (ok: bool)
    requires k.Valid() && k.watched == {}
    requires forall d | d in created :: d.slot.directory in k.volume.nodes && d.cleanup.directory == d.slot.directory
    modifies k`volume, k`calm, k`touched, k`faults
    ensures k.Valid() && k.volume.open == old(k.volume.open) && old(k.volume.nodes.Keys) <= k.volume.nodes.Keys
    ensures old(k.faults) <= k.faults
    ensures k.calm ==> old(k.calm) && OnlyLinks(old(k.volume), k.volume)
    ensures k.calm && ok ==> k.volume.links == old(k.volume.links) - Slots(created)
    ensures k.calm && k.faults == old(k.faults) && Stacked(old(k.volume), created) ==> ok
    ensures k.calm ==> AgreeOutside(old(k.volume.links), k.volume.links, Slots(created) + CleanupSlots(created))
    ensures k.calm && k.faults == old(k.faults) ==> Dropped(old(k.volume.links), k.volume.links, Slots(created))
  {
    hide Kernel.Valid, Stacked, Removable, Slots, CleanupSlots, Disposable, Dropped, AgreeOutside, KeepsAllBut;
    ok := true;
    ghost var before := k.volume;
    NoSlots(created);
    NothingDropped(k.volume.links, Slots(created[|created|..]));
    SameNamesAgree(k.volume.links, Slots(created[|created|..]) + CleanupSlots(created[|created|..]), {});
    var index := |created|;
    while index > 0
      invariant 0 <= index <= |created|
      invariant k.Valid() && k.volume.open == old(k.volume.open)
      invariant old(k.volume.nodes.Keys) <= k.volume.nodes.Keys && old(k.faults) <= k.faults
      invariant k.calm ==> old(k.calm) && OnlyLinks(before, k.volume)
      invariant k.calm && ok ==> k.volume.links == before.links - Slots(created[index..])
      invariant k.calm && k.faults == old(k.faults) && Stacked(before, created) ==> ok
      invariant k.calm ==>
                  AgreeOutside(before.links, k.volume.links, Slots(created[index..]) + CleanupSlots(created[index..]))
      invariant k.calm && k.faults == old(k.faults) ==> Dropped(before.links, k.volume.links, Slots(created[index..]))
    {
      index := index - 1;
      assert created[index] in created;
      ghost var halfway := k.volume;
      ghost var soFar := ok;
      var removed := RemoveOwnedDirectory(k, created[index]);
      if k.calm {
        SlotsFromFront(created, index);
        AgreementJoins(before.links, halfway.links, k.volume.links,
                       Slots(created[index + 1..]) + CleanupSlots(created[index + 1..]),
                       {created[index].slot, created[index].cleanup},
                       Slots(created[index..]) + CleanupSlots(created[index..]));
        if Dropped(before.links, halfway.links, Slots(created[index + 1..]))
           && Dropped(halfway.links, k.volume.links, {created[index].slot}) {
          DroppedTwice(before.links, halfway.links, k.volume.links, Slots(created[index + 1..]), {created[index].slot});
          assert Slots(created[index + 1..]) + {created[index].slot} == Slots(created[index..]);
        }
        if soFar && Stacked(before, created) {
          LastIsRemovable(before, created, index, halfway);
        }
      }
      ok := ok && removed;
    }
    assert created[0..] == created;
  }

  lemma NoSlots(created: seq<CreatedDirectory>)
    ensures Slots(created[|created|..]) == {} && CleanupSlots(created[|created|..]) == {}
  {
  }

  lemma AgreementJoins(a: Links, b: Links, c: Links, some: set<Slot>, more: set<Slot>, all: set<Slot>)
    requires AgreeOutside(a, b, some) && AgreeOutside(b, c, more) && some <= all && more <= all
    ensures AgreeOutside(a, c, all)
  {
  }

  function CleanupSlots(created: seq<CreatedDirectory>): set<Slot> {
    set d | d in created :: d.cleanup
  }

  function Slots(created: seq<CreatedDirectory>): set<Slot> {
    set d | d in created :: d.slot
  }

  lemma SlotsFromFront(created: seq<CreatedDirectory>, index: nat)
    requires index < |created|
    ensures Slots(created[index..]) == {created[index].slot} + Slots(created[index + 1..])
    ensures CleanupSlots(created[index..]) == {created[index].cleanup} + CleanupSlots(created[index + 1..])
  {
    assert created[index..] == [created[index]] + created[index + 1..];
  }

  /**
   The discipline under which directories were created: each stood at a free name in
   an existing directory, its cleanup name was free, and it was new.  Only later
   directories can have taken that cleanup name, or lie inside it.
  */
  ghost predicate Stacked(v: Volume, created: seq<CreatedDirectory>) {
    && (forall i, j | 0 <= i < j < |created| :: created[i].slot != created[j].slot)
    && forall i | 0 <= i < |created| :: StackedAt(v, created, i)
  }

  ghost predicate StackedAt(v: Volume, created: seq<CreatedDirectory>, i: nat)
    requires i < |created|
  {
    var d := created[i];
    && d.slot in v.links && d.identity.Some?
    && var o := v.links[d.slot];
       && o in v.nodes && v.nodes[o].Directory? && o in v.inode && v.inode[o] == d.identity.value
       && d.cleanup.directory != o && d.cleanup != d.slot
       && (d.cleanup in v.links ==> d.cleanup in Slots(created[i + 1..]))
       && forall t | t in v.links && t.directory == o :: t in Slots(created[i + 1..])
  }

  /** Once the later directories are gone, a directory is empty and can be moved aside. */
  lemma LastIsRemovable(v: Volume, created: seq<CreatedDirectory>, i: nat, w: Volume)
    requires i < |created| && Stacked(v, created)
    requires w.nodes == v.nodes && w.inode == v.inode && w.links == v.links - Slots(created[i + 1..])
    ensures Removable(w, created[i])
  {
    assert StackedAt(v, created, i);
    forall d | d in created[i + 1..] ensures d.slot != created[i].slot {
      var j :| 0 <= j < |created[i + 1..]| && created[i + 1..][j] == d;
      assert created[i + 1 + j] == d;
    }
  }
}
