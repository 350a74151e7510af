/**
 From outputs to entries: the directories that outputs need, and the names that each
 of them uses during the transaction.
*/
module Entries {
  import opened DecimalDigits
  import opened Literals
  import opened Namespace
  import opened Cleanup
  import opened Rollback
  import opened Directories
  import opened Walks
  import opened Progress

  datatype Output = Output(path: seq<string>, contents: Bytes)

  function Parents(path: seq<string>): seq<string> {
    if path == [] then [] else path[..|path| - 1]
  }

  function Beside(name: string, suffix: string): string {
    "." + name + suffix
  }

  function ClaimName(index: nat, kind: string): string {
    DigitText(Print(index)) + "-" + kind
  }

  function EntryFor(parent: Object, name: string, index: nat, q: Object, pid: string, contents: Bytes): OutputEntry {
    OutputEntry(
      Slot(parent, name),
      Slot(parent, Beside(name, ".tmp-" + pid)),
      Slot(parent, Beside(name, ".backup-" + pid)),
      Slot(parent, Beside(name, ".rename-probe-" + pid)),
      Slot(q, ClaimName(index, "published")),
      Slot(q, ClaimName(index, "temporary")),
      Slot(q, ClaimName(index, "backup")),
      Slot(q, ClaimName(index, "rename-probe")),
      contents, false)
  }

  lemma BesideIsInjective(a: string, b: string, suffix: string)
    requires Beside(a, suffix) == Beside(b, suffix)
    ensures a == b
  {
    assert a == Beside(a, suffix)[1..|Beside(a, suffix)| - |suffix|];
    assert b == Beside(b, suffix)[1..|Beside(b, suffix)| - |suffix|];
  }

  lemma BesideIsAnother(a: string, suffix: string)
    ensures Beside(a, suffix) != a
  {
    assert |Beside(a, suffix)| > |a|;
  }

  lemma ClaimNameIsInjective(i: nat, j: nat, kind: string)
    requires ClaimName(i, kind) == ClaimName(j, kind)
    ensures i == j
  {
    var a, b := DigitText(Print(i)), DigitText(Print(j));
    assert |a| == |ClaimName(i, kind)| - (|kind| + 1) == |b|;
    assert a == ClaimName(i, kind)[..|a|] && b == ClaimName(j, kind)[..|b|];
    PrintedTextIsInjective(i, j);
  }

  /** Temporaries, backups and probes never share a name, whatever they belong to. */
  lemma KindsOfNamesDiffer(a: string, b: string, pid: string)
    ensures Beside(a, ".tmp-" + pid) != Beside(b, ".backup-" + pid)
    ensures Beside(a, ".tmp-" + pid) != Beside(b, ".rename-probe-" + pid)
    ensures Beside(a, ".backup-" + pid) != Beside(b, ".rename-probe-" + pid)
  {
    var t, s, r := Beside(a, ".tmp-" + pid), Beside(b, ".backup-" + pid), Beside(b, ".rename-probe-" + pid);
    var u := Beside(a, ".backup-" + pid);
    assert t[|t| - |pid| - 3] == 'm' && s[|s| - |pid| - 3] == 'u' && u[|u| - |pid| - 2] == 'p';
    assert t[|t| - |pid| - 2] == 'p' && r[|r| - |pid| - 2] == 'e';
  }

  /** Claims of different kinds differ, whatever they belong to. */
  lemma KindsOfClaimsDiffer(i: nat, j: nat)
    ensures ClaimName(i, "published") !in {ClaimName(j, "temporary"), ClaimName(j, "backup"), ClaimName(j, "rename-probe")}
    ensures ClaimName(i, "temporary") !in {ClaimName(j, "backup"), ClaimName(j, "rename-probe")}
    ensures ClaimName(i, "backup") != ClaimName(j, "rename-probe")
  {
    LastOfClaim(i, "published");
    LastOfClaim(i, "temporary");
    LastOfClaim(i, "backup");
    LastOfClaim(j, "temporary");
    LastOfClaim(j, "backup");
    LastOfClaim(j, "rename-probe");
  }

  lemma LastOfClaim(i: nat, kind: string)
    requires kind != ""
    ensures ClaimName(i, kind) != "" && ClaimName(i, kind)[|ClaimName(i, kind)| - 1] == kind[|kind| - 1]
  {
  }

  lemma EntryIsNamed(parent: Object, name: string, index: nat, q: Object, pid: string, contents: Bytes)
    requires parent != q
    ensures EntryNamed(EntryFor(parent, name, index, q, pid, contents), q)
  {
    hide Beside, ClaimName;
    BesideIsAnother(name, ".tmp-" + pid);
    BesideIsAnother(name, ".backup-" + pid);
    BesideIsAnother(name, ".rename-probe-" + pid);
    KindsOfNamesDiffer(name, name, pid);
    KindsOfClaimsDiffer(index, index);
  }

  lemma PairIsNamed(p: Object, a: string, i: nat, r: Object, b: string, j: nat, q: Object, pid: string,
                    x: Bytes, y: Bytes)
    requires i != j
    ensures PairNamed(EntryFor(p, a, i, q, pid, x), EntryFor(r, b, j, q, pid, y))
  {
    hide Beside, ClaimName;
    SameKindIsInjective(a, b, i, j, ".tmp-" + pid, "published");
    SameKindIsInjective(a, b, i, j, ".backup-" + pid, "temporary");
    SameKindIsInjective(a, b, i, j, ".rename-probe-" + pid, "backup");
    SameKindIsInjective(a, b, i, j, "", "rename-probe");
    KindsOfNamesDiffer(a, b, pid);
    KindsOfClaimsDiffer(i, j);
    KindsOfClaimsDiffer(j, i);
  }

  lemma SameKindIsInjective(a: string, b: string, i: nat, j: nat, suffix: string, kind: string)
    ensures Beside(a, suffix) == Beside(b, suffix) ==> a == b
    ensures ClaimName(i, kind) == ClaimName(j, kind) ==> i == j
  {
    if Beside(a, suffix) == Beside(b, suffix) {
      BesideIsInjective(a, b, suffix);
    }
    if ClaimName(i, kind) == ClaimName(j, kind) {
      ClaimNameIsInjective(i, j, kind);
    }
  }

  /** The entries are built from the outputs, in their order. */
  ghost predicate BuiltFrom(entries: seq<OutputEntry>, outputs: seq<Output>, q: Object, pid: string) {
    && |entries| <= |outputs|
    && forall i {:trigger entries[i]} | 0 <= i < |entries| ::
         && outputs[i].path != []
         && entries[i] == EntryFor(entries[i].target.directory, outputs[i].path[|outputs[i].path| - 1], i, q, pid,
                                   outputs[i].contents)
  }

  lemma BuiltAreWellNamed(entries: seq<OutputEntry>, outputs: seq<Output>, q: Object, pid: string)
    requires BuiltFrom(entries, outputs, q, pid)
    requires forall i {:trigger entries[i]} | 0 <= i < |entries| :: entries[i].target.directory != q
    ensures WellNamed(entries, q)
  {
    hide EntryFor, PairNamed, EntryNamed;
    forall i {:trigger entries[i]} | 0 <= i < |entries| ensures EntryNamed(entries[i], q) {
      EntryIsNamed(entries[i].target.directory, outputs[i].path[|outputs[i].path| - 1], i, q, pid, outputs[i].contents);
    }
    forall i, j {:trigger entries[i], entries[j]} | 0 <= i < |entries| && 0 <= j < |entries| && i != j
      ensures PairNamed(entries[i], entries[j])
    {
      PairIsNamed(entries[i].target.directory, outputs[i].path[|outputs[i].path| - 1], i,
                  entries[j].target.directory, outputs[j].path[|outputs[j].path| - 1], j, q, pid,
                  outputs[i].contents, outputs[j].contents);
    }
  }

  function PathNames(outputs: seq<Output>): set<string> {
    set o, n | o in outputs && n in o.path :: n
  }

  /** The directory of every entry is the one that its output's parents lead to. */
  ghost predicate Rooted(v: Volume, root: Object, outputs: seq<Output>, entries: seq<OutputEntry>, q: Object) {
    && |entries| <= |outputs|
    && forall i {:trigger entries[i]} | 0 <= i < |entries| ::
         && outputs[i].path != []
         && entries[i].target.directory != q
         && Reaches(v, root, Parents(outputs[i].path), entries[i].target.directory)
  }

  lemma RootedStays(v: Volume, w: Volume, root: Object, outputs: seq<Output>, entries: seq<OutputEntry>, q: Object)
    requires Rooted(v, root, outputs, entries, q) && KeepsPaths(v, w, PathNames(outputs))
    ensures Rooted(w, root, outputs, entries, q)
  {
    forall i {:trigger entries[i]} | 0 <= i < |entries|
      ensures outputs[i].path != [] && Reaches(w, root, Parents(outputs[i].path), entries[i].target.directory)
    {
      var e := entries[i];
      assert outputs[i].path != [];
      ParentNames(outputs, i);
      assert KeepsPaths(v, w, Names(Parents(outputs[i].path)));
      StillReaches(v, w, root, Parents(outputs[i].path), entries[i].target.directory);
    }
  }

  lemma ParentNames(outputs: seq<Output>, i: nat)
    requires i < |outputs| && outputs[i].path != []
    ensures Names(Parents(outputs[i].path)) <= PathNames(outputs)
    ensures outputs[i].path[|outputs[i].path| - 1] in PathNames(outputs)
  {
    var path := outputs[i].path;
    assert outputs[i] in outputs && path[|path| - 1] in path;
    forall n | n in Names(Parents(path)) ensures n in PathNames(outputs) {
      var j :| 0 <= j < |Parents(path)| && Parents(path)[j] == n;
      assert path[j] == n;
      assert n in outputs[i].path;
    }
  }

  lemma UsableStays(nodes: set<Object>, more: set<Object>, shield: set<Object>, entries: seq<OutputEntry>, q: Object)
    requires EntriesUsable(nodes, shield, entries, q) && nodes <= more
    ensures EntriesUsable(more, shield, entries, q)
  {
    forall i | 0 <= i < |entries| ensures EntryUsable(more, entries[i], q) {
      assert EntryUsable(nodes, entries[i], q);
    }
  }

  lemma EntryPushed(nodes: set<Object>, shield: set<Object>, entries: seq<OutputEntry>, outputs: seq<Output>,
                    parent: Object, q: Object, pid: string)
    requires EntriesUsable(nodes, shield, entries, q) && BuiltFrom(entries, outputs, q, pid)
    requires |entries| < |outputs| && parent in nodes
    requires outputs[|entries|].path != []
    ensures var o := outputs[|entries|];
            var e := EntryFor(parent, o.path[|o.path| - 1], |entries|, q, pid, o.contents);
            && EntriesUsable(nodes, shield, entries + [e], q) && BuiltFrom(entries + [e], outputs, q, pid)
            && e.target.directory == parent
  {
  }

  lemma RootedPushed(v: Volume, w: Volume, root: Object, outputs: seq<Output>, entries: seq<OutputEntry>, q: Object,
                     e: OutputEntry, names: set<string>)
    requires Rooted(v, root, outputs, entries, q) && Extended(v, w, names, {q}) && |entries| < |outputs|
    requires outputs[|entries|].path != [] && e.target.directory != q
    requires Reaches(w, root, Parents(outputs[|entries|].path), e.target.directory)
    ensures Rooted(w, root, outputs, entries + [e], q)
  {
    hide Extended, Reaches, Parents, KeepsPaths, PathNames;
    ExtensionKeepsPaths(v, w, names, {q}, PathNames(outputs));
    RootedStays(v, w, root, outputs, entries, q);
    var all := entries + [e];
    forall i {:trigger all[i]} | 0 <= i < |all|
      ensures outputs[i].path != [] && all[i].target.directory != q
      ensures Reaches(w, root, Parents(outputs[i].path), all[i].target.directory)
    {
      if i < |entries| {
        assert all[i] == entries[i];
      }
    }
  }

  /** What building the entries keeps, without interference. */
  ghost predicate Building(start: Volume, v: Volume, root: Object, outputs: seq<Output>, entries: seq<OutputEntry>,
                           quarantine: Quarantine, created: seq<CreatedDirectory>, all: seq<CreatedDirectory>) {
    var q, hidden := quarantine.directory, {quarantine.created.slot};
    && Extended(start, v, PathNames(outputs), {q})
    && hidden <= v.links.Keys
    && Unreachable(v.links, PathNames(outputs), {q})
    && Remaining(v.links, hidden, all) == Remaining(start.links, hidden, created)
    && Rooted(v, root, outputs, entries, q)
    && AlongSome(start, v, root, outputs)
  }

  /** Every new name lies on the way to some output. */
  ghost predicate AlongSome(start: Volume, v: Volume, root: Object, outputs: seq<Output>) {
    forall s | s in v.links && s !in start.links ::
      exists i, k :: 0 <= i < |outputs| && OnWalkAt(v, root, Parents(outputs[i].path), k, s)
  }

  lemma AlongOneMore(start: Volume, v: Volume, w: Volume, root: Object, outputs: seq<Output>, i: nat)
    requires i < |outputs| && AlongSome(start, v, root, outputs) && Sprouted(v, w)
    requires var path := Parents(outputs[i].path); Along(v, w, root, path, |path|)
    ensures AlongSome(start, w, root, outputs)
  {
    hide OnWalkAt, Parents, Sprouted;
    forall s | s in w.links && s !in start.links
      ensures exists j, k :: 0 <= j < |outputs| && OnWalkAt(w, root, Parents(outputs[j].path), k, s)
    {
      if s in v.links {
        var j, k :| 0 <= j < |outputs| && OnWalkAt(v, root, Parents(outputs[j].path), k, s);
        OnWalkStays(v, w, root, Parents(outputs[j].path), k, s);
      } else {
        var path := Parents(outputs[i].path);
        var k :| 0 <= k < |path| && OnWalkAt(w, root, path, k, s);
      }
    }
  }

  /** The directories of all outputs can be entered or made. */
  ghost predicate AllWalkable(v: Volume, root: Object, outputs: seq<Output>, pid: string) {
    forall i | 0 <= i < |outputs| :: Walkable(v, root, Parents(outputs[i].path), pid)
  }

  lemma AllStayWalkable(v: Volume, w: Volume, root: Object, outputs: seq<Output>, pid: string, names: set<string>,
                        avoid: set<Object>)
    requires v.Valid() && Sprouted(v, w) && NewNames(v, w, names, avoid)
    requires CleanupsApart(PathNames(outputs), names, pid) && AllWalkable(v, root, outputs, pid)
    requires forall i | 0 <= i < |outputs| :: outputs[i].path != []
    ensures AllWalkable(w, root, outputs, pid)
  {
    hide Walkable, Sprouted, NewNames, PathNames, Parents, Names;
    forall i | 0 <= i < |outputs| ensures Walkable(w, root, Parents(outputs[i].path), pid) {
      ParentNames(outputs, i);
      WalkableStays(v, w, names, avoid, root, Parents(outputs[i].path), pid);
    }
  }

  lemma BuildStep(start: Volume, v: Volume, w: Volume, root: Object, outputs: seq<Output>, entries: seq<OutputEntry>,
                  quarantine: Quarantine, created: seq<CreatedDirectory>, some: seq<CreatedDirectory>,
                  all: seq<CreatedDirectory>)
    requires Building(start, v, root, outputs, entries, quarantine, created, some)
    requires |entries| < |outputs| && outputs[|entries|].path != []
    requires quarantine.directory in v.nodes
    requires var q, hidden := quarantine.directory, {quarantine.created.slot};
             && Extended(v, w, Names(Parents(outputs[|entries|].path)), {q})
             && Along(v, w, root, Parents(outputs[|entries|].path), |Parents(outputs[|entries|].path)|)
             && Remaining(w.links, hidden, all) == Remaining(v.links, hidden, some)
    ensures Building(start, w, root, outputs, entries, quarantine, created, all)
    ensures Extended(v, w, PathNames(outputs), {quarantine.directory})
  {
    hide Extended, Unreachable, Rooted, Remaining, KeepsPaths, Reaches, PathNames, Names, Parents, Along, AlongSome;
    var q, names := quarantine.directory, PathNames(outputs);
    ExtendedParts(v, w, Names(Parents(outputs[|entries|].path)), {q});
    AlongOneMore(start, v, w, root, outputs, |entries|);
    ParentNames(outputs, |entries|);
    ExtensionWidens(v, w, Names(Parents(outputs[|entries|].path)), names, {q});
    ExtensionIsTransitive(start, v, w, names, {q});
    StaysUnreachable(v, w, names, {q});
    NothingLost(v, w, names, {q});
    ExtensionKeepsPaths(v, w, names, {q}, names);
    RootedStays(v, w, root, outputs, entries, q);
  }

  lemma UnreachableByFewer(links: Links, names: set<string>, fewer: set<string>, avoid: set<Object>)
    requires Unreachable(links, names, avoid) && fewer <= names
    ensures Unreachable(links, fewer, avoid)
  {
  }

  /** Makes the directory of the next output and settles its names. */
  method BuildEntry(k: Kernel, root: Object, outputs: seq<Output>, entries: seq<OutputEntry>, pid: string,
                    quarantine: Quarantine, ghost created: seq<CreatedDirectory>, some: seq<CreatedDirectory>,
                    ghost start: Volume)
    returns (ok: bool, more: seq<OutputEntry>, all: seq<CreatedDirectory>)
    requires k.Valid() && root in k.volume.nodes && AllUsable(k.volume.nodes.Keys, some) && |entries| < |outputs|
    requires quarantine.directory in k.shield && quarantine.directory in k.volume.nodes
    requires forall o | o in outputs :: o.path != []
    requires EntriesUsable(k.volume.nodes.Keys, k.shield, entries, quarantine.directory)
    requires BuiltFrom(entries, outputs, quarantine.directory, pid)
    requires k.calm ==> root != quarantine.directory
    requires k.calm ==> Building(start, k.volume, root, outputs, entries, quarantine, created, some)
    modifies k`volume, k`calm, k`touched, k`faults, k`shield, k`uninspected
    ensures k.Valid() && old(k.volume.nodes.Keys) <= k.volume.nodes.Keys && k.volume.open == old(k.volume.open)
    ensures k.shield == old(k.shield) && old(k.uninspected) <= k.uninspected
    ensures old(k.faults) <= k.faults <= old(k.faults) + 1 && (ok ==> k.faults == old(k.faults))
    ensures ok || (k.calm && k.faults == old(k.faults)) ==> k.uninspected == old(k.uninspected)
    ensures k.calm && k.faults == old(k.faults) ==>
              AllWalkable(old(k.volume), root, outputs, pid) && CleanupsApart(PathNames(outputs), PathNames(outputs), pid)
              ==> ok && AllWalkable(k.volume, root, outputs, pid)
    ensures AllUsable(k.volume.nodes.Keys, all)
    ensures EntriesUsable(k.volume.nodes.Keys, k.shield, more, quarantine.directory)
    ensures BuiltFrom(more, outputs, quarantine.directory, pid)
    ensures |more| == if ok then |entries| + 1 else |entries|
    ensures k.calm ==> old(k.calm) && Building(start, k.volume, root, outputs, more, quarantine, created, all)
    ensures k.calm && k.uninspected == {} && StackedBut(old(k.volume), {quarantine.created.slot}, some) ==>
              StackedBut(k.volume, {quarantine.created.slot}, all)
  {
    hide Kernel.Valid, Building, StackedBut, AllUsable, EntriesUsable, BuiltFrom, EntryFor, Remaining, Extended,
         Reaches, Unreachable, PathNames, Parents, Along, AllWalkable, CleanupsApart, Walkable;
    ghost var hidden := {quarantine.created.slot};
    var q := quarantine.directory;
    var output := outputs[|entries|];
    assert output in outputs;
    if k.calm {
      BuildingAllows(start, k.volume, root, outputs, entries, quarantine, created, some);
    }
    ghost var before := k.volume;
    VolumeIsValid(k);
    if AllWalkable(k.volume, root, outputs, pid) {
      FirstWalkable(k.volume, root, outputs, pid, |entries|);
    }
    var parent;
    parent, all := CreatePath(k, root, Parents(output.path), pid, some, hidden, {q});
    UsableStays(before.nodes.Keys, k.volume.nodes.Keys, k.shield, entries, q);
    if k.calm {
      BuildStep(start, before, k.volume, root, outputs, entries, quarantine, created, some, all);
      if AllWalkable(before, root, outputs, pid) && CleanupsApart(PathNames(outputs), PathNames(outputs), pid) {
        StillWalkable(before, k.volume, root, outputs, pid, PathNames(outputs), {q});
      }
    }
    ok, more := parent.Some?, entries;
    if ok {
      var e := EntryFor(parent.value, output.path[|output.path| - 1], |entries|, q, pid, output.contents);
      EntryPushed(k.volume.nodes.Keys, k.shield, entries, outputs, parent.value, q, pid);
      if k.calm {
        BuildOneMore(start, before, k.volume, root, outputs, entries, quarantine, created, some, all, e);
      }
      more := entries + [e];
    }
  }

  /** Makes the directories of every output and settles all names. */
  method BuildEntries(k: Kernel, root: Object, outputs: seq<Output>, pid: string, quarantine: Quarantine,
                      created: seq<CreatedDirectory>)
    returns (ok: bool, entries: seq<OutputEntry>, all: seq<CreatedDirectory>)
    requires k.Valid() && root in k.volume.nodes && AllUsable(k.volume.nodes.Keys, created)
    requires quarantine.directory in k.shield && quarantine.directory in k.volume.nodes
    requires forall o | o in outputs :: o.path != []
    requires k.calm ==> root != quarantine.directory
    requires k.calm ==> Building(k.volume, k.volume, root, outputs, [], quarantine, created, created)
    modifies k`volume, k`calm, k`touched, k`faults, k`shield, k`uninspected
    ensures k.Valid() && old(k.volume.nodes.Keys) <= k.volume.nodes.Keys && k.volume.open == old(k.volume.open)
    ensures k.shield == old(k.shield) && old(k.uninspected) <= k.uninspected
    ensures old(k.faults) <= k.faults <= old(k.faults) + 1 && (ok ==> k.faults == old(k.faults))
    ensures ok || (k.calm && k.faults == old(k.faults)) ==> k.uninspected == old(k.uninspected)
    ensures k.calm && k.faults == old(k.faults) ==>
              AllWalkable(old(k.volume), root, outputs, pid) && CleanupsApart(PathNames(outputs), PathNames(outputs), pid)
              ==> ok
    ensures AllUsable(k.volume.nodes.Keys, all)
    ensures EntriesUsable(k.volume.nodes.Keys, k.shield, entries, quarantine.directory)
    ensures BuiltFrom(entries, outputs, quarantine.directory, pid) && (ok ==> |entries| == |outputs|)
    ensures k.calm ==> old(k.calm)
    ensures k.calm ==> Building(old(k.volume), k.volume, root, outputs, entries, quarantine, created, all)
    ensures k.calm && k.uninspected == {} && StackedBut(old(k.volume), {quarantine.created.slot}, created) ==>
              StackedBut(k.volume, {quarantine.created.slot}, all)
  {
    hide Kernel.Valid, Building, StackedBut, AllUsable, EntriesUsable, BuiltFrom, PathNames, AllWalkable, CleanupsApart;
    ghost var start, hidden := k.volume, {quarantine.created.slot};
    ghost var names := PathNames(outputs);
    ghost var walkable := AllWalkable(k.volume, root, outputs, pid) && CleanupsApart(names, names, pid);
    ok, entries, all := true, [], created;
    EmptyEntries(k.volume.nodes.Keys, k.shield, outputs, quarantine.directory, pid);
    while ok && |entries| < |outputs|
      invariant k.Valid() && old(k.volume.nodes.Keys) <= k.volume.nodes.Keys && k.volume.open == old(k.volume.open)
      invariant k.shield == old(k.shield) && old(k.uninspected) <= k.uninspected
      invariant old(k.faults) <= k.faults <= old(k.faults) + 1 && (ok ==> k.faults == old(k.faults))
      invariant ok || (k.calm && k.faults == old(k.faults)) ==> k.uninspected == old(k.uninspected)
      invariant walkable && k.calm && k.faults == old(k.faults) ==> ok && AllWalkable(k.volume, root, outputs, pid)
      invariant AllUsable(k.volume.nodes.Keys, all) && |entries| <= |outputs|
      invariant EntriesUsable(k.volume.nodes.Keys, k.shield, entries, quarantine.directory)
      invariant BuiltFrom(entries, outputs, quarantine.directory, pid)
      invariant k.calm ==> old(k.calm) && Building(start, k.volume, root, outputs, entries, quarantine, created, all)
      invariant k.calm && k.uninspected == {} && StackedBut(start, hidden, created) ==>
                  StackedBut(k.volume, hidden, all)
      decreases |outputs| - |entries|, ok
    {
      ok, entries, all := BuildEntry(k, root, outputs, entries, pid, quarantine, created, all, start);
    }
  }

  lemma EmptyEntries(nodes: set<Object>, shield: set<Object>, outputs: seq<Output>, q: Object, pid: string)
    requires q in shield && q in nodes
    ensures EntriesUsable(nodes, shield, [], q) && BuiltFrom([], outputs, q, pid)
  {
  }

  lemma FirstWalkable(v: Volume, root: Object, outputs: seq<Output>, pid: string, i: nat)
    requires AllWalkable(v, root, outputs, pid) && i < |outputs|
    ensures Walkable(v, root, Parents(outputs[i].path), pid)
  {
  }

  lemma StillWalkable(v: Volume, w: Volume, root: Object, outputs: seq<Output>, pid: string, names: set<string>,
                      avoid: set<Object>)
    requires v.Valid() && Extended(v, w, names, avoid)
    requires CleanupsApart(PathNames(outputs), names, pid) && AllWalkable(v, root, outputs, pid)
    requires forall o | o in outputs :: o.path != []
    ensures AllWalkable(w, root, outputs, pid)
  {
    hide AllWalkable, CleanupsApart, Sprouted, NewNames;
    assert forall i | 0 <= i < |outputs| :: outputs[i] in outputs;
    AllStayWalkable(v, w, root, outputs, pid, names, avoid);
  }

  lemma BuildingAllows(start: Volume, v: Volume, root: Object, outputs: seq<Output>, entries: seq<OutputEntry>,
                       quarantine: Quarantine, created: seq<CreatedDirectory>, all: seq<CreatedDirectory>)
    requires Building(start, v, root, outputs, entries, quarantine, created, all)
    requires |entries| < |outputs| && outputs[|entries|].path != []
    ensures {quarantine.created.slot} <= v.links.Keys
    ensures Unreachable(v.links, Names(Parents(outputs[|entries|].path)), {quarantine.directory})
  {
    hide Extended, Rooted, Remaining, PathNames, Names, Parents, Unreachable, AlongSome;
    ParentNames(outputs, |entries|);
    UnreachableByFewer(v.links, PathNames(outputs), Names(Parents(outputs[|entries|].path)), {quarantine.directory});
  }

  lemma BuildOneMore(start: Volume, v: Volume, w: Volume, root: Object, outputs: seq<Output>,
                     entries: seq<OutputEntry>, quarantine: Quarantine, created: seq<CreatedDirectory>,
                     some: seq<CreatedDirectory>, all: seq<CreatedDirectory>, e: OutputEntry)
    requires Building(start, v, root, outputs, entries, quarantine, created, some)
    requires Building(start, w, root, outputs, entries, quarantine, created, all)
    requires |entries| < |outputs| && outputs[|entries|].path != []
    requires Extended(v, w, PathNames(outputs), {quarantine.directory})
    requires e.target.directory != quarantine.directory
    requires Reaches(w, root, Parents(outputs[|entries|].path), e.target.directory)
    ensures Building(start, w, root, outputs, entries + [e], quarantine, created, all)
  {
    hide Extended, Rooted, Remaining, PathNames, Names, Parents, Unreachable, Reaches, AlongSome;
    RootedPushed(v, w, root, outputs, entries, quarantine.directory, e, PathNames(outputs));
  }
}
