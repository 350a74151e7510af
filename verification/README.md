# circuitc, verified

circuitc compiles a circuit description to KiCad files, SPICE netlists and simulation
bundles, and publishes them as a set of files.  This project models the parts of it
whose correctness is hard to see in the code, and proves what they are for.

`dafny verify dfyconfig.toml` checks everything.

## What is modelled

**Publication** (`Namespace`, `Walks`, `Cleanup`, `Rollback`, `Directories`, `Progress`,
`Phases`, `Entries`, `Readiness`, `Residue`, `Publication`, `Crashes`).  A volume has names that lead to
objects, objects with contents and inode numbers that are recycled, and open
descriptors.  `Kernel` is that volume behind the calls that the transaction makes.  Any
call may fail.  Before a call another process may do anything to names outside the
directories that only this user can write.  `WriteOutputs` is the transaction on top:
walk to the output directory and make what is missing, preflight, private quarantine,
rename probe, staging, backups, publication, and the rollback from every point.

The kernel keeps books in ghost fields (`staged`, `retired`, `unlinked`, `touched`, `met`,
`stranded`, `uninspected`, `stored`, `watched`, `calm`, `faults`), and `Kernel.Valid` says what must be true of them
before and after every call, so it is an invariant of every reachable state of every run:

* only files that this process created, or originals retired after full publication,
  have ever been unlinked;
* every other file, whether it was there at the start or was put there by another process
  since, has a name unless another process took its last one away;
* without interference (`calm`), no file is lost to anyone, every watched original is at
  exactly one of its target, its backup and its claim, and no original file has changed.

`watched` is set when the second preflight has decided which targets exist, and cleared
only after the last file step of a rollback or when every output is published; no phase
in between may write that field.  After a rollback cleared it, `Rollback.RollBack` still
says that the originals stay where they are while the directories are removed.  Two fields
are written by no one but a kernel call that fails: `uninspected` gets a file or directory
that this process has just made when that object cannot be opened or inspected, `stranded`
a rename probe when it cannot be removed.  `faults` counts the calls that failed without a reason
in the namespace, among them every refusal by a permission check.

`stored` is what the disk is sure to have: a flush that succeeds puts the object into it as
it is at that moment, the contents of a file or all names in a directory, and nothing else
writes it.  So `IsStored` says of an object that nothing has changed since its last flush.

**Exact decimals** (`Reading`, `DecimalDigits`, `Quantity.dfy`, `SimulationGrid`, `Literals`,
`EngineeringNotation`).  `Reading` says what a decimal text means from its characters alone,
and whatever is printed or lowered is stated by it.  Digit strings of any length with multiplication, borrow
subtraction, long division and comparison, all specified by the number they denote;
canonical forms; grid membership; the literal parser and the millimetre printer.

**SPICE lowering** (`Sorting`, `Words`, `Circuits`, `Spice`, `Netlist`).  The checks of a
design that lowering relies on, the renaming under a case-insensitive target, and the text
of the netlist, stated by cutting it into lines and words.

**Result budget** (`ResultBudget`), **source language** (`SourceText`, `Lexer`, `Grammar`,
`Language`, `Parser`), **KiCad identities and checks** (`Identity`, `Schematic`).

The language is stated without the lexer and the parser: `Lexer.Chunk` is a writer of texts
with its own tables of characters, `Language` the grammar of docs/language.md as lists of
symbols.  The lexer finds what a text is written from, every text is written from something,
and the parser accepts exactly the streams of the grammar.  Names with a fixed set of values
(directions, layers, units and the like) are names in that grammar; the code too checks them
after parsing.

## How to read the publication theorem

`Publication.WriteOutputs` has two layers of clauses.  In every run, a success without a
warning means that no call has failed: no hook, no check, no flush and no removal.

Without interference:

* If nothing fails and the publication is `Ready`, the outcome is a success without a
  warning.  `Readiness.Ready` is a condition on the volume and the outputs before the first
  call: every path can be followed or made, targets are absent or regular files, no output
  is another one or lies where another one needs a directory, the names used on the way
  are free, and the random names are not in use.
* A success puts every output's contents at the place to which its path leads, and what
  it gives up are exactly the files that stood at the targets.  No success, with or without
  a warning, changes any other name from before.  After a success without a warning the only
  new names besides the targets are directories that were missing on the way to an output.
* After every success the disk has the file at each target.  After a success without a
  warning it also has every directory in which a name has changed, and the output directory
  (`Durable`).  The code tells directories apart by inode number when it flushes them; that
  this skips none is proved for an anchor that has a name or an open descriptor.
  `Crashes.CrashKeepsPublication` says what this is for: a crash after such a success takes
  nothing back.
* An output path that is empty or has an empty, `.` or `..` component is refused before
  anything is touched.
* A failure whose report is clean leaves every name and all contents as they were.
* If one call fails, at any point of a publication that is `Ready`, and the outcome is a
  failure, then every name from before is as it was, and what is new is a directory on the
  way to an output, a quarantine, or in a quarantine an object that was kept (`OnlyResidue`).
  If no call fails, the same holds whether the publication is ready or not.  The bound on
  failing calls is `faults <= old(faults) + Slack(Ready(...))`; there is no exception.
* With the same bound the report is clean, so nothing at all is left, as long as the random
  names are not in use (`Unforeseen`) and nothing was kept (`uninspected` and `stranded` are
  empty).  What is kept is told by the failing call itself, so a run without a failing call
  keeps nothing.

The first reason to keep something is what the code intends: a file or directory that had
just been made and could not be inspected.  The second a reader may not expect: when the removal of the rename probe fails after the probe has come
back (cmd/circuitc/main.rs:2679-2691), the probe stays in the quarantine, and the rollback
cannot remove a quarantine that is not empty.  All or nothing fails there.  `stranded` holds
such probes, `Phases.Probe` shows that a probe is removed exactly when it is not stranded,
and `WriteOutputs` that every stranded probe still has a name, the outcome is an unclean
failure and a call has failed.

With interference, the accounting clauses hold for every run: a failed run unlinks only
files that it created; a successful one also files that were opened, as regular files, at
the outputs' targets; every other file has a name unless another process took it away.
`Cleanup.RestoreOwnedFile` says where an original is when it could not be restored.

`Unguessed` says that the 128-bit random part of the quarantine's name does not also occur
in an output path.  The code relies on that: it does not check the name against the paths.

## Other findings

* `if self.cursor == before { self.advance(); }` in the parser's loops
  (src/frontend/parser.rs:62-64 and the loops like it) is never needed: every item takes at
  least one token.  The model proves the progress and has no such step.
* `result_bytes.checked_add` in the result loop (src/compile.rs:754-756) cannot fail once the
  sum of the reserved results has been computed.
* A literal whose fraction or run of trailing zeros is longer than 2^31 is refused although
  its value may be representable; `CountsFit` is that condition, and every literal text
  shorter than 2^31 characters meets it.
* The first match of `net_for_pin` and the last-wins map of the validator can only be
  reconciled because a pin that is connected twice is reported.

## Model

| member | source | states |
|---|---|---|
| Namespace.Kernel.Interfere | cmd/circuitc/main.rs:2606-2609 | another process may change any name outside the private directories; the books account for every file, old or new, that is left without a name |
| Namespace.Kernel.RenameNow | cmd/circuitc/main.rs:3240-3269 | rename without replacing: moves the name exactly when the source exists, the target is free and the call does not fail, and says which of these stopped it |
| Namespace.Kernel.Rename | cmd/circuitc/main.rs:3271-3316 | the same after interference, with all invariants kept; what stands in a private directory is moved or stays, whatever others do |
| Namespace.Kernel.UnlinkNow | cmd/circuitc/main.rs:967-980 | removes one name; may only be called for a file that this process created or for a retired original |
| Namespace.Kernel.Unlink | cmd/circuitc/main.rs:967-980 | removal inside the quarantine, where the name cannot have changed hands: the file that was put there loses its name, or keeps it if the call fails |
| Namespace.Kernel.CreateFile | cmd/circuitc/main.rs:924-946 | exclusive creation: a new object under a free name, with the descriptor open and an inode number that no live object has; refused only if the name is taken |
| Namespace.Kernel.MakeDirectory | cmd/circuitc/main.rs:948-965 | creates an empty directory, or says that the name is taken, and only if it is |
| Namespace.Kernel.RemoveDirectory | cmd/circuitc/main.rs:971-979 | without interference, success means that a directory was there with nothing in it, and such a directory goes unless the call fails |
| Namespace.Kernel.WriteAll | cmd/circuitc/main.rs:2043-2055 | writes everything, or a beginning of it if it fails, and changes no name |
| Namespace.Kernel.Flush | cmd/circuitc/main.rs:1779-1782 | unless the call fails, the disk has the object as it is, and nothing else becomes or stops being stored |
| Namespace.Kernel.OpenRegular | cmd/circuitc/main.rs:2554-2584 | opens the file behind a name, keeps the descriptor and notes where it was found; it does so for every regular file unless the call fails |
| Namespace.Kernel.Identify | cmd/circuitc/main.rs:2586-2592 | reads the inode number behind a name; in a private directory that is still the object that was put there |
| Namespace.MoveKeepsOriginals | cmd/circuitc/main.rs:2777-2816 | a rename between places of an original, or away from all of them, leaves each watched original at exactly one place |
| Namespace.JourneyIsKept | cmd/circuitc/main.rs:2777-2816 | the journey target, backup, claim, target is such a sequence of renames, even for originals that are hard links of each other |
| Namespace.InterferenceKeepsBooks | cmd/circuitc/main.rs:2718-2749 | files that another process left without a name are the only ones that go missing by interference, among the files of the start and those that appeared since |
| Cleanup.EqualIdentity | cmd/circuitc/main.rs:1012-1022 | while a descriptor is open, an equal inode number means the same file object, although inode numbers are recycled |
| Cleanup.ClaimOwnedFile | cmd/circuitc/main.rs:2694-2751 | under interference, a successful claim holds the very file that was staged or backed up; without it, the name moved into the quarantine and nothing else changed, it succeeds whenever the file is there, and anything else goes back |
| Cleanup.CheckClaim | cmd/circuitc/main.rs:2717-2750 | what was claimed is the expected file, or is sent back to its name |
| Cleanup.RemoveOwnedFile | cmd/circuitc/main.rs:2753-2775 | unlinks the owner's file and no other; without interference success leaves exactly that name gone |
| Cleanup.RestoreOwnedFile | cmd/circuitc/main.rs:2777-2816 | under interference too, success puts the owner's file at the target, and a blocked restore leaves it at the backup name or in the quarantine; without faults and interference an unsuccessful restore changes nothing |
| Cleanup.PlaceClaimedFile | cmd/circuitc/main.rs:2796-2815 | the second half of a restore: the claimed file ends at its target, at the backup name or at its claim, whatever others do |
| Cleanup.PreserveUnidentifiedFile | cmd/circuitc/main.rs:2992-3014 | a file without identity is moved aside to its claim and reported, never removed |
| Cleanup.RemoveOwnedDirectory | cmd/circuitc/main.rs:2818-2909 | without interference, success means that nothing stood at the name, or the created directory stood there and was empty; all but its two names stay as they are, and without a fault a directory that is not removed is back at its name |
| Cleanup.RemoveClaimedDirectory | cmd/circuitc/main.rs:2838-2908 | without interference, the claimed directory is removed if it is the created one and empty, and else moved back |
| Cleanup.RemoveCreatedDirectories | cmd/circuitc/main.rs:3198-3211 | success removes exactly the created directories, and it succeeds for every stack of directories that creation leaves; without a fault, what goes is always a created directory with nothing left in it |
| Cleanup.LastIsRemovable | cmd/circuitc/main.rs:3198-3211 | in reverse order every created directory is empty, and the name to move it to is free, when its turn comes |
| Rollback.RemovePublished | cmd/circuitc/main.rs:3026-3041 | published outputs are removed newest first; staged files and backups stay where they are |
| Rollback.RestoreBackup | cmd/circuitc/main.rs:3042-3057 | one original goes back to its target and all other names of the transaction keep their place |
| Rollback.RestoreBackups | cmd/circuitc/main.rs:3042-3057 | all originals go back, newest first, whenever no call fails and their targets are free |
| Rollback.RemoveStaged | cmd/circuitc/main.rs:3058-3086 | files that are staged and not published are removed, unidentified ones preserved |
| Rollback.UndoFiles | cmd/circuitc/main.rs:3026-3086 | the three file steps together lead to the names that `Undone` computes |
| Rollback.RollBack | cmd/circuitc/main.rs:3016-3101 | a clean rollback ends exactly at the undone names without the quarantine and the created directories; it is clean whenever no call fails and nothing stands in the way; an unclean one without a fault ends at the undone names too, but for an unidentified file at its claim and for directories in which something is left; every original that was watched and lies apart from those directories ends at exactly one of its places |
| Directories.StackGrows | cmd/circuitc/main.rs:2450-2469 | a directory made at a free name, with a free cleanup name, goes on top of the stack |
| Directories.DirectoryPushed | cmd/circuitc/main.rs:2458-2469 | removing the registered directories again gives the names from before |
| Directories.Adopt | cmd/circuitc/main.rs:2470-2475 | a directory that was just made is opened and identified, or the failing call has noted it as uninspected; without a failing call, a directory is always opened and nothing is noted |
| Directories.MakeChild | cmd/circuitc/main.rs:2457-2475 | one missing directory is made and registered before anything else can fail; one that another process made is used but not owned |
| Directories.EnterChild | cmd/circuitc/main.rs:2438-2478 | one path component is opened or made, and the discipline of the stack is kept; only a failing call stops it where the component is a directory, or is missing with a free cleanup name |
| Directories.CreatePath | cmd/circuitc/main.rs:2422-2482 | the result is the directory to which the path leads; only new directories on that path were added, and removing them gives the names from before, also when it fails; a path that can be walked is walked unless a call fails |
| Directories.InspectExisting | cmd/circuitc/main.rs:2404-2420 | the first preflight changes nothing and refuses exactly the targets that are irregular or lie behind something that is no directory |
| Directories.AdmitQuarantine | cmd/circuitc/main.rs:1686-1745 | a quarantine that is refused is removed again unless it could not be identified |
| Directories.CreateQuarantine | cmd/circuitc/main.rs:1671-1755 | the quarantine is a new private directory under a free name with a known identity, or everything is as before; one failing call leaves nothing behind |
| Walks.LocateFurther | cmd/circuitc/main.rs:2422-2482 | how far a path leads is settled by how far its front leads |
| Walks.WalkableStays | cmd/circuitc/main.rs:2450-2469 | making the directories of one output does not block the way of another |
| Walks.SamePlace | cmd/circuitc/main.rs:2422-2482 | two paths that lead to one directory after directories were made had led equally far before |
| Progress.AtTheStart | cmd/circuitc/main.rs:1998-1999 | before the first output is staged there is nothing to undo |
| Progress.StageStep | cmd/circuitc/main.rs:2000-2011 | staging a file keeps the relation to the start: undoing what has been done leads exactly back |
| Progress.BackupStep | cmd/circuitc/main.rs:2094-2122 | moving an original to its backup keeps the relation |
| Progress.TargetIsOriginal | cmd/circuitc/main.rs:2073-2093 | the file backed up is the one that stood at the target at the start |
| Progress.TemporaryIsFree | cmd/circuitc/main.rs:2000-2011 | the next temporary name is free as long as outputs do not collide |
| Progress.BackupIsPossible | cmd/circuitc/main.rs:2073-2122 | the next original is still at its target, and its backup name is free |
| Progress.TargetIsFree | cmd/circuitc/main.rs:2178-2203 | with every existing target backed up, the next target is free |
| Progress.PublishStep | cmd/circuitc/main.rs:2178-2203 | publishing an output keeps the relation |
| Progress.PublishIsUndone | cmd/circuitc/main.rs:2178-2203 | the names of a rollback from after a publication step are those from before it |
| Phases.PreflightAll | cmd/circuitc/main.rs:1931-1971 | afterwards it is known which targets exist, and every name the transaction will use, claims included, is free; it passes whenever that is so and no call fails |
| Phases.Probe | cmd/circuitc/main.rs:2612-2692 | the probe is gone and every name as it was exactly when it is not stranded; a stranded probe stands at one of its two names, in the quarantine if its removal was the only call that failed |
| Phases.StageOutput | cmd/circuitc/main.rs:2000-2069 | the temporary file is registered before anything else can fail; when it succeeds, the file has been written and then flushed |
| Phases.StageAll | cmd/circuitc/main.rs:1998-2070 | every output is staged, identified, holds its contents, and has been flushed since |
| Phases.OriginalsAreInPlace | cmd/circuitc/main.rs:1942-1955 | observation starts with every original at its target only |
| Phases.OriginalsTravel | cmd/circuitc/main.rs:2777-2816 | two outputs share no target, backup or claim, so the originals do not get in each other's way |
| Phases.BackUpOutput | cmd/circuitc/main.rs:2073-2159 | one original moves to its backup and its authenticating descriptor is kept |
| Phases.BackUpAll | cmd/circuitc/main.rs:2071-2161 | success means that every existing target has its backup, opened at that target, and comes whenever no call fails; else the relation to the start still holds for a rollback |
| Phases.PublishOutput | cmd/circuitc/main.rs:2165-2203 | one staged file is renamed to its target without replacing anything |
| Phases.PublishAll | cmd/circuitc/main.rs:2163-2204 | all outputs are published, which happens whenever no call fails and targets are out of the way, or the relation still holds; a published output always has a recorded identity |
| Entries.BuildEntries | cmd/circuitc/main.rs:1880-1930 | every output gets its directory and its names; its directory is the one its path leads to; it succeeds whenever all paths can be walked and no call fails |
| Entries.BuiltAreWellNamed | cmd/circuitc/main.rs:1902-1914 | the names of one output all differ; temporaries, backups and probes of all outputs never coincide across kinds; two outputs share all public names or none, and never a claim |
| Entries.ClaimNameIsInjective | cmd/circuitc/main.rs:1911-1914 | claims of different outputs differ |
| Publication.MidwayIsUndoable | cmd/circuitc/main.rs:3016-3101 | from every point of the transaction nothing stands in the way of a rollback |
| Publication.Abort | cmd/circuitc/main.rs:3016-3101 | a rollback from any point: clean means back to the start, and it is clean unless a call fails |
| Publication.CleanUpBackups | cmd/circuitc/main.rs:3103-3126 | only the backups lose their names, and they all do when they stand where they were put and no call fails |
| Publication.SyncDirectories | cmd/circuitc/main.rs:3128-3187 | without interference, success means that the disk has every directory as it is, provided that they have names or descriptors; going by inode numbers skips none of them |
| Publication.Finish | cmd/circuitc/main.rs:2205-2220 | no warning means that no call has failed, with or without interference; without it, that the backups and the quarantine are gone and that the disk has every directory in which a name changed; without faults there is none; files that were stored stay stored |
| Publication.FlushedIsDurable | cmd/circuitc/main.rs:3128-3187 | the three kinds of directories that are flushed are all in which a name has changed, and none of them is without a name |
| Publication.OutputsAreStored | cmd/circuitc/main.rs:2056-2070 | the file at every target has been flushed since it was written |
| Crashes.CrashKeepsPublication | cmd/circuitc/main.rs:2209-2219 | after a crash that may lose whatever was not flushed, every output is delivered, every other name leads where it led, and every file from the start has its contents |
| Crashes.ReachesOnDisk | cmd/circuitc/main.rs:3128-3187 | a path leads where it led once every directory with a name in it is on the disk |
| Publication.QuarantineIsRemovable | cmd/circuitc/main.rs:2911-2990 | an empty quarantine can be removed as long as its cleanup name is free |
| Publication.OutputsAreDelivered | cmd/circuitc/main.rs:2163-2220 | every output's path leads to a file with its contents |
| Publication.OnlyOutputsHaveChanged | cmd/circuitc/main.rs:2205-2220 | apart from targets and directories that were missing on the way to an output, every name is as before |
| Publication.ReachesAround | cmd/circuitc/main.rs:2911-2990 | removing the empty quarantine breaks no path that does not end in it |
| Publication.StartStays | cmd/circuitc/main.rs:2205-2220 | whatever goes wrong after full publication, no name from the start but a target changes |
| Publication.BuiltIsGrown | cmd/circuitc/main.rs:1860-1930 | until all names are settled, only the quarantine and directories on the way to an output are new |
| Publication.ReplacedAreOriginals | cmd/circuitc/main.rs:2071-2161 | the files given up are exactly those that stood at the targets |
| Readiness.TargetIsNotMade | cmd/circuitc/main.rs:1880-1930 | making directories puts none where an output has to be, if no output's place is a part of another's |
| Readiness.ReadyIsAdmissible | cmd/circuitc/main.rs:1808-1836 | a ready publication passes the first preflight |
| Readiness.SettledIsReady | cmd/circuitc/main.rs:1931-1971 | once all directories exist, a ready publication finds every target admissible and every other name free, and its outputs do not collide |
| Readiness.EmptyDirectoryIsReady | cmd/circuitc/main.rs:1787-2221 | an empty directory is ready for one output |
| Residue.ResidueShrinks | cmd/circuitc/main.rs:3198-3211 | removing empty directories in any order, and stopping anywhere, leaves no other kind of residue: whatever remains is still reached |
| Residue.LeftBehindIsResidue | cmd/circuitc/main.rs:2992-3101 | a kept file in the quarantine, with some of the directories removed, is all that a rollback leaves, and every name from the start is as it was |
| Publication.Commit | cmd/circuitc/main.rs:1998-2221 | staging, backing up and publishing end at the published state or back at the start; with outputs that do not collide, success if no call fails, and if one does, a failure that leaves at most an unidentified file at its claim and the directories around it; without such a file no trace; a publication without a warning has flushed every directory it changed |
| Publication.Transact | cmd/circuitc/main.rs:1860-2221 | the same for everything that happens while the quarantine exists, in terms of the volume before the first call: what is left is residue and every earlier name stays |
| Publication.WriteOutputs | cmd/circuitc/main.rs:1787-2221 | publication is all or nothing and destroys nothing foreign: see "How to read the publication theorem" |
| DecimalDigits.Multiply | src/design.rs:1858-1875 | the digits of the product |
| DecimalDigits.Subtract | src/design.rs:1885-1914 | the digits of the difference, with all borrows settled |
| DecimalDigits.Compare | src/design.rs:1877-1883 | length, then digits, decides exactly like the numbers |
| DecimalDigits.ExactQuotientU32 | src/design.rs:1916-1937 | the quotient exactly when the division leaves no remainder and the quotient fits 32 bits, although it gives up as soon as a prefix is too large |
| DecimalDigits.ExactQuotientMeans | src/design.rs:1916-1937 | that quotient is the only number whose product with the divisor is the dividend |
| DecimalDigits.PrefixQuotientIsALowerBound | src/design.rs:1922-1936 | a prefix quotient that overflows means that the whole quotient does |
| Quantities.NormalizationIsExact | src/quantity.rs:194-232 | the normal form has exactly the value of the input |
| Quantities.NormalizationSucceedsIff | src/quantity.rs:194-232 | it exists exactly for zero and for values whose canonical exponent and coefficient are in range |
| Quantities.NormalizedIs | src/quantity.rs:194-232 | what becomes of a value, and which error it gets, depends on its one canonical form alone: an exponent below -18, a coefficient beyond 64 bits, or that form |
| Quantities.EqualValuesNormalizeAlike | src/quantity.rs:194-232 | equal values have the same normal form |
| Quantities.NormalizationIsIdempotent | src/quantity.rs:46-61 | normalising again changes nothing |
| Quantities.CanonicalFormIsUnique | src/quantity.rs:46-61 | two canonical pairs with equal value are equal |
| Quantities.NormalizeDecimal | src/quantity.rs:194-232 | the loop computes the normal form, and its 128-bit scaling fails only when the result would not fit anyway |
| Quantities.AcceptedMeansCanonicalForm | src/design.rs:1735-1737 | accepted quantities have the unit, an exponent from -18 to 18, and no trailing zero that could be moved into it |
| Quantities.AcceptedQuantitiesEqualIffSameValue | src/design.rs:1735-1737 | on accepted quantities structural equality is equality of value |
| Quantities.CompareMagnitude | src/quantity.rs:157-192 | comparing the width and then padded digits gives the order of the values |
| Quantities.CompareDecimal | src/quantity.rs:132-155 | with signs, and without overflow at the extreme coefficients |
| Quantities.ExactCompare | src/quantity.rs:69-79 | the true order for quantities of one unit, nothing for different units |
| Quantities.OrderAtAnyBase | src/quantity.rs:67-79 | the order of two decimals does not depend on the scale at which they are read |
| SimulationGrid.ScaledNonnegativeDigits | src/design.rs:1846-1856 | the digits of a non-negative coefficient times a power of ten |
| SimulationGrid.QuantityDifference | src/design.rs:1788-1797 | the exact difference at the finest exponent |
| SimulationGrid.AcGridIndex | src/design.rs:1744-1760 | index k exactly when k is below the number of points and the sample lies k steps up the sweep, over exact decimals |
| SimulationGrid.TransientGridLocation | src/design.rs:1768-1786 | endpoint exactly when the sample is the stop time; step k exactly when it is k steps and earlier; nothing otherwise |
| SimulationGrid.TransientNominalSamplesSaturating | src/design.rs:1811-1844 | the binary search gives the smaller of the saturation and the ceiling plus one |
| SimulationGrid.AggregateExceedsCap | src/design.rs:1226-1249 | over budget exactly when the true sum of sample counts exceeds 10,000, for any number of analyses |
| SimulationGrid.ValidateAcSample | src/design.rs:1604-1710 | a frequency sample is accepted exactly when it is exact, in the declared range and, if the sweep is soundly declared, a member of it |
| SimulationGrid.ValidateTransientSample | src/design.rs:1604-1710 | a time sample is accepted exactly when it is exact, in the declared range and, if the analysis is soundly declared, a member of its grid |
| SimulationGrid.ValidateAssertionSample | src/design.rs:1604-1710 | the sample checks for all kinds of analysis together; for a soundly declared analysis they accept exactly what it generates; which code is reported depends on the kind, then on the quantity, then on the grid |
| SimulationGrid.ValidExponentsAreScalable | src/design.rs:1846-1856 | exponents of accepted quantities can always be scaled |
| Literals.ScanInvertsRender | src/frontend/quantity.rs:175-199 | the shape check accepts exactly the written decimals and recovers their parts |
| Literals.LowerLengthMeans | src/frontend/quantity.rs:7-70 | a length is lowered to n exactly when the literal denotes n nanometres and n is in the envelope, also when the digits overflow 128 bits |
| Literals.LowerLengthReads | src/frontend/quantity.rs:7-70 | the same from the characters: n is what the decimal reads as, times the unit, and each error code has its own condition |
| Literals.LowerElectricalMeans | src/frontend/quantity.rs:72-134 | a quantity is lowered to q exactly when q is the normal form of what the literal denotes |
| Literals.LowerElectricalReads | src/frontend/quantity.rs:72-134 | the same from the characters, with the unit's power of ten, and each error code has its own condition |
| Literals.ShortLiteralsFit | src/frontend/quantity.rs:200-229 | texts shorter than 2^31 never meet the 32-bit count limit |
| Literals.ShortTextsFit | src/frontend/quantity.rs:200-229 | the same, said of any text |
| Literals.Millimeters | src/kicad.rs:1354-1369 | the printed text is the plain decimal of the coordinate |
| Literals.MillimetreTextDenotes | src/kicad.rs:1354-1369 | that decimal denotes exactly the coordinate |
| Literals.MillimetreTextReads | src/kicad.rs:1354-1369 | read from its characters it is the coordinate in units of 10^-6, without a needless zero or sign |
| Literals.LengthRoundTrip | src/kicad.rs:1354-1369 | printing a coordinate and lowering the text gives the coordinate back, for the whole envelope |
| EngineeringNotation.EngineeringPartsAreExact | src/quantity.rs:122-129 | the exponent becomes a multiple of three and the value stays; 128 bits suffice |
| EngineeringNotation.LiteralReads | src/quantity.rs:82-89 | what is written, read character by character, is the pair that was to be written |
| EngineeringNotation.ReadingIsUnique | src/quantity.rs:82-89 | no two pairs of coefficient and exponent are written alike |
| EngineeringNotation.SpiceLiteralIsExact | src/quantity.rs:82-89 | read character by character, the literal has exactly the value of the quantity; the exponent is a multiple of three, is left out exactly when it is zero, and no needless zero or sign is written |
| EngineeringNotation.LiteralsAgreeWithValues | src/quantity.rs:82-89 | accepted quantities have equal literals exactly when they have equal values |
| Circuits.ValidateNets | src/design.rs:652-675 | nothing is reported exactly when all net names are tokens and distinct, and each code exactly when its defect occurs |
| Circuits.ValidateConnections | src/design.rs:2167-2209 | nothing is reported exactly when pins are tokens, known, connected once and to known nets, and each code exactly when its defect occurs |
| Circuits.ValidateSimulation | src/design.rs:3029-3055 | nothing is reported exactly when the terminals are two connected pins, and each code exactly when its defect occurs |
| Circuits.ValidateComponent | src/design.rs:2031-2229 | nothing is reported exactly when the component is well formed and its path and reference are new, and each code exactly when its defect occurs |
| Circuits.Validate | src/design.rs:628-770 | nothing is reported exactly when the design is well formed, and each code exactly when its defect occurs |
| Circuits.FirstIsLast | src/design.rs:363-368 | when no pin is connected twice, the first match that lowering takes is the last-wins entry that validation checked |
| Circuits.TokensAre | src/design.rs:3144-3149 | a token is a non-empty text of letters, digits and five signs, by their codes |
| Circuits.PathsAre | src/design.rs:3161-3166 | a semantic path is cut at its dots into tokens |
| Circuits.ArtifactNamesAre | src/design.rs:3151-3159 | an artifact name starts with a letter or an underscore and goes on with letters, digits, underscores and hyphens |
| Spice.HexEncode | src/spice.rs:365-371 | two digits per byte, for any bytes |
| Spice.HexIsInjective | src/spice.rs:365-371 | the bytes can be read back from their digits |
| Spice.HexReads | src/spice.rs:365-371 | each pair of digits, read as a number in base 16, is the byte |
| Spice.NamesCanBeReadBack | src/spice.rs:66-86 | the names recorded in the netlist determine the original names |
| Spice.CandidateKeysDiffer | src/spice.rs:354-363 | different discriminators give names that differ without regard to case |
| Spice.CandidateReads | src/spice.rs:354-363 | a candidate is the base alone, or the base, an underscore and the discriminator as a number |
| Spice.CaseKeyIs | src/spice.rs:339-341 | two names have the same key exactly when they are the same letters, large or small |
| Spice.SupportedIs | src/spice.rs:343-348 | a supported name is a non-empty text of letters, digits and underscores, by their codes |
| Spice.UniqueMangled | src/spice.rs:354-363 | terminates for the bytes of any text and every set of used names, and gives the first candidate that is new, supported, and marked by its prefix |
| Spice.CaseCounts | src/spice.rs:331-337 | counts names without regard to case |
| Spice.CountedOnceIsAlone | src/spice.rs:331-337 | a count of one means that no other name collides |
| Spice.Allocate | src/spice.rs:223-254 | reserving kept names first, no mangled name collides with any kept or mangled one |
| Spice.LowerNets | src/spice.rs:212-254 | ground is node 0; other nets keep their name exactly when it is supported, not reserved and not shared; all nodes differ without regard to case |
| Spice.LowerDevices | src/spice.rs:255-298 | references are kept exactly when they start with the model's letter, are supported and not shared; all devices differ and start with their letter |
| Netlist.EmittedNets | src/spice.rs:183-211 | exactly the nets at which some simulated component ends |
| Netlist.TerminalsResolve | src/spice.rs:106-111 | in a well-formed design no lookup of a terminal fails |
| Netlist.LowerNames | src/spice.rs:183-304 | exactly the nets that are needed are named, in order, and every simulated component |
| Netlist.DeviceIsKept | src/spice.rs:306-329 | a device keeps its reference exactly when that starts with the model's letter, is plain and is no other one's, read without regard to case; else it is marked by its prefix |
| Netlist.NetIsKept | src/spice.rs:212-254 | the same for a net, said of names and letters alone |
| Netlist.LineSays | src/spice.rs:88-140 | cut at blanks, a line is the device, the node of the positive pin, the node of the negative pin, and the value of the component, with the excitation of the analysis where there is one |
| Netlist.NamingIsFaithful | src/spice.rs:223-253 | nodes are injective without regard to case, and node 0 is exactly ground |
| Netlist.LinesAreFaithful | src/spice.rs:88-140 | two terminals share a node exactly when they are on one net, read from the words of the lines: the positive terminal behind the name, then the negative one |
| Netlist.LowerNetlist | src/spice.rs:43-181 | cut into lines and words, the netlist is the header, one comment for every entry of the name map, one line for every simulated component in ascending order of paths, the directive of the analysis, and the end; the lines describe the circuit of the design, and the name map gives every terminal its node |
| Netlist.WriteNetlist | src/spice.rs:66-181 | the text says these sentences and no others |
| Words.SentencesOfText | src/spice.rs:66-181 | a text written line by line and word by word is cut into the same words |
| ResultBudget.SelectResultWithBudget | src/compile.rs:790-810 | the candidate exactly when it leaves room for what is reserved and nothing was exhausted before |
| ResultBudget.RunOne | src/compile.rs:712-753 | one execution, one choice, one evaluation; a fallback is chosen under the same budget |
| ResultBudget.ExhaustionIsSticky | src/compile.rs:790-810 | from the exhausted step on every result is the reserved one, and before it every result fits |
| ResultBudget.BudgetHolds | src/compile.rs:701-756 | recorded bytes plus what is still reserved never exceed the larger of limit and reserve |
| ResultBudget.TotalIsBounded | src/compile.rs:681-788 | the whole takes at most the limit if the reserved results alone fit |
| ResultBudget.Run | src/compile.rs:681-788 | every bundle is executed once and in order and has one result; an early stop needs an unreliable host or an overflow of the reserve; a rejection reports the diagnoses of all simulations in order |
| SourceText.SourceFile.constructor | src/frontend/syntax.rs:37-50 | the index holds exactly the starts of lines |
| SourceText.SourceFile.StartsUpTo | src/frontend/syntax.rs:65-65 | halving finds the number of line starts at or before an offset |
| SourceText.SourceFile.LineColumn | src/frontend/syntax.rs:60-70 | for the last character boundary at or before the offset: one more than the line feeds before it, and one more than the characters since the last of them; for the encoding of a text, the line and column of the character that the offset lies in |
| SourceText.TextsAreEncoded | src/frontend/syntax.rs:37-50 | the UTF-8 bytes of any characters are a text in the sense of this model |
| SourceText.WalkOverCharacters | src/frontend/syntax.rs:60-70 | walking over the bytes of characters counts line feeds and characters |
| SourceText.WalkFromIndex | src/frontend/syntax.rs:60-70 | the walk reaches the same line and column as the index |
| SourceText.CutAtBoundary | src/frontend/syntax.rs:62-68 | boundaries cut encoded text into encoded text and split its character count |
| SourceText.LineStartsAreBoundaries | src/frontend/syntax.rs:40-44 | no character continues after a line feed, so slicing at a line start cannot fail |
| Lexer.PiecesTile | src/frontend/lexer.rs:44-98 | blanks, comments, lexemes and stray characters follow each other without gap or overlap |
| Lexer.ExactlyOnePiece | src/frontend/lexer.rs:44-98 | every character lies in exactly one piece |
| Lexer.TokensAreInOrder | src/frontend/lexer.rs:44-98 | token spans are in bounds, ordered and disjoint |
| Lexer.PiecesAreWhatTheySay | src/frontend/lexer.rs:44-112 | comments, blanks and strays are exactly what they are called |
| Lexer.Lexer.LexAtom | src/frontend/lexer.rs:114-130 | an atom always makes progress, and is as long as it can be |
| Lexer.AtomIsMaximal | src/frontend/lexer.rs:114-130 | an atom goes on to the first character that cannot belong to it |
| Lexer.Lexer.LexString | src/frontend/lexer.rs:132-181 | the string, its end and its problems are those of the scan |
| Lexer.Lexer.SkipComment | src/frontend/lexer.rs:100-112 | a comment ends after the next line feed |
| Lexer.Lex | src/frontend/lexer.rs:24-34 | exactly the lexemes and problems of the pieces, and one end token at the end; for a text written from chunks, exactly what the chunks say, with their places |
| Lexer.ChunksFound | src/frontend/lexer.rs:24-209 | whatever a text is written from is what is found in it: every mark, word, number, string and stray character, and every problem |
| Lexer.EveryTextIsWritten | src/frontend/lexer.rs:24-98 | every text is written from chunks, so that holds for all texts |
| Lexer.SpellingIsFound | src/frontend/lexer.rs:24-98 | every list of tokens that can be written is found again, without a problem |
| Lexer.NumbersAreLiterals | src/frontend/lexer.rs:202-209 | the lexer's number check and the literal parser's shape check accept the same texts |
| Lexer.QuotedLexesBack | src/kicad.rs:1349-1352 | lexing a quoted text gives that text as the only token without a problem exactly when it has no line break |
| Parser.Parser.RecoverItem | src/frontend/parser.rs:1027-1053 | recovery stops, for the first time it can, in front of the brace that closes the surrounding block, after the semicolon or the block that ends the item, or at the end; it moves on from everything but such a brace |
| Parser.Parser.Expect | src/frontend/parser.rs:921-999 | one token is taken if it fits, and else reported |
| Parser.Parser.Follow | src/frontend/parser.rs:142-919 | a declaration is followed to its end: what it consumed is what its result prints, every failure is reported, and whatever prints like this is found |
| Parser.Parser.ParseItems | src/frontend/parser.rs:431-459 | the items of a block, with recovery |
| Parser.Parser.ParseItem | src/frontend/parser.rs:91-140 | one item, always with progress |
| Parser.Parser.ParseDesign | src/frontend/parser.rs:44-89 | without a report the whole stream has been consumed and is what the design prints |
| Parser.ParseTokens | src/frontend/parser.rs:14-35 | parsing succeeds exactly for the streams of the grammar, which are those that some design prints, and no failure is silent |
| Parser.Parse | src/frontend/parser.rs:14-35 | a text is parsed exactly when it is written without a problem and its tokens follow the grammar; a text of a design, written in any way, gives that design |
| Parser.FollowedIsUnique | src/frontend/parser.rs:142-919 | a declaration's tokens determine what it says |
| Parser.DesignIsUnique | src/frontend/parser.rs:44-89 | a stream stands for at most one design |
| Language.PlansPrintProductions | docs/language.md:40-136 | whatever the keyword, the parser's plan for it takes exactly the productions of the grammar |
| Language.SourcesArePrinted | docs/language.md:40-136 | the streams that some design prints are exactly the sources of the grammar |
| Parser.StreamIsSource | src/frontend/parser.rs:14-35 | the tokens in front of the end token are a source exactly when the stream can be parsed |
| Identity.PreimageIsInjective | src/kicad.rs:1408-1412 | length-delimited fields determine the contents, the borders and the number of fields |
| Identity.KeysAreDetermined | src/kicad.rs:1371-1379 | two entities are hashed from the same bytes only if namespace, kind and all fields agree |
| Identity.StableUuid | src/kicad.rs:1371-1406 | the identifier is the text of the marked hashes; what is hashed is, field by field, a length of eight bytes and the field; read as a number, the identifier is the two hashes, the second seeded by the first, but for the six marked bits |
| Identity.PreimageSays | src/kicad.rs:1408-1412 | the bytes are the fields, each behind its length of eight bytes, the most significant first |
| Identity.UuidReads | src/kicad.rs:1380-1405 | the digits of the text, read as a number, are the two hashes but for the marked bits |
| Identity.XorBits | src/kicad.rs:1381-1381 | a bit of the exclusive or is set where exactly one of the two has it |
| Identity.VersionAndVariant | src/kicad.rs:1384-1386 | version 8 and the variant of RFC 9562 (sections 5.8, 4.1 and 4.2), as bits and as digits of the text |
| Identity.UuidTextIsInjective | src/kicad.rs:1387-1405 | texts collide only if all sixteen bytes do |
| Identity.ValidateIdentities | src/kicad.rs:85-128 | nothing is reported exactly when all paths and all identifiers are distinct; the result is sorted by path and then by identifier |
| Identity.SortOutputs | cmd/circuitc/main.rs:262-272 | the outputs in ascending order of paths, exactly when no two have the same path |
| Sorting.NeighboursSuffice | src/kicad.rs:91-105 | after sorting, comparing neighbours finds every duplicate |
| Sorting.SortSorts | src/kicad.rs:605-607 | sorting by a key sorts |
| Sorting.AtMostIs | src/kicad.rs:605-607 | the order of texts is that of their first different characters, a beginning first |
| Sorting.SortIsStable | src/kicad.rs:85-105 | what was sorted by another key stays so where the keys are equal |
| Sorting.SortKeepsDistinctness | cmd/circuitc/main.rs:262-272 | sorting neither makes nor hides duplicates |
| Schematic.ValidateConnectionPoints | src/kicad.rs:130-178 | nothing is reported exactly when all pins at one point are on one net, although each is compared with one pin only |
| Schematic.ExtractSymbolDefinition | src/kicad.rs:861-893 | the text from the first occurrence up to the bracket that closes it, strings and escapes respected, or nothing if there is none; a list that is written with balanced brackets and quoted texts is found whole |
| Schematic.WrittenListIsADefinition | src/kicad.rs:861-893 | a written list is a definition, whatever its texts contain and whatever stands around it |
| Schematic.QuotedChangesNothing | src/kicad.rs:861-893 | a quoted text leaves the depth as it is, at every character of it |

## Left out

* Raw system calls, descriptor flags, ownership, mode and access-list checks: the kernel offers names, objects and faults instead; each such check is a call that may fail.
* Symbolic links, `..` in the output directory, and splitting path text into components: paths are given as components.
* The descriptor reserve for cleaning up: acquiring it is a call that may fail; descriptor exhaustion itself is not modelled.
* The interference layer around the rename probe and around the inspection of the new quarantine: the code relies on directory permissions there.
* The texts of error messages and warnings: a report is clean or not.
- Cleanup.RemoveOwnedDirectory: says nothing about directories in runs with interference, where only the accounting of files holds; that the open descriptor of the quarantine makes its identity check sound then is not stated.
- Cleanup.RemoveClaimedDirectory: the same.
- Publication.WriteOutputs: what a failed publication leaves on the disk is not stated, only what it leaves in the volume.  `Ready` is enough for success but more than needed: no component of any path may be named like a temporary, backup, probe or cleanup name at all, also where the directories differ.  The clauses about one failing call ask for `Ready` too, although a rollback from any point is clean without it (`Publication.Abort`).
- Lexer.Lex: spans count characters rather than bytes, and the final sorting of diagnostics is not modelled.
- Language.SourcesArePrinted: directions, electrical types, layers, units, sample counts and other names with a fixed set of values are any names or numbers in this grammar; the code checks them when it elaborates the tree, which is not part of this model.
- Parser.Parse: spans of syntax nodes are not part of the tree, and the two lists of diagnostics are joined in order rather than sorted by position.
- Circuits.ValidateComponent: covers paths, references, pins, connections and simulation terminals; modules, physical parts, symbols, placement and values are not part of this model.
- Circuits.Validate: covers the checks on nets, pins, connections, simulation terminals, paths and references; modules, physical parts, boards and product intent are not part of this model, and diagnostics carry a code and a path only.
- ResultBudget.Run: canonical texts, evaluation and failure results are arbitrary functions of their inputs, and the executor may answer anything.
- Identity.StableUuid: the hash is an arbitrary function; nothing is claimed about collisions of hashes.
- SimulationGrid.ValidateAssertionSample: covers the sample; the remaining fields of an assertion are not part of this model.
- Schematic.ValidateConnectionPoints: positions of pins are given; rotating and placing them is not part of this model.
* Command line parsing, host fixtures, KiCad and JSON templates, catalog data, manufacturing contracts, routing import and the elaborator.
* In debug builds some 32-bit exponent sums panic instead of wrapping; the model has the release behaviour.
