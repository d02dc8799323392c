# Verification of the environment-synthesis controller

The repository runs a sample again and again in a rebuilt environment. Each run is observed, what the sample lacked
becomes requirements, requirements become a repair plan, and the plan's safe part is applied to a clone of the previous
environment, in which the next run takes place. Around that loop stand a rebuilder that writes a dumped process image
back as an ELF file, a controlled network, a recording relay, a replay store and a taint shadow. This project models
these parts in Dafny and proves what they are for.

`dafny verify dfyconfig.toml` checks the whole project.

## The parts

**ELF rebuild** (`Bytes`, `Utf8`, `ElfPages`, `ElfClassify`, `ElfBuilder`, `ElfFormat`, `ElfImage`, `ElfRegions`,
`ElfWritten`, `ElfTarget`, `ElfEncoding`). Pages of the original file and of a dump are merged, coalesced into segments
and written with their headers. `ElfFormat` is a reader and loader written from the System V ABI (chapter 4, section "ELF
Header", and chapter 5, section "Program Header"), `ElfEncoding` gives the same sections' field tables for both classes
and byte orders, and `ElfTarget` is the repository's own inspector. Main results: `ElfImage.Rebuild` (loading the written
file gives exactly the intended overlay), `ElfRegions.RebuildRegions` and `EveryAddress` (every dumped byte is there, and
what is at every address), `ElfTarget.InspectsAsBuilt` (inspecting it gives back what was built) and
`ElfEncoding.InspectsEncoded` (inspecting any encoded header and table gives back what was encoded).

**Snapshots and repairs** (`Rootfs`, `PosixPath`, `PathOrder`, `Snapshot`, `SnapshotClone`, `SnapshotStore`,
`GuestPathText`, `RepairApplier`, `RepairTransaction`, `RepairedEnvironment`, `RepairedSnapshot`). A root filesystem is a
map from component paths to nodes, with inodes for files. Main results: `Snapshot.ScansAgree` (what a scan tells apart),
`SnapshotClone.Destination.CloneEnvironment` (a clone is the same tree, hardlinks included),
`RepairTransaction.Transaction.ApplyFile` with `CompletedTree` (repair application is a transaction, and its report says
what it did), `RepairedEnvironment.RepairCommutesWithScan`.

**Evidence to repair** (`RequirementExtractor`, `RepairPlanner`, `RepairPlan`, `EvidenceToPlan`). Main results: the fold
of contributions is a join (`FoldJoins`, `OrderDoesNotMatter`), the planner's tables (`AuthorizedExactly`, `ActionTable`
and those beside them), plans read back as written (`EvidenceReadsBack`), only the
rootfs can refuse one (`EvidenceAccepted`), and the order of evidence selects nothing else (`OrderSelectsTheSame`).

**Iteration session** (`ProgressOracle`, `EnvironmentManifest`, `Attempt`, `StageReach`, `ManifestBuilder`,
`ManifestRecorded`, `ReportOrder`, `IterationSession`, `SessionSafety`, `SessionDisk`, `SessionTampering`, `SessionSteps`,
`IterationController`, `ExecutionClaim`). A session is
a history of steps; `SessionDisk.DiskOf` says what four stores hold for it, and `SessionDisk.Accepts` is the independent
check. The class `IterationController.Controller` works on the stores field by field. Main results: `PrepareNext` and
`CompleteIteration` lead from the disk of a history to the disk of the next one, `AcceptedExactly` and `HeldVerifies`
(what they write verifies, with the two exact exceptions), `SessionTampering` (which changes to it do not), the session
laws of `SessionSafety`, above all `StopsExactly`, and
`ExecutionClaim.AtMostOneStart` over every interleaving of runners, crashes and resets.

**Network and relay** (`Firewall`, `NetworkBackend`, `RecordBroker`). `Firewall` interprets iptables rules; a plan's
compiled rules mean the plan for every packet, in and out. `RecordBroker` interleaves two pumps and a monitor at their
awaits, and says which bytes are recorded.

**Fast forms over simple ones** (`ShadowMemory`, `GuestResolver`, `ReplayStore`): the dirty-page word scan, the budgeted
symlink resolver, and the replay index as a map.

## What turned out conditional

Some natural claims do not hold of the code as they stand. These are the conditions under which they do:

- Merging page dictionaries keeps every byte if and only if no two regions share a page (`ElfPages.SurvivalCondition`).
- NOBITS pages cover the section if and only if start offset and last byte fit one page (`ElfPages.NobitsCoverage`).
- A failed repair restores the tree if and only if it did not stop at a chmod that failed after its mkdir
  (`RepairTransaction.Transaction.ApplyFile`, whose `Leftover` names that directory; it is not in the rollback log.
  `RepairTransaction.FailedChmodStays` is such a run).
- A result reloads if and only if its goal reason is absent or not empty (`SessionDisk.ReloadsExactly`), so an otherwise
  sound session verifies if and only if that holds of its last one and it has at most 10000 environment versions, the
  number a four-digit file name can hold (`SessionDisk.AcceptedExactly`).
- A replay store loads if and only if every response taken had a delay in 0..60000, which `add` does not check
  (`ReplayStore.LoadsUnlessDelayed`; `ReplayStore.TooLongDelay` is an input).
- The next manifest can be derived if and only if every repaired resource can be written as an identifier
  (`SessionSteps.DeriveSucceeds`, `ManifestBuilder.RecordableResources`).
- A guest can start after its iteration was completed if and only if some runner is poised to
  (`ExecutionClaim.LateStartExactly`), and an operator's completion leaves that open if and only if there is no claim and
  some runner has validated (`ExecutionClaim.OperatorLeavesOpen`; `ExecutionClaim.LateStart` is such a run).
- Reordering evidence leaves a requirement's errno alone if and only if no two contributions to it name different ones
  (`RequirementExtractor.ErrnoUnlessTheyDiffer`; `ErrnoDependsOnOrder` is an input).
- Repeating guest events leaves the oracle's verdicts alone if and only if the number of fatal signals stays the same
  (`ProgressOracle.SignalsDecide`; `RepeatedSignalRegresses` is an input). Their order never matters
  (`ProgressOracle.EventOrderIsIrrelevant`).
- REGRESSION is a strict partial order. PROGRESS is not even asymmetric: two runs are each progress over the other if and
  only if signals and likely blockers agree and the rest is a trade (`ProgressOracle.MutualProgress`; `ProgressIsNoOrder`
  is an input).
- An automatic directory lies inside /proc, /sys or /dev if and only if its text puts one more slash before such a path
  (`RepairPlanner.PseudoByTwoSlashes`; `TwoSlashesPass` is an input).

## Conventions

SHA-256 and every id derived from it are injective: an id is the value it was made from, or a function parameter with
injectivity as a hypothesis. Files are values written whole. Exceptions are `Result` values. A method states its result
or its new state through a function or predicate, and the lemmas beside it say what that function or predicate is worth.
`hide` in a proof keeps definitions the proof does not need from the solver.

## Model

| member | source | states |
|---|---|---|
| `ElfPages.SplitToPages` | rebuilder/pucked_elf.py:22-33 | the returned map has exactly the pages the data reaches, each zero-filled around its bytes |
| `ElfPages.MergeRegions` | rebuilder/pucked_elf.py:87-89 | region after region laid with `update`: the result is the merge in which later regions win |
| `ElfPages.LastToucherDecides` | rebuilder/pucked_elf.py:87-89 | a page's contents come from the last region that touches it and from that one alone |
| `ElfPages.SurvivalCondition` | rebuilder/pucked_elf.py:22-32 | every byte of every region survives, for all contents, if and only if no two regions share a page |
| `ElfPages.SharingLosesBytes` | rebuilder/pucked_elf.py:153-155 | for any layout in which two regions share a page there are contents that lose a byte |
| `ElfPages.NobitsPages` | rebuilder/pucked_elf.py:106-110 | the NOBITS loop visits exactly the pages from the aligned start over the rounded size |
| `ElfPages.NobitsCoverage` | rebuilder/pucked_elf.py:106-110 | those are all the section's pages if and only if start and length do not spill into one more page |
| `ElfClassify.Classify` | rebuilder/pucked_elf.py:172-229 | the pages returned ascend, are whole, and are exactly the overlay: changed dump pages that are no library, else original pages, else zero pages |
| `ElfClassify.AddNobits` | rebuilder/pucked_elf.py:217-229 | zero pages are added exactly for the NOBITS pages neither source has, each once, the first entry's rights winning |
| `ElfBuilder.CollectPages` | rebuilder/pucked_elf.py:271-293 | growing `cur['data']` in place computes the coalescing of the page list |
| `ElfBuilder.CoalesceKeepsPages` | rebuilder/pucked_elf.py:271-293 | cutting the segments up again gives back the page list, and no two neighbouring segments could have been joined |
| `ElfBuilder.PackHeaders` | rebuilder/pucked_elf.py:331-371 | packing succeeds exactly when every field fits its width, and the bytes are the table of those headers |
| `ElfBuilder.PackLoads` | rebuilder/pucked_elf.py:356-371 | advancing `offset` by padded sizes gives each segment the offset of its own bytes |
| `ElfBuilder.Elf.BuildPhdrs` | rebuilder/pucked_elf.py:331-372 | stack entry, interpreter entry when there is one, then the loads: packed bytes and count |
| `ElfBuilder.WriteFile` | rebuilder/pucked_elf.py:250-269 | the writes in order leave exactly the file image |
| `ElfBuilder.Builder.Build` | rebuilder/pucked_elf.py:240-269 | builds the image of the coalesced sorted pages; fails with the error of the first stage that cannot go on |
| `ElfImage.ReadPackedHeader` | rebuilder/pucked_elf.py:331-371 | reading entry i of a packed table gives back header i |
| `ElfImage.ImageEhdr` | rebuilder/pucked_elf.py:295-329 | the file header reads back with the type, entry point modulo 2^32 and header count it was packed from |
| `ElfImage.ImageLayout` | rebuilder/pucked_elf.py:240-269 | header, table, interpreter and segments lie in the file at the offsets the headers give |
| `ElfImage.HeadersReadBack` | rebuilder/pucked_elf.py:240-372 | a reader of the ABI finds exactly the intended program headers and entry point |
| `ElfImage.SegmentsLoad` | rebuilder/pucked_elf.py:356-371 | copying every load segment from its offset gives the memory of all segments |
| `ElfImage.ImageLoads` | rebuilder/pucked_elf.py:240-372 | loading the written file puts every page at its address with its rights, and nothing else anywhere |
| `ElfImage.ImageMappable` | rebuilder/pucked_elf.py:331-372 | loads ascend, do not overlap, and each offset equals its address modulo the page size |
| `ElfImage.RealizedOverlay` | rebuilder/pucked_elf.py:172-229 | a memory that holds the classified pages is the overlay at every address |
| `ElfImage.Rebuild` | rebuilder/pucked_elf.py:172-269 | classify, build, load: whatever was given, a written file loads as the overlay, is mappable and has the intended entry point |
| `ElfRegions.DumpIsLoaded` | rebuilder/pucked_elf.py:131-229 | when no two dump regions share a page, the loaded memory has every dumped byte, and nothing where a page was skipped as a library |
| `ElfRegions.OriginalIsLoaded` | rebuilder/pucked_elf.py:76-229 | under the same condition on segments, every original byte on a page the dump does not have is loaded as it was |
| `ElfRegions.NobitsAreLoaded` | rebuilder/pucked_elf.py:106-110 | a NOBITS section that does not spill into one more page is loaded as zeros wherever neither source has a page |
| `ElfRegions.RebuildRegions` | rebuilder/pucked_elf.py:423-441 | splitting, merging, classifying, building and loading joined: from regions to the bytes in memory |
| `ElfRegions.EveryAddress` | rebuilder/pucked_elf.py:172-229 | address by address, what is loaded: the dump's byte where its page counts, nothing where a page new in the dump is a library's, else the original's byte, else zero where a NOBITS section reaches, each with the rights its source gives |
| `ElfRegions.NobitsDecided` | rebuilder/pucked_elf.py:217-229 | a page is a NOBITS page exactly when some section reaches it, with the rights of the first that does |
| `ElfImage.SmallImagesPack` | rebuilder/pucked_elf.py:295-371 | pages below 4 GiB whose file stays below 4 GiB never overflow a header field |
| `ElfWritten.WritesHeader` | rebuilder/pucked_elf.py:295-329 | the file header written is the gABI encoding of every field, with the version, the OS ABI and zero padding in e_ident |
| `ElfWritten.HeadersTell` | rebuilder/pucked_elf.py:331-372 | read back: a stack header whose flags are read and write and no more, the interpreter at its bytes with its NUL, then each segment at its bytes, with its rights and size |
| `Bytes.LittleWeighs` | rebuilder/pucked_elf.py:295-371 | in little-endian order a byte weighs 256 times what the one before it weighs |
| `Bytes.BigWeighs` | taintforge_env/elf_target.py:97-113 | in big-endian order it weighs 256 times what the one behind it weighs |
| `Bytes.FourBytes` | taintforge_env/elf_target.py:97-113 | both orders of a four-byte field, byte by byte |
| `ElfTarget.Inspect` | taintforge_env/elf_target.py:83-263 | the inspector computes its specification, with the same error for each malformed header, table or interpreter; what the specification is worth is InspectsEncoded |
| `ElfTarget.ScanLoop` | taintforge_env/elf_target.py:189-243 | the loop over entries keeps the one interpreter and fails at the first offending entry |
| `ElfTarget.InspectsAsBuilt` | taintforge_env/elf_target.py:83-263 | inspecting any built file gives back class, order, machine, type, entry modulo 2^32 and interpreter, and fails exactly on more than 4096 headers or an unacceptable interpreter |
| `ElfEncoding.InspectsEncoded` | taintforge_env/elf_target.py:83-263 | a file of either class and byte order that carries a header and table encoded field by field as the gABI lays them out is accepted exactly when the table is small and lies in the file and the interpreter is sound, and then described with the class, order, type, machine, architecture, entry point and interpreter that were encoded |
| `ElfEncoding.HeaderReads` | taintforge_env/elf_target.py:123-169 | every header field is read from where the gABI puts it, in either class and byte order |
| `ElfEncoding.EntryReads` | taintforge_env/elf_target.py:189-211 | so are type, offset and file size of a program header |
| `ElfEncoding.ScanReads` | taintforge_env/elf_target.py:189-243 | the scan finds the one PT_INTERP of the encoded table and refuses an unsound one |
| `ElfEncoding.FieldReads` | taintforge_env/elf_target.py:127-165 | field k of any packed record is read back at the sum of the widths before it |
| `Utf8.ValidExactly` | taintforge_env/elf_target.py:235-240 | interpreter bytes decode exactly when they are the UTF-8 encoding of some Unicode scalar values |
| `Utf8.EncodedIsValid` | taintforge_env/elf_target.py:235-240 | every such encoding decodes |
| `GuestResolver.GuestPathExists` | taintforge_env/elf_target.py:266-323 | the pending-list loop answers as the recursive resolution with 40 link traversals does |
| `GuestResolver.ResolveConcat` | taintforge_env/elf_target.py:278-318 | resolving two runs of components is resolving one and then the other |
| `GuestResolver.LinkSpliced` | taintforge_env/elf_target.py:301-317 | splicing a link's components in front of the rest is the same as following it first |
| `GuestResolver.ResolveStaysInside` | taintforge_env/elf_target.py:278-323 | whatever is reached lies in the rootfs at the end of components none of which is a link |
| `GuestResolver.BudgetOnlyStops` | taintforge_env/elf_target.py:299-307 | more budget resolves the same paths to the same places |
| `GuestResolver.SelfLinkFails` | taintforge_env/elf_target.py:299-307 | a link to itself resolves with no budget at all |
| `GuestResolver.DirectResolves` | taintforge_env/elf_target.py:278-323 | a path through directories leads where it says and follows no link |
| `GuestResolver.AbsentStops` | taintforge_env/elf_target.py:278-323 | a component that is not there ends the resolution with no |
| `GuestResolver.DotsLeadUp` | taintforge_env/elf_target.py:283-289 | a parent component leads up, and out of the root nowhere |
| `GuestResolver.RowTakesBudget` | taintforge_env/elf_target.py:299-307 | n links in a row take n traversals: with fewer in the budget the answer is no |
| `PathOrder.LessTransitive` | taintforge_env/environment_snapshot.py:490-491 | the order of path texts is transitive |
| `PathOrder.LessExactly` | taintforge_env/environment_snapshot.py:490-491 | one text comes before another exactly when it is a proper beginning of it or has the smaller character where they first differ |
| `PathOrder.RenderInjective` | taintforge_env/environment_snapshot.py:596-599 | different component paths have different texts |
| `PathOrder.ParentFirst` | taintforge_env/environment_snapshot.py:490-491 | in text order every directory comes before everything inside it |
| `PathOrder.SortedOnce` | taintforge_env/environment_snapshot.py:490-491 | a set of paths has one sorted listing |
| `PathOrder.SortPaths` | taintforge_env/environment_snapshot.py:490-491 | sorting lists exactly the given paths, in order |
| `Snapshot.Walk` | taintforge_env/environment_snapshot.py:386-450 | the walk sees every node and groups the paths of every inode with several links |
| `Snapshot.ScanEnvironment` | taintforge_env/environment_snapshot.py:377-491 | the entries are listed by path, one for each node, and each tells type, mode, contents or target of its own node and which paths share its inode |
| `Snapshot.EntryTells` | taintforge_env/environment_snapshot.py:461-487 | an entry holds a directory's mode, a link's target, a file's inode mode and bytes, and the paths of its inode when there are several |
| `Snapshot.ScansAgree` | taintforge_env/environment_snapshot.py:377-491 | two scans are equal if and only if the trees have the same paths and kinds, directory modes, link targets, file modes and bytes, and the same files share inodes |
| `Snapshot.ListsOnce` | taintforge_env/environment_snapshot.py:377-502 | two listings are equal exactly when the entry maps are |
| `Snapshot.GroupFound` | taintforge_env/environment_snapshot.py:452-460 | dropping single links and groups of one loses no hardlink group |
| `SnapshotClone.SortByDepth` | taintforge_env/environment_snapshot.py:559-565 | the directories come deepest first, each as often as before |
| `SnapshotClone.Destination.LinkFile` | taintforge_env/environment_snapshot.py:543-557 | a file whose group has been copied becomes another link to that inode |
| `SnapshotClone.Destination.CopyNew` | taintforge_env/environment_snapshot.py:549-557 | a file on its own, or the first of its group, becomes a new inode |
| `SnapshotClone.Destination.CloneFile` | taintforge_env/environment_snapshot.py:543-557 | one file entry keeps every copied path's contents, mode and sharing, and `hardlink_targets` current |
| `SnapshotClone.Destination.CloneEntry` | taintforge_env/environment_snapshot.py:526-557 | one entry adds exactly its path, under a parent that is already there |
| `SnapshotClone.Destination.Fill` | taintforge_env/environment_snapshot.py:526-557 | after the first loop every path is there with its type, bytes, target and sharing, all directories still private |
| `SnapshotClone.Destination.SetModes` | taintforge_env/environment_snapshot.py:559-564 | deepest first, no chmod is cut off by an earlier one; every listed directory gets its mode |
| `SnapshotClone.Destination.CloneEnvironment` | taintforge_env/environment_snapshot.py:511-568 | the clone of any tree is the same tree: paths, kinds, modes, contents, targets and which files share an inode; an existing destination is refused untouched |
| `SnapshotClone.NextEntry` | taintforge_env/environment_snapshot.py:526-557 | when an entry's turn comes it is absent and its parent is a directory |
| `SnapshotClone.SameInode` | taintforge_env/environment_snapshot.py:439-460 | two files of one scan share a group exactly when they share an inode |
| `SnapshotClone.GroupRestored` | taintforge_env/environment_snapshot.py:543-557 | in the finished clone each path's group is the one its entry names |
| `SnapshotClone.CloneScans` | taintforge_env/environment_snapshot.py:511-568 | with the modes set the clone is a valid tree that scans as the source does |
| `SnapshotStore.Store.Verify` | taintforge_env/environment_snapshot.py:299-322 | succeeds exactly for a stored snapshot whose rescanned entries, digest and id agree with its manifest |
| `SnapshotStore.Store.Capture` | taintforge_env/environment_snapshot.py:250-297 | the snapshot stored under the digest of the entries is the same tree as the source; capturing again reuses it; no other snapshot changes |
| `SnapshotStore.Store.Clone` | taintforge_env/environment_snapshot.py:324-366 | cloning succeeds exactly from a snapshot that verifies to a destination that is absent, and the clone is the same tree |
| `SnapshotStore.TamperingNoticed` | taintforge_env/environment_snapshot.py:299-322 | a rootfs put in the place of a verified one passes if and only if it is the same tree: any changed path, kind, mode, content, target or hardlink is noticed |
| `RepairApplier.PrepareDirectory` | taintforge_env/repair_applier.py:404-467 | passes exactly when every prefix that is not only planned can be inspected and none exists as a link or a non-directory, listing the missing prefixes parents first; otherwise the error names the first prefix that stops it |
| `RepairApplier.Preflight` | taintforge_env/repair_applier.py:317-402 | succeeds exactly when every selected decision passes given what earlier ones will create, and every path on the way can be inspected; otherwise with the error of the first decision refused |
| `GuestPathText.AcceptedExactly` | taintforge_env/repair_applier.py:576-602 | a guest path is accepted exactly when it is a root, plain component names joined by single slashes and any trailing slashes, outside the pseudo filesystems, and it stands for those components |
| `GuestPathText.ModeExactly` | taintforge_env/repair_applier.py:604-620 | a mode is accepted exactly when it is three octal digits, with or without a zero before them, and is their value |
| `GuestPathText.ShapeExactly` | taintforge_env/repair_applier.py:335-423 | a decision has its shape right exactly when it is an automatic candidate to create a directory with parents, at such a path and with such a mode |
| `GuestPathText.PlannerAgrees` | taintforge_env/repair_planner.py:511-528 | the planner's path tests and the applier's accept the same texts |
| `GuestPathText.GuestPathIs` | taintforge_env/elf_target.py:326-345 | which texts the resolver takes for guest paths |
| `RepairApplier.AcceptsExactly` | taintforge_env/repair_applier.py:317-467 | acceptance is decided by each decision's shape and the rootfs as it stands; virtually created paths never change it |
| `RepairApplier.ReadyExactly` | taintforge_env/repair_applier.py:317-467 | preflight passes if and only if each selected decision has its shape right, nothing but directories on its way, and a way that can be inspected |
| `RepairApplier.MakesUpTo` | taintforge_env/repair_applier.py:469-532 | after n decisions the directories due are the missing prefixes they want, each once, parents first, with the first asker's mode |
| `RepairApplier.NextMake` | taintforge_env/repair_applier.py:486-507 | when the next directory of the plan is due it is absent and its parent is there |
| `RepairTransaction.Transaction.MakeDirectory` | taintforge_env/repair_applier.py:486-507 | mkdir then chmod; only after both is the path logged, so a failed chmod leaves an unlogged directory |
| `RepairTransaction.Transaction.ApplyPrepared` | taintforge_env/repair_applier.py:469-532 | creates the planned directories in order until the first fault |
| `RepairTransaction.Transaction.Rollback` | taintforge_env/repair_applier.py:535-544 | removes the logged directories in reverse; exactly those above a stuck directory stay and are reported |
| `RepairTransaction.Transaction.ApplyFile` | taintforge_env/repair_applier.py:249-315 | completed: the old tree plus the planned directories, and a decision is reported applied exactly when some prefix of its path was neither there nor on the way to an earlier selected one, already satisfied when none was, unselected when it is; dry run: the old tree and the same of planned; failed: the error that stopped it, and the old tree plus what stands above a directory whose chmod failed, so it is the old tree if and only if the run did not stop at such a chmod |
| `RepairTransaction.StatusesTell` | taintforge_env/repair_applier.py:509-532 | each status by the tree as it was and the decisions before it |
| `RepairTransaction.CreatesAreNew` | taintforge_env/repair_applier.py:430-467 | a decision has directories to create exactly when it asks for a new one |
| `RepairTransaction.MarkRolledBack` | taintforge_env/repair_applier.py:547-573 | exactly the decisions with a created directory are reported as rolled back |
| `RepairTransaction.FailedChmodStays` | taintforge_env/repair_applier.py:486-544 | a concrete run: one missing directory whose chmod fails is still there after the rollback |
| `RepairTransaction.LeftoverIsNew` | taintforge_env/repair_applier.py:486-507 | the directory a failed chmod leaves behind was missing before |
| `RepairTransaction.CompletedTree` | taintforge_env/repair_applier.py:469-532 | a completed run changes no old path and adds exactly the wanted missing ones, with the first asker's mode |
| `RepairedEnvironment.ShapeDecides` | taintforge_env/repair_applier.py:404-467 | file contents, modes, targets and inodes decide nothing about a repair, only the kinds of nodes do |
| `RepairedEnvironment.RepairGrows` | taintforge_env/iteration_controller.py:956-1010 | a repaired environment keeps every entry and adds exactly the wanted directories |
| `RepairedEnvironment.RepairCommutesWithScan` | taintforge_env/iteration_controller.py:956-1010 | repairing any tree and scanning it is scanning it and repairing the entries |
| `RepairedEnvironment.RepairOnce` | taintforge_env/repair_applier.py:404-532 | the same plan applied again is accepted and changes nothing |
| `RepairedEnvironment.NamedRequests` | taintforge_env/repair_applier.py:576-603 | every path preflight accepts is a path a scan can list |
| `RepairedEnvironment.RepairedDirectories` | taintforge_env/environment_manifest_builder.py:383-419 | after a repair every selected resource is a directory of the environment |
| `RepairedSnapshot.BuildRepairedSnapshot` | taintforge_env/iteration_controller.py:956-1010 | clone, apply, capture: succeeds exactly when the plan is acceptable for the parent's entries, and yields their repair; nothing stored changes |
| `RequirementExtractor.Extractor.Add` | taintforge_env/requirement_extractor.py:582-628 | the mutable record of a key is updated as the pure fold says, and no other |
| `RequirementExtractor.Extractor.AddAll` | taintforge_env/requirement_extractor.py:582-628 | a run of additions on a cleared extractor computes the fold of the contributions |
| `RequirementExtractor.FoldJoins` | taintforge_env/requirement_extractor.py:582-652 | each merged status, blocking, confidence and repairability is the least upper bound of those contributed to its key |
| `RequirementExtractor.JoinIsUnique` | taintforge_env/requirement_extractor.py:630-652 | two least upper bounds of the same contributions agree |
| `RequirementExtractor.MergedStatus` | taintforge_env/requirement_extractor.py:630-640 | unmet if any contribution says so, else provided if any does, else unknown |
| `RequirementExtractor.MergedBlocking` | taintforge_env/requirement_extractor.py:641-652 | the most serious blocking any contribution says |
| `RequirementExtractor.DetailsAreLast` | taintforge_env/requirement_extractor.py:582-628 | each detail is the one the last contribution that names it gives |
| `RequirementExtractor.EvidenceKept` | taintforge_env/requirement_extractor.py:582-628 | evidence is kept without repetition up to the limit, none is made up, and some is dropped only when the limit is reached |
| `RequirementExtractor.OrderDoesNotMatter` | taintforge_env/requirement_extractor.py:582-652 | permuting contributions changes no key, status, blocking, confidence or repairability |
| `RequirementExtractor.ErrnoIsFirst` | taintforge_env/requirement_extractor.py:582-628 | the recorded errno is the first one a contribution to the key names, and missing exactly when none names one |
| `RequirementExtractor.ErrnoUnlessTheyDiffer` | taintforge_env/requirement_extractor.py:613-627 | for any contributions and key: no reordering changes the errno if and only if no two contributions to the key name different ones |
| `RequirementExtractor.ErrnoDependsOnOrder` | taintforge_env/requirement_extractor.py:620-621 | a concrete pair of orders in which the recorded errno differs |
| `RequirementExtractor.BlockingAfter` | taintforge_env/requirement_extractor.py:559-580 | the first signal or exit in the window decides; without one the answer is unknown |
| `RepairPlanner.MakePlan` | taintforge_env/repair_planner.py:54-78 | the plan holds the decision of every requirement, each once, in listing order |
| `RepairPlanner.AuthorizedExactly` | taintforge_env/repair_planner.py:104-256 | a decision is automatic exactly for an unmet, repairable, well-evidenced directory on a normalized path whose text is not the root and not at or below /proc, /sys or /dev |
| `RepairPlanner.PriorityTable` | taintforge_env/repair_planner.py:491-499 | how soon a decision matters is how likely its requirement blocked the sample; what is settled is low |
| `RepairPlanner.ActionTable` | taintforge_env/repair_planner.py:181-310 | each filesystem action exactly for the repairable requirement of its operation on a sound path |
| `RepairPlanner.ServiceTable` | taintforge_env/repair_planner.py:311-456 | each device, network, library and execution action exactly for the repairable requirement that calls for it |
| `RepairPlanner.DispositionTable` | taintforge_env/repair_planner.py:104-456 | nobody acts on what is settled, the applier on what is automatic, what names bytes, services or doubtful directories is to be reviewed and the rest analysed by hand |
| `RepairPlanner.RiskTable` | taintforge_env/repair_planner.py:104-456 | low for what is settled and for a directory outside the pseudo filesystems, medium for bytes and services of known shape, high for the rest |
| `RepairPlanner.ParametersSay` | taintforge_env/repair_planner.py:190-380 | directories come with mode 0755 and parents, files never as empty ones, services with the endpoint of their requirement |
| `RepairPlanner.PseudoByTwoSlashes` | taintforge_env/repair_planner.py:511-528 | an automatic directory lies in proc, sys or dev if and only if its text is one slash before the text of a path there |
| `RepairPlanner.TwoSlashesPass` | taintforge_env/repair_planner.py:511-528 | a concrete such path, //proc/x, that passes both tests |
| `RepairPlanner.AuthorizedIsApplicable` | taintforge_env/repair_planner.py:190-249 | every automatic decision passes the applier's checks of disposition, action, path, parents and mode |
| `RepairPlanner.OnlyTheRootfsRefuses` | taintforge_env/repair_planner.py:54-78 | preflight accepts a plan if and only if nothing but directories stands on the way to its automatic directories and lstat fails on none of it, too long a name included |
| `RepairPlanner.PlannedFits` | taintforge_env/repair_planner.py:104-479 | every branch's decision repeats its requirement and meets the checks that span fields |
| `RepairPlanner.PlanReadsBack` | taintforge_env/repair_planner.py:54-78 | the plan of every report with distinct named requirements is read back as it was written |
| `EvidenceToPlan.ReportValidExactly` | taintforge_env/requirement_extractor.py:104-127 | the report of any evidence is loadable for planning if and only if every contribution names a resource and an operation |
| `EvidenceToPlan.EvidenceReadsBack` | taintforge_env/repair_planner.py:54-78 | from any such evidence to a plan that is read back as it was written |
| `EvidenceToPlan.EvidenceAccepted` | taintforge_env/repair_applier.py:317-467 | preflight accepts the plan of any evidence if and only if the way to each directory the merged requirements select is clear and can be inspected |
| `EvidenceToPlan.OrderSelectsTheSame` | taintforge_env/requirement_extractor.py:582-652 | evidence in another order selects the same directories by identical decisions |
| `EvidenceToPlan.OrderAccepted` | taintforge_env/repair_applier.py:317-467 | nor does its order change whether preflight accepts |
| `RepairPlan.NamesRoundTrip` | taintforge_env/repair_plan.py:429-443 | the value a name was made from is the value it is parsed to |
| `RepairPlan.DecisionRoundTrip` | taintforge_env/repair_plan.py:69-195 | writing and reading a decision gives it back exactly when it names everything and its fields agree, and fails otherwise |
| `RepairPlan.PlanRoundTrip` | taintforge_env/repair_plan.py:238-333 | the same for plans: header present, digest well formed, every decision readable, no id twice |
| `EnvironmentManifest.DiffIsExact` | taintforge_env/environment_manifest.py:370-400 | a diff exists exactly for direct children, is empty exactly when nothing changed, and with the parent determines the child's keys |
| `EnvironmentManifest.ManifestStore.Load` | taintforge_env/environment_manifest.py:407-469 | succeeds exactly for a file whose stored id matches its recomputed content |
| `EnvironmentManifest.ManifestStore.Save` | taintforge_env/environment_manifest.py:507-527 | succeeds exactly for a seed, for the child of the version before, or for the very manifest that is there, and never rewrites a version |
| `EnvironmentManifest.ManifestStore.VerifyChain` | taintforge_env/environment_manifest.py:541-579 | accepts exactly when the visible files load, count from zero and each names the one before, and returns them |
| `EnvironmentManifest.SavingGrows` | taintforge_env/environment_manifest.py:507-527 | saving keeps a gap-free store gap-free and every saved version as it was |
| `EnvironmentManifest.GrownVerifies` | taintforge_env/environment_manifest.py:541-579 | a store that was only saved into verifies once it holds anything; it sees all versions exactly up to 9999 |
| `EnvironmentManifest.SavesVerify` | taintforge_env/environment_manifest.py:507-579 | after any run of save calls, refused ones included, the chain verifies if and only if the store holds anything |
| `EnvironmentManifest.SavesKeep` | taintforge_env/environment_manifest.py:507-527 | no later call of such a run changes or removes a version |
| `EnvironmentManifest.ChainsAgree` | taintforge_env/environment_manifest.py:305-326 | equal ids at version k force two chains to agree on every version up to k |
| `ManifestBuilder.ObservedMode` | taintforge_env/environment_manifest_builder.py:383-419 | a mode is observed exactly when the path leads through directories to a directory |
| `ManifestBuilder.RecordableResources` | taintforge_env/environment_manifest.py:632-634 | a resource can be recorded exactly when it is short and plain enough for an identifier |
| `ManifestBuilder.MergeExtends` | taintforge_env/environment_manifest_builder.py:327-367 | merging forgets no first sighting and no evidence, and valid entries stay valid |
| `ManifestBuilder.RecordOne` | taintforge_env/environment_manifest_builder.py:176-243 | a result is taken exactly when it matches a decision not seen before, and recorded when it was selected |
| `ManifestBuilder.RecordResults` | taintforge_env/environment_manifest_builder.py:172-243 | the loop over results computes their fold, failing where it fails |
| `ManifestBuilder.DeriveFromRepair` | taintforge_env/environment_manifest_builder.py:61-263 | succeeds exactly when parent, contract, result, plan, observation and report belong together, and gives the parent's child of that environment and attempt with the folded entries |
| `ManifestBuilder.FoldExtends` | taintforge_env/environment_manifest_builder.py:172-263 | however many results are recorded, nothing the parent knew is lost |
| `ManifestBuilder.FoldAfterRepair` | taintforge_env/environment_manifest_builder.py:172-243 | after a completed repair of a plan with distinct decisions the fold fails only on resources that cannot be named |
| `ManifestRecorded.FoldSays` | taintforge_env/environment_manifest_builder.py:172-367 | a resource some selected result is about gets the directory mode seen in the environment, the observation and every such repair as evidence beside what it had, its first sighting kept or made now, its confidence and status kept if it says the same as before; every other entry stays as it was |
| `ManifestRecorded.SelectedCounted` | taintforge_env/environment_manifest_builder.py:224-261 | the number of repairs the manifest records is that of the selected results |
| `ReportOrder.SortResults` | taintforge_env/environment_manifest_builder.py:176-181 | the results are a permutation of the report in decision order |
| `Attempt.ValidateTransitionChain` | taintforge_env/attempt.py:437-452 | accepted exactly when the transitions lead from the initial to the final stage without a break |
| `Attempt.StabilizationComesFirst` | taintforge_env/attempt.py:45-99 | no chain of allowed transitions passes the boundary without stabilization after a validated entry point |
| `StageReach.ReachedExactly` | taintforge_env/attempt.py:61-99 | an allowed chain leads from one stage to another exactly when they are equal, or the first is not reconstruction, the second not the static preflight, and a ready boundary is left only for fuzzing and reconstruction |
| `Attempt.AttemptStore.SaveContract` | taintforge_env/attempt.py:549-562 | append-only: saved exactly when new or identical, otherwise nothing changes |
| `Attempt.AttemptStore.SaveResult` | taintforge_env/attempt.py:564-579 | saved exactly when it belongs to its contract and no other result is there |
| `Attempt.AttemptStore.VerifyAttempt` | taintforge_env/attempt.py:581-614 | succeeds exactly when contract and result reload and are linked, the result being there when it must |
| `Attempt.AttemptStore.ListAttemptIds` | taintforge_env/attempt.py:616-634 | every stored attempt, each once, by attempt index |
| `Attempt.ListingOnce` | taintforge_env/attempt.py:616-634 | with distinct indexes the listing is unique |
| `ProgressOracle.Compare` | taintforge_env/progress_oracle.py:284-370 | the classification and its counts; a reason is given exactly when what it names happened, and the baseline and goal verdicts are exact |
| `ProgressOracle.MetricsCount` | taintforge_env/progress_oracle.py:496-528 | unmet, likely and unmet, automatic, review, manual and fatal are the sizes of the sets of entries with that status, blocking, flag, disposition or event |
| `ProgressOracle.SettlingIsProgress` | taintforge_env/progress_oracle.py:284-370 | a run that differs in one unmet requirement being settled is PROGRESS over the other, and never the other way round |
| `ProgressOracle.CandidatesAreSelected` | taintforge_env/progress_oracle.py:404-423 | automatic candidates are counted exactly when the applier would select something |
| `ProgressOracle.RegressionOrders` | taintforge_env/progress_oracle.py:284-370 | REGRESSION is irreflexive, asymmetric and transitive |
| `ProgressOracle.EventOrderIsIrrelevant` | taintforge_env/progress_oracle.py:205-370 | permuting the guest events of a run changes no verdict on it and none measured against it |
| `ProgressOracle.SignalsDecide` | taintforge_env/progress_oracle.py:284-370 | with equal event sets and otherwise equal artifacts, two runs are judged alike against every earlier run if and only if their fatal signals are equally many (or the goal was reached), and are interchangeable altogether if and only if they are |
| `ProgressOracle.RepeatedSignalRegresses` | taintforge_env/progress_oracle.py:523-525 | a concrete run: the same signal once more is a REGRESSION though no event is new |
| `ProgressOracle.MutualProgress` | taintforge_env/progress_oracle.py:284-370 | two observations are each PROGRESS over the other if and only if neither reached the goal, fatal signals and likely blockers agree, and either each saw an event the other did not, or the events agree and targets and unmet requirements are traded |
| `ProgressOracle.ProgressIsNoOrder` | taintforge_env/progress_oracle.py:284-370 | a concrete pair of such observations |
| `IterationSession.EarlierSteps` | taintforge_env/iteration_controller.py:446-457 | before the tail every iteration ran, was asked for a repair and left the session active |
| `SessionSafety.StopsExactly` | taintforge_env/iteration_controller.py:1024-1154 | the exact condition of each stop reason on runs, fingerprints and budget, in the order of the code, and of going on: no goal, no timeout or exit code 124, no signal, some automatic decision, a state not seen before, and budget left |
| `SessionSafety.ResultExactly` | taintforge_env/iteration_controller.py:1069-1132 | which outcome a run gets, and what its result says: error code, exit code, least resource of an automatic decision, number of guest events |
| `SessionSafety.ActiveTail` | taintforge_env/iteration_controller.py:1024-1154 | an active session with a completed tail has a repair-required result, a new state, an automatic decision and budget left |
| `SessionSafety.DistinctStates` | taintforge_env/iteration_controller.py:1024-1051 | completed iterations of a session that went on have pairwise distinct state fingerprints |
| `SessionSafety.ExitReasonUnreachable` | taintforge_env/iteration_controller.py:1084-1098 | no history ends with the exited-without-goal reason |
| `SessionSafety.WithinBudget` | taintforge_env/iteration_controller.py:1024-1051 | no history is longer than the budget, because an iteration is only followed when the stop decision left budget over |
| `SessionSafety.EnvironmentsGrow` | taintforge_env/iteration_controller.py:956-1010 | iteration j's environment keeps every entry of iteration i's, for all i <= j |
| `SessionSafety.RepeatedStateIsStatic` | taintforge_env/iteration_controller.py:1024-1051 | a fixed point or cycle from i to j makes every environment between them equal |
| `SessionSafety.EnvironmentsFromPlans` | taintforge_env/iteration_controller.py:956-1010 | two histories with one seed and the same plans have the same environments; a history keeps no executed rootfs, since preparing reads none |
| `SessionSafety.ManifestsChained` | taintforge_env/iteration_controller.py:531-549 | version i of the chain describes iteration i's environment and descends from version i - 1 |
| `SessionSteps.NextIsGood` | taintforge_env/iteration_controller.py:446-622 | preparing after a repair continues a good history |
| `SessionSteps.PreparedIsGood` | taintforge_env/iteration_controller.py:446-622 | a step made of the repaired environment and the manifest derived from any report of the completed application continues a good history |
| `SessionSteps.CompletedIsGood` | taintforge_env/iteration_controller.py:624-767 | completing the prepared tail continues a good history |
| `SessionSteps.DeriveSucceeds` | taintforge_env/iteration_controller.py:531-549 | in any history the next manifest can be derived exactly when the plan's resources can be named |
| `SessionSteps.RepairRecorded` | taintforge_env/iteration_controller.py:531-549 | recording the repair succeeds exactly when the resources can be named, and then environment and manifest are what the next step needs |
| `SessionSteps.DiskGrows` | taintforge_env/iteration_controller.py:558-622 | what preparing adds to each of the stores |
| `SessionSteps.DiskCompletes` | taintforge_env/iteration_controller.py:678-767 | what completing changes in each of the stores |
| `SessionSteps.EveryRun` | taintforge_env/iteration_controller.py:356-767 | every run of prepare and complete from initialize, each defined by what it computes, is a good history within its budget |
| `SessionSteps.EndedStays` | taintforge_env/iteration_controller.py:446-457 | an ended session allows no further move |
| `SessionDisk.ReloadsExactly` | taintforge_env/attempt.py:355-381 | a written result reloads exactly when its goal reason is absent or not empty |
| `SessionDisk.RecordTells` | taintforge_env/iteration_controller.py:576-619 | the record of iteration i names its snapshot, manifest, attempt, the snapshot before it and its stop reason, and its directory holds the record and what its run produced |
| `SessionDisk.AcceptedExactly` | taintforge_env/iteration_controller.py:769-926 | the disk of a good history is accepted by verification if and only if it has at most 10000 versions and its last result reloads |
| `SessionTampering.HistoriesHeld` | taintforge_env/iteration_controller.py:769-926 | what the controller leaves behind meets what the following rows ask of a session |
| `SessionTampering.StateTold` | taintforge_env/iteration_controller.py:1157-1201 | of an accepted session no other state or stop reason is accepted |
| `SessionTampering.TargetTold` | taintforge_env/iteration_controller.py:928-954 | nor, once an iteration is on record, another sample, packed file or goal |
| `SessionTampering.SeedTold` | taintforge_env/iteration_controller.py:769-795 | nor another seed snapshot or seed manifest |
| `SessionTampering.SnapshotsTold` | taintforge_env/iteration_controller.py:769-815 | another set of snapshots is accepted exactly when it has the seed and every one on record |
| `SessionTampering.RecordTold` | taintforge_env/iteration_controller.py:811-905 | a record rewritten in the session and in its directory alike is accepted exactly when index, completion, snapshot, manifest, version and attempt stay, evidence with completion, and the last stop reason |
| `SessionTampering.DirectoryTold` | taintforge_env/iteration_controller.py:837-885 | a directory is accepted in the place of another exactly when it repeats the record and, of a completed iteration, has the observation that was made and artifacts that are those of their manifest |
| `SessionTampering.ContractTold` | taintforge_env/iteration_controller.py:843-865 | a contract with a result can change in nothing, one that waits for its run in its stage only, and none can be added |
| `SessionTampering.ResultTold` | taintforge_env/iteration_controller.py:866-895 | a result is accepted in the place of another exactly when it reloads, links to its contract, says the same of the observation, and, if it is the last, ends the session alike |
| `SessionTampering.ManifestTold` | taintforge_env/environment_manifest.py:541-579 | a listed manifest file can change in nothing but the time it was written, and none can be added |
| `IterationController.RepairAndReport` | taintforge_env/iteration_controller.py:956-1010 | what the controller's repair leaves on the tree and says in its report |
| `IterationController.RepairTail` | taintforge_env/iteration_controller.py:531-549 | the environment and manifest that follow the tail, or the failure that prevents them |
| `IterationController.NextSaves` | taintforge_env/environment_manifest.py:507-527 | the derived manifest is always one the store accepts |
| `IterationController.Controller.constructor` | taintforge_env/iteration_controller.py:356-432 | initialize leaves the disk of the empty history |
| `IterationController.Controller.LoadTail` | taintforge_env/iteration_controller.py:477-530 | for the disk of a history everything of its tail loads, exactly when there is a usable plan |
| `IterationController.Controller.RepairPrevious` | taintforge_env/iteration_controller.py:477-552 | capture and manifest of the repaired environment, with no other file touched |
| `IterationController.Controller.NextEnvironment` | taintforge_env/iteration_controller.py:459-557 | the seed's environment for the first iteration, the repaired tail's for every other |
| `IterationController.Controller.Commit` | taintforge_env/iteration_controller.py:558-622 | contract, directory and record of the new iteration |
| `IterationController.Controller.PrepareNext` | taintforge_env/iteration_controller.py:446-622 | on the disk of any history: succeeds exactly when the next iteration can be prepared, is then one preparing move, and leaves the disk of the extended history; on failure still that of the old one |
| `IterationController.Controller.DecideStopReason` | taintforge_env/iteration_controller.py:1024-1051 | the first applicable reason in the order fixed point, cycle, no new actions, budget |
| `IterationController.Controller.ObserveRun` | taintforge_env/iteration_controller.py:634-695 | the observation of the given artifacts, or the error that stops completion before anything is written |
| `IterationController.Controller.SaveObservation` | taintforge_env/iteration_controller.py:678-724 | artifacts and observation go to the tail's directory only |
| `IterationController.Controller.FinishRun` | taintforge_env/iteration_controller.py:696-767 | result, record and session state after a run |
| `IterationController.Controller.CompleteIteration` | taintforge_env/iteration_controller.py:624-767 | on the disk of any history: succeeds exactly for the prepared tail with usable artifacts and claim, and leaves the disk of the history with that run; otherwise the old one |
| `IterationController.Controller.CheckRecord` | taintforge_env/iteration_controller.py:790-905 | what verify asks of one iteration's record, directory, contract and result |
| `IterationController.Controller.CheckTail` | taintforge_env/iteration_controller.py:1157-1201 | the recorded terminal state is the one recomputed from observations and result |
| `IterationController.Controller.Verify` | taintforge_env/iteration_controller.py:769-926 | accepts only what the declarative check accepts, and all of it when attempt indexes are distinct |
| `IterationController.Controller.HeldVerifies` | taintforge_env/iteration_controller.py:769-926 | the controller's own stores are accepted, except past 10000 iterations or with an empty last goal reason |
| `IterationController.BeforeCompletion` | taintforge_env/iteration_controller.py:634-695 | nothing on the disk of a history with a prepared tail stands in the way of completing it |
| `IterationController.AfterCompletion` | taintforge_env/iteration_controller.py:678-767 | completing turns the disk of a history into that of the history with its tail run |
| `ExecutionClaim.Keeps` | taintforge_env/prebuilt_runner.py:422-630 | every step of any runner, script, crash, reset or completion keeps the claim invariant |
| `ExecutionClaim.AtMostOneStart` | taintforge_env/prebuilt_runner.py:375-630 | in every interleaving a prepared iteration starts its guest at most once, and a completion by the claim follows its one start |
| `ExecutionClaim.ClaimsTell` | taintforge_env/prebuilt_runner.py:470-630 | in every state of every run the claim says the guest started exactly from the stage after its run on, or when it failed with a start marker, and calls a retry safe only when it failed without one |
| `ExecutionClaim.StartedForGood` | taintforge_env/prebuilt_runner.py:569-630 | after a start nobody can validate, claim, reset or start again |
| `ExecutionClaim.LateStartExactly` | taintforge_env/prebuilt_runner.py:422-470 | after a completion a guest can still start if and only if some runner is poised: marked, or on its way with the run directory its stage needs, or validated with no claim there; and only after a completion without a claim |
| `ExecutionClaim.OperatorLeavesOpen` | taintforge_env/iteration_controller.py:1243-1295 | an operator completion leaves a late start open if and only if no claim is there and some runner has validated |
| `ExecutionClaim.PoisedStarts` | taintforge_env/prebuilt_runner.py:422-460 | a poised runner gets to the start by its own steps |
| `ExecutionClaim.StartedCompletes` | taintforge_env/prebuilt_runner.py:460-560 | a runner whose guest has started can go on to complete the iteration, with no further start |
| `ExecutionClaim.UndisturbedRun` | taintforge_env/prebuilt_runner.py:375-560 | one runner alone starts the guest once and then completes |
| `ExecutionClaim.SafeFailureResets` | taintforge_env/prebuilt_runner.py:1195-1265 | a failure that left no start marker and a clean rootfs can be reset, and a new runner can then validate |
| `ExecutionClaim.FailureTells` | taintforge_env/prebuilt_runner.py:569-630 | a failed claim says whether the guest started, and that a retry is safe exactly when it did not and the rootfs is clean |
| `ExecutionClaim.LateStart` | taintforge_env/prebuilt_runner.py:422-470 | a concrete run in which an operator completes without a claim and a runner that validated earlier still starts the guest |
| `NetworkBackend.Allocate` | taintforge_env/controlled_network_backend.py:149-167 | the first free port at or after the preferred one, going round once; none exactly when no port is free |
| `NetworkBackend.BuildPlan` | taintforge_env/controlled_network_backend.py:531-681 | every usable service becomes one mapping, at the first free gateway port counted from its own or untouched on loopback, the rest are skipped; which failure there is, and that a port is missing exactly when none is free for some gateway service |
| `NetworkBackend.BuiltIsValid` | taintforge_env/controlled_network_backend.py:531-681 | a built plan meets everything the firewall theorems ask of a plan |
| `NetworkBackend.ConfigureFirewall` | taintforge_env/controlled_network_backend.py:731-846 | in any new namespace the commands succeed and leave exactly the compiled tables |
| `NetworkBackend.ServiceAnswers` | taintforge_env/controlled_network_backend.py:531-681 | every usable service of a policy answers at its own endpoint |
| `Firewall.EvalCatchAll` | taintforge_env/controlled_network_backend.py:826-846 | the catch-all chain redirects all of its protocol but what is for the gateway or loopback |
| `Firewall.TranslationIsMeant` | taintforge_env/controlled_network_backend.py:769-846 | the nat rules send a new connection where the plan means it to go |
| `Firewall.FilterIsMeant` | taintforge_env/controlled_network_backend.py:732-846 | the output filter lets out exactly what the plan allows |
| `Firewall.InputIsMeant` | taintforge_env/controlled_network_backend.py:736-846 | the input chain lets in exactly loopback, known connections, the answers of mapped services and those of the logger |
| `Firewall.NothingForwarded` | taintforge_env/controlled_network_backend.py:736-738 | no packet is forwarded |
| `Firewall.RulesMeanPlan` | taintforge_env/controlled_network_backend.py:731-846 | nat and filter together deliver exactly as the plan says, for every packet |
| `Firewall.KnownEndpointServed` | taintforge_env/controlled_network_backend.py:769-820 | a new TCP packet to a known endpoint reaches the listener of its first mapping |
| `Firewall.LoopbackUntouched` | taintforge_env/controlled_network_backend.py:738-743 | loopback traffic is let out as it is |
| `Firewall.UnknownCaught` | taintforge_env/controlled_network_backend.py:821-846 | with the catch-all on, any other TCP or UDP packet not for the gateway ends at the logger |
| `Firewall.UnknownDropped` | taintforge_env/controlled_network_backend.py:731-820 | without it a packet gets out exactly when local, known, or for a listener's own address |
| `Firewall.NoEgress` | taintforge_env/controlled_network_backend.py:731-846 | every accepted packet of a new connection ends in the namespace or at the gateway |
| `Firewall.NeverOutside` | taintforge_env/controlled_network_backend.py:731-846 | the same over whole packet sequences with connection tracking |
| `RecordBroker.DirectionState.Pump` | taintforge_env/c2_record_broker.py:415-472 | one turn of the pump: the end of the stream exactly for an empty read, over the limit exactly when what was received and the read together exceed it, and otherwise the read is recorded, hashed, counted and forwarded |
| `RecordBroker.Broker.AcceptClient` | taintforge_env/c2_record_broker.py:126-154 | a connection is accepted exactly below the maximum, so the count never exceeds it |
| `RecordBroker.Broker.Finish` | taintforge_env/c2_record_broker.py:126-154 | the end of a session frees its task but no accepted connection |
| `RecordBroker.RecordedIsForwarded` | taintforge_env/c2_record_broker.py:239-328 | at every await of every interleaving: recorded, chunked, hashed and sent bytes are one sequence, as long as counted and within the limit |
| `RecordBroker.RecordedIsRead` | taintforge_env/c2_record_broker.py:239-328 | at every await of every interleaving what a direction recorded is the concatenation of its reads so far, without one that ended its pump |
| `RecordBroker.ReadEndsExactly` | taintforge_env/c2_record_broker.py:415-472 | a read ends its pump as end of stream exactly when it is empty, and as over the limit exactly when the bytes before it and its own exceed the limit |
| `RecordBroker.HandlesExactly` | taintforge_env/c2_record_broker.py:270-330 | what the handler makes of each finished task: the reason it gives, or waiting on after the client's end of stream |
| `RecordBroker.CloseReasons` | taintforge_env/c2_record_broker.py:270-330 | an ended session has a cause that occurred, never client_closed, completed or unknown, and no task still runs |
| `RecordBroker.ClientEofContinues` | taintforge_env/c2_record_broker.py:311-318 | the client's end of stream alone ends nothing |
| `ShadowMemory.Shadow.constructor` | dta/dta.c:17-40 | a new shadow holds no taint and no writable page |
| `ShadowMemory.Shadow.TaintByte` | dta/dta.c:49-60 | exactly this byte becomes tainted, its page writable and dirty |
| `ShadowMemory.Shadow.UntaintByte` | dta/dta.c:62-67 | exactly this byte becomes clean, and no read-only page is written |
| `ShadowMemory.Shadow.IsTainted` | dta/dta.c:69-72 | true exactly for a tainted byte |
| `ShadowMemory.Shadow.PageHasTaint` | dta/dta.c:74-85 | dirty test and 512-word scan: true exactly when some byte of the page is tainted |
| `ShadowMemory.ZeroWord` | dta/dta.c:78-83 | a word is zero exactly when its eight bytes are |
| `ShadowMemory.LastCallDecides` | dta/dta.c:49-67 | a byte is tainted exactly when the last call about it, addresses modulo 2^32, tainted it |
| `ShadowMemory.Calls` | dta/dta.c:17-67 | any run of calls leaves the taint its calls describe |
| `ReplayStore.Store.LoadEntries` | taintforge_env/replay_store.py:320-329 | succeeds exactly when every entry parses: ids match, delays lie in 0..60000 |
| `ReplayStore.Store.WriteBlobs` | taintforge_env/replay_store.py:610-638 | content-addressed blobs never conflict with what is stored |
| `ReplayStore.Store.Add` | taintforge_env/replay_store.py:331-412 | stores the response for the request exactly when sizes, loading and replacement allow it, and otherwise says why not; the map changes at that request only; the store then loads if and only if the delay lies in 0..60000 |
| `ReplayStore.LastAddWins` | taintforge_env/replay_store.py:331-412 | after any run of adds a request is answered by the last add taken for it, and misses exactly when none was |
| `ReplayStore.LoadsUnlessDelayed` | taintforge_env/replay_store.py:236-239 | after any run of adds the store loads if and only if every add that was taken had a delay in 0..60000 |
| `ReplayStore.DelayBlocks` | taintforge_env/replay_store.py:331-412 | after one add with another delay no add is taken again |
| `ReplayStore.TooLongDelay` | taintforge_env/replay_store.py:392-393 | a concrete add, with delay 60001, that is taken and after which the store does not load |
| `ReplayStore.Store.AddAll` | taintforge_env/replay_store.py:331-412 | a run of add calls on a new store leaves the map those theorems are about |
| `ReplayStore.Store.Lookup` | taintforge_env/replay_store.py:456-510 | the last response stored for the request, or a miss |
| `ReplayStore.Store.Validate` | taintforge_env/replay_store.py:512-553 | succeeds exactly when the index loads; the blobs are then right |
| `ReplayStore.MapEntries` | taintforge_env/replay_store.py:320-412 | a sorted index with fingerprints for ids stands for the map of its entries |
| `ReplayStore.SameMap` | taintforge_env/replay_store.py:331-412 | putting one entry in the place of its id changes the map at that request only |

## Left out

- Subprocesses, namespaces, the sandbox script's text, sysctl, veth set-up and cleanup commands: effects without logic.
- JSON text, timestamps as text, atomic renames and fsync: a file is a value, and JSON a datatype.
- SHA-256 collisions and the truncation of ids and digests: ids are injective here.
- Concurrent writers to a root filesystem, and crashes in the middle of `prepare_next` or `complete_iteration`: each runs
  under the session lock as one step; only the runner's claim protocol is modelled with crashes.
- A `prepare_next` that fails after the repaired snapshot was captured leaves that snapshot behind; the model keeps it as
  an extra snapshot that no record names.
- The paths in iteration records, which verification compares with where contract and result are kept, and their progress
  field. That a record names a parent
  snapshot and a repair report, and an earlier iteration's stop reason, is written but not compared by verification
  (`SessionTampering.RecordTold`).
- `EnvironmentManifestError` for a resource that is no identifier escapes the controller unwrapped; the model only says
  that preparation fails.
- `verify_chain` and `load` do not compare a file's name with the version inside it; the model's stores are keyed by name
  and do not add that check.
- Ownership, umask beyond the value given, permission faults while cloning, and special files, which scanning refuses.
- Partial `os.write` and faults of file writes inside the relay, and its self-cancellation on shutdown.
- Names of hardlink groups (the path that stands for a group); the model names a group by its set of paths.
- Link targets that begin with two slashes are excluded from the model: the resolver keeps the doubled root as a
  component, leaves the rootfs and answers that the path is not there, which `GuestResolver` does not say of them.
- Requirements with equal keys, or decisions with equal ids, but different fields: the oracle's sort keeps their input
  order, so two artifacts that differ in it alone have different fingerprints; here lists sorted before hashing are
  multisets.
- Why an `lstat` fails: preflight takes a predicate that says on which paths it does.
- SessionSafety.EnvironmentsFromPlans: says nothing of executed root filesystems, because no operation of the controller
  reads one back; a history and the controller's stores keep none.
- The controller keeps its snapshots as a map from entries to trees and repairs a tree with the applier directly; that
  cloning and capturing give the same is `RepairedSnapshot.BuildRepairedSnapshot`, stated on the snapshot store.
- Parsing of original files and dumps by elftools and of the dump directory, section rights included; page maps are given.
- Register taint propagation and instruction metadata (`dta/dta.c:87-200`): byte-wise OR over registers, no claim of
  soundness for arithmetic.
- Requirement parsing from strace and network logs, the goal oracle and the synthesis loop: their results are inputs.
- The texts of planner reasons, shortened here, and the syntax of endpoint resources, which is a parameter.
- The error text of a failing operation where one error value stands for several messages.
- `ExecutionClaim` assumes that the executor returns or raises only after its sandbox script has ended.
- RecordBroker.DirectionState.Pump: does not model a file write that fails half-way, because files are values.
- NetworkBackend.BuildPlan: does not claim distinct ports for two services, because the probe socket is closed before the
  port is used.
- RepairTransaction.Transaction.ApplyFile: allows one fault a run, at any mkdir, chmod or the saving of the report,
  because rollback itself reports rather than raises.
- RepairedSnapshot.BuildRepairedSnapshot: assumes no mkdir, chmod or lstat fault, because it works on a private clone.
- IterationController.Controller.Verify: accepts all that the declarative check accepts only when attempt indexes are
  distinct, because the source's listing order of equal indexes depends on the directory order.
