# Verification of Lychee Dev

A Dafny model of the parts of Lychee Dev whose correctness does not show in any single body:
durable protocols that survive a process dying between two writes, an index that must answer
like the scan it replaces, printers and codecs with their readers, graph and syntax walks, and
shared accounts. `dafny verify dfyconfig.toml` checks all of it.

## How it is modelled

**Durable operations.** Every operation on disk is given twice. A *plan* is a function from the
disk to the durable writes the operation makes and the result it reports; a *class* runs the
operation as the source does, field by field and loop by loop, with a count of the durable steps
that succeed before the process dies. Each method ensures that it leaves the disk `Cut` by that
count and reports what the plan reports. Runs are sequences of operations, each with its own
count, so a crash after any single write is a run like any other; the main theorems speak of
every run.

**Digests** are functions; where the source relies on their not colliding, injectivity is a
stated hypothesis (`Sound`, `Injective`), as is that they are not empty. **Atomic replacement**
and **no-replace renames** are single steps; a recursive delete is many, in any order.

## What is proved

- *The 500-slot reservation* (`SlotProtocol`, `SlotStore`). Publish, confirm and both retirements
  keep every payload named by its record through any crash; a verified publication is exclusive
  until it is confirmed or retired; a torn publication is completed by a rerun or settled by a
  retirement. One result is negative: publishing a nonce its record is already spent on reports
  success without effect. `PublishedVerifies` states exactly when a success verifies, and
  `RepublishedIsLost` gives the runs in which it does not.
- *Installing and migrating the pool* (`SlotInstall`, `SlotPoolStore`, `SlotInstallTorn`,
  `SlotInstallRefusals`, `SlotPoolView`). A crash between two durable writes leaves old bytes or new
  bytes, and the same call finishes the work, through the ready schemas of 64, 200 and 500 slots and
  the migrations that older installers began, whatever orders each call ranges over its maps in. A
  first installation that died part-way is finished exactly when the declarations it wrote are the
  current ones (`TornExactly`). A file of another name in a slot's directory stops every
  installation (`LeftoverStops`).
- *Journaled replacement* (`Replacement`, `ReplacementStore`), *removal* (`SlotRemoval`) and
  *reset* (`SlotReset`). Trees are conserved and reruns converge; for the replacement exactly
  when the recursive delete visits all that is left, contents first (`EmptiesExactly`). For removal
  the crash states are given exactly: the first so many members moved, in order.
- *The derived index* (`RecordLookup`, `DerivedIndex`, `SnapshotScan`, `Search`, `SearchMerge`).
  Keyed scans, dotted suffixes and binary-searched prefixes visit what full scans visit, and read
  exactly the lines that were written; a published snapshot gives its offsets back, with the
  offsets file or without it, exactly when no record has the longest length that writing accepts
  (`PublishedLoads`); pages follow one another without loss up to the cursor bound, which
  `CursorsTile` states exactly.
- *Printers, codecs and the pager* (`SlotPayload`, `LuaReader`, `SlotRoundTrip`, `SlotRoute`,
  `MemoryRecord`, `Utf8`, `Excerpt`). Round trips for all octets, injectivity, detection of every
  single-octet change, and excerpts that reassemble exactly.
- *Walks* (`LoadContext`, `TokenOrder`, `LoadGraph`, `LoadCase`, `Closure`, `BraceClosures`,
  `SyntaxWalk`). The graph of the loads that reached a document is acyclic exactly when no step is
  marked, in every walk; every load that applies is recorded; a known load decision never
  depends on what is unknown; every table constructor gets its own closing line.
- *Accounts and shared state* (`CacheBudget`, `Archive`, `BrokerQueue`). The namespace never
  exceeds its budget, stored captures never lose blob or dependencies, and the queue neither
  loses, repeats nor reorders a task, and forgets none while its worker runs.

Where comments and code could be read differently, the code is followed. Some results are limits
of the code, each with an input that shows it and the condition under which it does not arise.

- The tokens of a load target are visited in map order, and with both fields set that order can
  decide whether the target is known (`OrderMatters`). `AnswersAgree` says exactly when it does not
  for fields without brackets; the contexts that the repository selects are never affected.
- A record of exactly 1<<20 octets is written, and the snapshot's offsets are then refused by every
  load (`LongestIsLost`).
- Two directory entries that only full lower-casing identifies share one key, and then the keys of all
  recorded loads can close a cycle that no step marks (`UnmarkedCycle`). `AllMarkedExactly` says
  exactly when; it cannot happen where paths that share a key can all be entered or none.
- An installer that died part-way through a first installation leaves it to installers with the same
  interface list: a later one refuses it for good (`TornForGood`, `OlderInterfacesStuck`).
- The broker's worker can stop while a task is pending (`StopStrands`).
- A page of an excerpt with no room at all returns its line with byte zero, so the reassembly is
  stated for pages with room for a code point and a line.

## Model

| member | source | states |
|---|---|---|
| `SlotStore.NextFreeSlot` | internal/delivery/slot_route.go:15-23 | returns the first slot after the given one with no pending hash and no live reservation, or 0 exactly when there is none |
| `SlotStore.Store.InspectSlots` | internal/delivery/slots.go:432-481 | reports the first problem in slot order: manifest shape, directory, static files, or a payload digest that is neither the settled nor the pending one |
| `SlotStore.Store.PublishSlot` | internal/delivery/slots.go:490-532 | performs exactly the planned durable writes, cut where the process dies, and reports what the plan reports |
| `SlotStore.Store.WritePublication` | internal/delivery/slots.go:516-531 | the three durable steps in order: pending record, payload, settled record |
| `SlotStore.Store.VerifySlotPublication` | internal/delivery/slots.go:537-557 | succeeds exactly for the settled, unspent record of this consumer, nonce, runtime and payload digest; changes nothing |
| `SlotStore.Store.ConfirmSlotConsumed` | internal/delivery/slots.go:563-583 | marks only the named nonce consumed, refuses a foreign or pending one, leaves a newer reservation untouched |
| `SlotStore.Store.RetirementHash` | internal/delivery/slot_retirement.go:126-132 | the digest on disk when it is one the record names, otherwise an error |
| `SlotStore.Store.RetireSlotProcess` | internal/delivery/slot_retirement.go:15-50 | settles a torn publication on the digest found on disk and marks the process retired |
| `SlotStore.Store.RetireSlotRuntime` | internal/delivery/slot_retirement.go:54-91 | settles a torn publication and records the retiring runtime; refuses a second different one |
| `SlotProtocolProofs.RunKeepsInv` | internal/delivery/slots.go:490-583 | over every run with a crash after any durable write, each payload has the digest its record names, and a pending hash belongs to a live reservation |
| `SlotProtocolProofs.VerifiedUntilNamed` | internal/delivery/slots.go:537-583 | from a successful verification until an operation names that consumer and nonce, the slot keeps its bytes and nobody else verifies on it |
| `SlotProtocolProofs.SpentNeverVerifies` | internal/delivery/slots.go:511-516 | while a record holds a consumed or retired nonce, no run makes that nonce verify again |
| `SlotProtocolProofs.PublishedVerifies` | internal/delivery/slots.go:511-516 | a completed publication verifies if and only if the record was not already spent on that nonce |
| `SlotProtocolProofs.RepublishedIsLost` | internal/delivery/slots.go:502-515 | the failing runs: publish a nonce to a free slot, confirm it, publish it again; the last call reports success, writes nothing and does not verify |
| `SlotProtocolProofs.PublicationResumes` | internal/delivery/slots.go:516-531 | a publication interrupted after any step is completed by the same call, with the result of an uninterrupted one |
| `SlotProtocolProofs.RetirementSettlesTornPublication` | internal/delivery/slot_retirement.go:15-50 | a retirement after a torn publication leaves the payload on disk as the settled one |
| `SlotPoolStore.PoolInstaller.InspectSlotPool` | internal/delivery/slots.go:445-481 | accepts exactly a ready pool of that version whose every slot has its three files, admitted statics and a named payload |
| `SlotPoolStore.PoolInstaller.CheckFiles` | internal/delivery/slots.go:364-400 | collects exactly the files that are not new yet, or refuses when one is neither new nor admitted |
| `SlotPoolStore.PoolInstaller.CollectWrites` | internal/delivery/slots.go:322-401 | validates every slot before any write and lists the directories and replacements still missing |
| `SlotPoolStore.PoolInstaller.ResumeMigration` | internal/delivery/slots.go:302-427 | the migration from a durable intent on, performed write by write and cut where the process dies |
| `SlotPoolStore.PoolInstaller.UpgradeSlotPool` | internal/delivery/slots.go:278-428 | intent, validation, replacements and final manifest in the planned order |
| `SlotPoolStore.PoolInstaller.InstallOneSlot` | internal/delivery/slots.go:218-265 | one slot of the installation pass: its writes, and whether it continues, migrates or refuses |
| `SlotPoolStore.PoolInstaller.PassSlots` | internal/delivery/slots.go:218-274 | the whole pass fills in every expected hash, performs the planned writes and makes the pool ready or migrates it |
| `SlotPoolStore.PoolInstaller.InstallSlotPool` | internal/delivery/slots.go:199-274 | dispatch over missing, installing, ready and upgrading manifests, performed as planned and cut where the process dies |
| `SlotInstallProofs.MigrationRenewsAll` | internal/delivery/slots.go:322-417 | from whatever an interrupted migration left, its directories and replacements make every file of all 500 slots new |
| `SlotInstallProofs.CrashLeavesOldOrNew` | internal/delivery/slots.go:402-417 | at every crash point of an upgrade each file is as it was or holds the new bytes, and a new directory is absent or holds only new files |
| `SlotInstallProofs.InstallCompletes` | internal/delivery/slots.go:199-428 | from every phase, a torn first installation being one with current declarations, the call succeeds, each durable write stays within the phases, and InspectSlots accepts the result |
| `SlotInstallProofs.RerunConverges` | internal/delivery/slots.go:199-428 | after any number of interrupted attempts at one version, each ranging over its two maps in orders of its own, from bare ground, a torn installation with current declarations or a settled older pool, the next attempt ends in the ready inert pool unless a current pool was already there |
| `SlotInstallTorn.TornExactly` | internal/delivery/slots.go:225-241 | a torn first installation with any admitted declarations is finished by the call if and only if every declaration that is there is the current one, and otherwise refused |
| `SlotInstallTorn.TornForGood` | internal/delivery/slots.go:225-241 | with an older declaration no number of attempts, of any version, ever finishes it |
| `SlotInstallTorn.RerunsExactly` | internal/delivery/slots.go:199-428 | from bare ground, any torn installation with admitted declarations or a settled older pool, the call after any interrupted attempts succeeds if and only if no torn installation with an older declaration was there |
| `SlotInstallTorn.OlderInterfacesStuck` | internal/delivery/slots.go:230-236 | the input: an installer with an older interface list that died after its first declaration |
| `SlotInstallProofs.OwnInstallCompletes` | internal/delivery/slots.go:199-274 | an installation of one version, interrupted anywhere, always ends in exactly the ready pool of 500 inert slots |
| `SlotInstallRefusals.OtherVersionRefused` | internal/delivery/slots.go:302-304 | while a migration is unfinished another version is refused, changes nothing however often it is tried, and the migration still finishes |
| `SlotInstallRefusals.ReservedNeverMigrated` | internal/delivery/slots.go:283-287 | an installation over a pool with an outstanding reservation replaces no file, saves no intent and leaves the reservations; a different version is refused without a write |
| `SlotInstallRefusals.LeftoverStops` | internal/delivery/slots.go:186-265 | while a slot directory holds a file of another name every installation fails, whatever the manifest says and however often it has been tried |
| `SlotPoolView.InspectionsAgree` | internal/delivery/slots.go:432-481 | the inspection of the installed files and the inspection of the reservation protocol accept the same disks |
| `SlotPoolView.FinishedMeetsInvariant` | internal/delivery/slots.go:418-427 | a finished installation satisfies the invariant from which every run of the reservation protocol starts |
| `ReplacementStore.Installer.ResumeReplacement` | internal/delivery/upgrade.go:179-223 | both moves, the second alone, nothing, or a refusal, by the verified states of the three trees; cut where the process dies |
| `ReplacementStore.Installer.UpgradeInstallation` | internal/delivery/upgrade.go:35-103 | publishes the complete recovery directory, then resumes it |
| `ReplacementStore.Installer.InstallFresh` | internal/delivery/install.go:78-96 | a verified no-op on the same receipt, an installation on an absent target, otherwise a conflict |
| `ReplacementStore.Installer.RemoveArchive` | internal/delivery/update.go:484-508 | the recursive delete in any order and the marker after it, cut where the process dies |
| `ReplacementStore.Installer.DiscardReplacement` | internal/delivery/update.go:417-508 | verified target, matching journal, both trees intact before the marker, then the removal |
| `ReplacementStore.Installer.Update` | internal/delivery/update.go:247-317 | one target: recovery dispatch, install or upgrade, and the cleanup that follows it |
| `ReplacementProofs.UpdateSound` | internal/delivery/update.go:247-317 | one update from any phase keeps to the phases at every durable step and succeeds exactly when its recursive delete got through |
| `ReplacementProofs.FreshUpdate` | internal/delivery/update.go:273-279 | on an absent target the update succeeds in one step, and a crash leaves nothing or all of the new tree |
| `ReplacementProofs.RunKeepsPhase` | internal/delivery/update.go:417-508 | every run of interrupted attempts, with deletes in any order, stays within the phases |
| `ReplacementProofs.RerunConverges` | internal/delivery/upgrade.go:179-223 | from every crash point, including a half-finished recursive delete, the rerun succeeds if and only if its delete visits every entry that is left, contents before directories, and then ends with the new tree, no recovery directory and no marker |
| `ReplacementProofs.WholeUntilMarked` | internal/delivery/update.go:465-484 | in every reachable state the old tree is whole at one of two places, unless the marker is durable or all is done and the target is the new tree |
| `ReplacementProofs.OtherReleaseRefused` | internal/delivery/update.go:247-302 | while one release is pending a different one changes nothing however often it is tried, and the pending one still finishes |
| `ReplacementProofs.UnmarkedDamageIsStuck` | internal/delivery/update.go:465-484 | with both moves done and no marker the update is refused if and only if the parked tree is not the whole old one, and then no number of reruns changes anything |
| `ReplacementProofs.EmptiesExactly` | internal/delivery/update.go:501-504 | a recursive delete leaves nothing if and only if its order visits every entry that is there and each directory after its contents |
| `ReplacementProofs.SomeRerunFinishes` | internal/delivery/update.go:417-508 | from every reachable state the rerun that deletes every file and then the directories succeeds |
| `SlotRemovalStore.Remover.Preflight` | internal/delivery/slot_remove.go:89-124 | accepts exactly when every member is on one side and matches the intent |
| `SlotRemovalStore.Remover.MoveSlots` | internal/delivery/slot_remove.go:125-129 | moves, in order, exactly the slots not yet moved |
| `SlotRemovalStore.Remover.Resume` | internal/delivery/slot_remove.go:80-136 | the removal from a durable intent on, cut where the process dies |
| `SlotRemovalStore.Remover.RemoveAddonAndSlots` | internal/delivery/slot_remove.go:24-137 | checks, durable intent, preflight and moves as planned |
| `SlotRemoval.CutMoves` | internal/delivery/slot_remove.go:125-135 | a process that dies after some moves has moved exactly that many more members, slots first, marker next, main addon last |
| `SlotRemoval.ResumeStaged` | internal/delivery/slot_remove.go:89-136 | resumed at any stage the preflight passes and exactly the remaining moves are made |
| `SlotRemoval.RemovalConverges` | internal/delivery/slot_remove.go:24-137 | after any run of interrupted removals the rerun with the same archive archives everything |
| `SlotRemoval.MembersConserved` | internal/delivery/slot_remove.go:139-193 | in every reachable state each member is with its bytes on exactly one side; the marker follows every slot and the main addon follows the marker |
| `SlotResetStore.Resetter.Digest` | internal/delivery/slot_reset.go:103-110 | records a digest for each present member and emptiness for each absent one, or refuses |
| `SlotResetStore.Resetter.Check` | internal/delivery/slot_reset.go:128-164 | accepts exactly the recorded archive names and unchanged members |
| `SlotResetStore.Resetter.MoveSlots` | internal/delivery/slot_reset.go:165-172 | moves, in order, exactly the recorded slots not yet moved |
| `SlotResetStore.Resetter.Populate` | internal/delivery/slot_reset.go:178-190 | the embedded installation, the durable change of phase and the final inspection |
| `SlotResetStore.Resetter.ResetAddonSlots` | internal/delivery/slot_reset.go:93-192 | the whole phase machine as planned, cut where the process dies |
| `SlotResetProofs.ResetEnds` | internal/delivery/slot_reset.go:93-192 | from every reachable state the reset succeeds and every durable step stays reachable |
| `SlotResetProofs.ResetConverges` | internal/delivery/slot_reset.go:93-192 | wherever a run of interrupted resets stopped, each with visiting orders of its own, the rerun ends in the same state: every original archived and the ready inert pool |
| `SlotResetProofs.OriginalsConserved` | internal/delivery/slot_reset.go:132-177 | until the next phase is durable every original is byte for byte on exactly one side; afterwards the archive holds them all |
| `SlotPayload.LuaString` | internal/bridge/slot.go:42-59 | the quoted literal of any octets |
| `SlotPayload.PrintSlot` | internal/bridge/slot.go:61-84 | the payload text, or the error for the first inadmissible field |
| `SlotRoundTrip.ReadQuoted` | internal/bridge/slot.go:42-59 | a Lua 5.1 reader of a printed literal gives back its octets, whatever they are |
| `SlotRoundTrip.PayloadRead` | internal/bridge/slot.go:61-84 | a Lua reader of a printed payload accepts it as one table assignment |
| `SlotRoundTrip.RoundTrip` | internal/bridge/slot.go:61-84 | reading a printed payload gives back every field of the envelope |
| `SlotRoundTrip.PrintingInjective` | internal/bridge/slot.go:61-84 | two envelopes that print alike are the same up to the derived code size and checksum |
| `SlotRoute.VerifySlotRoute` | internal/delivery/slot_route.go:32-57 | reports the first invalid, unreadable or blocking slot between start and target |
| `SlotRoute.OneRuntimeLine` | internal/delivery/slot_route.go:25-57 | a printed payload has exactly one matching runtime line and it carries the runtime |
| `SlotRoute.PrintedBlocks` | internal/delivery/slot_route.go:43-55 | a printed payload with a known action blocks a runtime if and only if it is its own |
| `SlotRoute.RouteExact` | internal/delivery/slot_route.go:32-57 | over printed payloads and inert files the route is clear if and only if no intermediate slot carries the runtime |
| `RecordLookup.SnapshotCache.BuildLookups` | internal/codebase/record_lookup.go:38-82 | the postings list exactly the positions of the records posted under each key |
| `RecordLookup.SearchStrings` | internal/codebase/record_lookup.go:114-128 | the first name not below the value, by binary search |
| `RecordLookup.WalkPrefix` | internal/codebase/record_lookup.go:114-128 | every posted position whose name starts with the value, from the contiguous range of the sorted names |
| `RecordLookup.PrefixRange` | internal/codebase/record_lookup.go:114-128 | the names with a prefix are one contiguous range of the sorted names |
| `RecordLookup.SnapshotCache.LookupOffsets` | internal/codebase/record_lookup.go:84-129 | exactly the positions listed under some key, increasing and once each |
| `RecordLookup.SnapshotCache.ScanSelected` | internal/codebase/derived_index.go:246-308 | visits exactly the accepted positions, in file order |
| `RecordLookup.KeyedScanIsFullScan` | internal/codebase/derived_index.go:246-308 | when the keys cover the predicate the keyed scan is the filtered full scan, in order and once each |
| `Search.ExactCovered` | internal/codebase/search.go:124-246 | every record the exact stage selects is listed under its keys, dotted suffixes included |
| `Search.PrefixCovered` | internal/codebase/search.go:124-246 | every record the prefix stage selects is listed under its keys |
| `Search.KindCovered` | internal/codebase/search.go:124-246 | every record the full stage selects is listed under its kind |
| `Search.CollectCandidates` | internal/codebase/search.go:124-254 | the staged keyed search collects exactly what full scans at every stage would |
| `Search.StagedAnswers` | internal/codebase/search.go:203-254 | exact answers of the whole index up to the cap, and prefix answers exactly when there are none |
| `SearchMerge.MergeCandidates` | internal/codebase/search.go:255-274 | appends the lists in order, the weaker ones for a broad search or while there are none |
| `SearchMerge.MergedAnswers` | internal/codebase/search.go:203-274 | the candidates are the matching assets; or the exact, prefix and indexed answers of the whole index in turn; or only the strongest kind that has an answer; the body stage given |
| `Search.Page` | internal/codebase/search.go:290-364 | one page: the distinct results after the cursor, cut exactly when more remain |
| `Search.FirstsCover` | internal/codebase/search.go:290-320 | deduplication keeps each key once, at its earliest candidate |
| `Search.CursorsTile` | internal/codebase/search.go:98-108 | following the cursors gives each distinct candidate once and in order, and all of them exactly when they end by the first page end past 10000 |
| `DerivedIndex.Writer.Write` | internal/codebase/index.go:230-260 | keeps records, offsets and position in step, and drops the offsets for good over their budget |
| `DerivedIndex.Writer.Publish` | internal/codebase/index.go:375-400 | the manifest entries and the offsets file that go with the records |
| `DerivedIndex.CheckTiling` | internal/codebase/derived_index.go:104-116 | accepts exactly entries that start at zero, touch, end at the file and carry full digests |
| `DerivedIndex.WrittenReadBack` | internal/codebase/derived_index.go:246-308 | reading an entry that was written gives its line |
| `DerivedIndex.TilingIsSplit` | internal/codebase/derived_index.go:96-112 | entries that tile the file and all read cut it into its lines: positions are line numbers |
| `DerivedIndex.RebuildOffsets` | internal/codebase/derived_index.go:187-237 | an error for an unscannable line or a foreign digest, scanning when the lines do not account for every byte or the entries are over budget, otherwise the offsets of the scanned lines |
| `DerivedIndex.LoadDerived` | internal/codebase/derived_index.go:58-118 | offsets exactly from an authentic offsets file whose entries tile the records, else a rebuild, a scan or an error |
| `DerivedIndex.TilesExactly` | internal/codebase/derived_index.go:102-112 | the offsets of written lines pass the check if and only if every line has at least one octet and fewer than 1<<20 |
| `DerivedIndex.PublishedLoads` | internal/codebase/derived_index.go:58-237 | a published snapshot loads alike with its offsets file and without it: the written offsets come back if and only if no record has the longest length that writing accepts |
| `DerivedIndex.LongestIsLost` | internal/codebase/index.go:235-237 | a record of exactly 1<<20 octets is written, and no load of its snapshot succeeds |
| `SnapshotScan.ScanByOffsets` | internal/codebase/derived_index.go:246-308 | reads and checks the records that a scan of all entries selects, whatever covering keys it is given |
| `SnapshotScan.SelectedAlike` | internal/codebase/derived_index.go:246-339 | a published snapshot scanned by its offsets and scanned line by line gives the same selected records, in file order |
| `SnapshotScan.ScanPublished` | internal/codebase/derived_index.go:58-308 | a keyed scan over the offsets that a load of a published snapshot gives reads exactly the selected lines that were written |
| `Excerpt.DocumentLineStarts` | internal/codebase/document_lines.go:33-62 | entry k delimits line k of the document |
| `Excerpt.NumberedDocumentLine` | internal/codebase/document_lines.go:94-103 | the numbered line with its carriage returns and invalid octets treated as shown |
| `Excerpt.ShownValid` | internal/codebase/document_lines.go:91-107 | every shown line is valid UTF-8 and starts with a digit, whatever the document holds |
| `Excerpt.ShownKeeps` | internal/codebase/document_lines.go:94-107 | a valid line without carriage returns is shown octet for octet |
| `Excerpt.Cut` | internal/codebase/context.go:498-505 | the longest prefix of whole code points within the room |
| `Excerpt.ContextExcerpt` | internal/codebase/context.go:478-523 | from a fresh or returned position with room for one code point and one line a page never fails, keeps both budgets, holds whole code points, and with what resuming adds is exactly what remained |
| `Excerpt.FollowExcerpts` | internal/codebase/context.go:478-523 | following the positions terminates and reassembles exactly the numbered lines, with a newline exactly where the resume byte is zero |
| `Utf8.ToValidIsValid` | internal/codebase/document_lines.go:105-107 | replacing runs of invalid octets always gives valid UTF-8 |
| `MemoryRecord.EncodeMemoryRecord` | internal/bridge/memory_record.go:41-63 | fills the octets of the record in place, or refuses out-of-range headers and payloads |
| `MemoryRecordProofs.RoundTrip` | internal/bridge/memory_record.go:41-94 | decoding an encoded record gives back header and payload |
| `MemoryRecordProofs.Reencodes` | internal/bridge/memory_record.go:65-94 | every accepted octet string is the encoding of what it decodes to |
| `MemoryRecordProofs.ChangeDetected` | internal/bridge/memory_record.go:54-56 | changing one octet always changes the Adler-32 sum |
| `MemoryRecordProofs.SingleChangeRejected` | internal/bridge/memory_record.go:65-94 | a record with any single octet changed is rejected |
| `MemoryRecordProofs.WrongLengthRejected` | internal/bridge/memory_record.go:84-94 | a truncated or extended record is rejected |
| `LoadContext.Condition` | internal/addoncheck/load_context.go:16-55 | the three-valued answer: included at the first resolved match, otherwise known only if every tag was |
| `LoadContext.ResolveTarget` | internal/addoncheck/load_context.go:57-93 | strips the trailing conditions, then fills the tokens in the order the map is visited |
| `LoadContext.JudgementKept` | internal/addoncheck/load_context.go:16-55 | a known condition, allow or exclude, keeps its answer when empty fields are filled |
| `LoadContext.StripKept` | internal/addoncheck/load_context.go:57-79 | for every stack of conditions the path does not depend on the client and a known decision stands |
| `LoadContext.KnownTargetKept` | internal/addoncheck/load_context.go:57-93 | a known target keeps its decision and path when an empty field is filled with anything, in whatever order either call visits the tokens |
| `TokenOrder.OrdersAgree` | internal/addoncheck/load_context.go:80-88 | two substitutions give the same text in both orders if and only if neither value completes the other token in it |
| `TokenOrder.AnswersAgree` | internal/addoncheck/load_context.go:80-92 | for bracket-free fields the whole answer is the same in both visiting orders if and only if no token stands where its value completes the other one; two known answers are always the same |
| `TokenOrder.SourceContextsAgree` | internal/selection/source_load.go:5-34 | the contexts the repository itself selects never depend on the visiting order |
| `TokenOrder.OrderMatters` | internal/addoncheck/load_context.go:80-92 | a target and a client with both fields set for which one visiting order answers known and the other does not |
| `LoadGraph.LegalKept` | internal/addoncheck/closure.go:198-319 | every history of noted, opened and closed documents keeps the sets, the finish order, single recording and settled targets |
| `LoadGraph.AllMarkedExactly` | internal/addoncheck/closure.go:203-211 | the graph of all recorded loads is acyclic if and only if no step is marked and no load that reached no document leads back through a namesake |
| `LoadGraph.NoneStray` | internal/addoncheck/closure.go:203-211 | in an addon whose paths that share a key can all be entered or none, it is acyclic if and only if no step is marked |
| `LoadCase.UnmarkedCycle` | internal/addoncheck/closure.go:203-211 | without that a walk can end in which no step is marked, the loads that reached a document are acyclic and the keys of all recorded loads close a cycle |
| `LoadCase.DottedArranged` | internal/addoncheck/closure.go:203-211 | an addon of this kind: two names that only full lower-casing identifies |
| `LoadGraph.ActiveLoadCloses` | internal/addoncheck/closure.go:205-211 | a load of a document that is still being loaded closes a walk of recorded loads |
| `LoadGraph.LegalAccounted` | internal/addoncheck/closure.go:292-318 | what is recorded from a document and what it has still to follow are exactly the loads that apply, in order |
| `Closure.ClosureWalk.Note` | internal/addoncheck/closure.go:205-207 | appends one step, marked repeated and cycle by the tracked sets |
| `Closure.ClosureWalk.Load` | internal/addoncheck/closure.go:198-319 | keeps the walk valid within every budget and leaves the path of documents as it was |
| `Closure.ClosureWalk.CheckManifest` | internal/addoncheck/closure.go:264-291 | loads are followed exactly when every manifest condition is known to allow them, otherwise an issue is raised |
| `Closure.ClosureWalk.FollowLoads` | internal/addoncheck/closure.go:292-318 | follows exactly the loads that apply, in order, unless a budget stops the walk |
| `Closure.WalkKeeps` | internal/addoncheck/closure.go:198-319 | in every walk the graph of the loads that reached a document is acyclic if and only if no step is marked, active is the current path and part of seen, and no document is recorded twice under case folding |
| `Closure.AllLoadsAcyclic` | internal/addoncheck/closure.go:198-319 | the same for all recorded loads, exactly where no stray load leads back, and for every addon whose names agree |
| `Closure.LoadsAllRecorded` | internal/addoncheck/closure.go:292-318 | a walk that no budget stopped has recorded from every entered document exactly the loads that apply |
| `Closure.InspectLoad` | internal/addoncheck/closure.go:68-98 | ends with a valid walk and nothing active |
| `BraceClosures.ScanBraces` | internal/addoncheck/lua.go:210-236 | the queues that the stack of braces leaves |
| `BraceClosures.NodeAdds` | internal/addoncheck/lua.go:67-205 | the braces of any construct add exactly the closing lines of its constructors, each to the queue of its opening line |
| `BraceClosures.OwnClosings` | internal/addoncheck/lua.go:174-186 | taking from the queues in walk order gives each constructor its own closing line |
| `BraceClosures.EveryTableEnds` | internal/addoncheck/lua.go:207-236 | for every program the scan and the walk together set the right last line everywhere |
| `SyntaxWalk.SyntaxWalker.Expression` | internal/addoncheck/lua.go:144-205 | an expression takes exactly the queue heads of its constructors, in order |
| `SyntaxWalk.SyntaxWalker.Statement` | internal/addoncheck/lua.go:67-143 | a statement walks its parts in the order of the text |
| `SyntaxWalk.ScanProgram` | internal/addoncheck/lua.go:15-38 | every constructor, in walk order, gets the line of its own closing brace |
| `CacheBudget.SweepSound` | internal/codebase/cache_budget.go:145-165 | an eviction pass never loses count of bytes and never touches the protected path or a cache that was not reclaimed |
| `CacheBudget.SweepGivesUp` | internal/codebase/cache_budget.go:83-85 | it gives up only when every cache it may still evict is busy or would not go |
| `CacheBudget.CapacityLease.NamespaceWithinBudget` | internal/codebase/cache_budget.go:42-58 | the bytes in the namespace never exceed the budget |
| `CacheBudget.CapacityLease.Grow` | internal/codebase/cache_budget.go:45-89 | reserves exactly what was asked or nothing, keeps the account, evicts only candidates this pass could reclaim and only when it must |
| `CacheBudget.ReserveSourceCapacity` | internal/codebase/cache_budget.go:99-170 | a lease is given exactly when the claim fits after evictions |
| `CacheBudget.IndexWriter.Reserve` | internal/codebase/index.go:191-205 | granted stays equal to reserved, and only what is granted is consumed |
| `CacheBudget.IndexWriter.Stage` | internal/codebase/index.go:191-205 | any staged file is reserved before it is written, and the namespace stays within the budget |
| `CacheBudget.IndexWriter.Write` | internal/codebase/index.go:230-260 | bytes written never exceed what is granted |
| `CacheBudget.IndexWriter.Finish` | internal/codebase/index.go:377-411 | the offsets file and the manifest under the same account |
| `Archive.NothingFound` | internal/evidence/archive.go:336-370 | a scan that decides nothing was found has looked at the whole store |
| `Archive.SmallDecided` | internal/evidence/archive.go:464-492 | a store within the page limit is always decided, and found means some document matters |
| `ArchiveStore.MatchingRest` | internal/evidence/archive.go:342-367 | the page after a key is what follows that key in the listing |
| `ArchiveStore.CaptureArchive.Scan` | internal/evidence/archive.go:342-370 | a hundred pages of a thousand documents decide by the first that matters, or refuse |
| `ArchiveStore.CaptureArchive.FindExternalReference` | internal/evidence/archive.go:336-370 | decides whether any other document names the capture |
| `ArchiveStore.CaptureArchive.BlobSharedByAnotherCapture` | internal/evidence/archive.go:464-492 | decides whether another capture has the blob |
| `ArchiveStore.CaptureArchive.CommitCapture` | internal/evidence/archive.go:98-134 | dependencies checked, blob before manifest, cut where the process dies |
| `ArchiveStore.CaptureArchive.KeepCapture` | internal/evidence/archive.go:235-274 | one retention record per capture, idempotent |
| `ArchiveStore.CaptureArchive.RemoveCapture` | internal/evidence/archive.go:280-334 | manifest and retention record in one transaction, the blob afterwards and only when unshared |
| `ArchiveProofs.RunKeepsInv` | internal/evidence/archive.go:98-334 | over every run with a crash after any durable step, each stored capture has its blob and its dependencies, and each retention record its capture |
| `ArchiveProofs.RemovedOnlyUnreferenced` | internal/evidence/archive.go:280-334 | a capture is removed only when no document in the whole store names it, and a blob only when no other capture has it |
| `BrokerQueue.SourceBrokerQueue.Submit` | internal/command/source_broker.go:749-761 | appends and wakes, or refuses a seventeenth task |
| `BrokerQueue.SourceBrokerQueue.Remove` | internal/command/source_broker.go:762-773 | takes out the task and nothing else |
| `BrokerQueue.SourceBrokerQueue.Next` | internal/command/source_broker.go:774-791 | takes the oldest task and wakes again when more remain |
| `BrokerQueue.NeverBlocks` | internal/command/source_broker.go:386-480 | the reply channel is empty whenever the worker answers |
| `BrokerQueue.EveryInterleaving` | internal/command/source_broker.go:386-480 | under every interleaving at most sixteen are pending, a pending task has a token or a woken worker, deliveries are in order and at most once, and no accepted task is lost |
| `BrokerQueue.StoppedForGood` | internal/command/source_broker.go:386-420 | after the worker retires or stops nothing more is delivered or answered, and what is pending only waits to be withdrawn |
| `BrokerQueue.StopStrands` | internal/command/source_broker.go:386-393 | the worker can stop with a task pending and its token there |

## Left out

- SHA-256, the JSON codec, gzip, Git, pipes, symbolic links and Windows paths: only their contracts are used.
- Context cancellation: a cancelled call is one that stops, which the step counts cover for durable operations.
- The texts of the generated TOC and Lua loader files are taken as values by what they are generated from; a version holding a line break is outside that model.
- The slot installation, removal and reset report one refusal and, for the installation, one conflict; which of several errors comes first is not modelled there.
- The manifest size limit and undecodable manifests beyond "unreadable".
- UpdateManaged for several targets, its inventory of targets and the planning that selects recoveries: one target from its dispatch on.
- Removal without any slot pool, which the source delegates to the plain removal of the main addon.
- The two-way races that leases exclude, and changes made by other programs between two calls.
- The body-text stage of the search, suggestions, ranking among equal candidates and relation results beyond their collection; sorted candidates are taken as given to paging.
- The schema names of manifests and offsets files, and the rebuild that is remembered within one cache; the order of several manifest errors.
- Numerals of printed payloads are read as exact integers; a Lua number is exact only up to 2^53.
- The temporary file of an atomic replacement: a process killed inside it leaves one in the slot's directory, which counts as a file of another name there, so that the installation is refused until it is gone (`LeftoverStops`).
- Load fields that hold brackets: for them it is not said exactly when the visiting order decides.
- LoadContext.Condition: white space and letter case are those of ASCII, because the conditions and tags that decide are ASCII.
- SlotResetStore.Resetter.ResetAddonSlots: the main addon's inspection is a parameter, because its receipt format belongs to the plain installation.
- LoadContext.ResolveTarget: white space and letter case are those of ASCII, because the conditions and tags that decide are ASCII.
- In the load closure the order in which tokens are visited is a function of the target text, path resolution is a function, and its directory-entry budget is left out.
- The blobs and digests recorded with each loaded document, and the store they may be published to.
- The gopher-lua lexer and parser: the braces of a program are taken to be those of its syntax tree, in the order of the text.
- Declarations, relationships and documentation found by the syntax walk.
- The bounded memo of line starts, and the encoding of context cursors.
- The block-wise loop of the Adler-32 library; its value is the sum of section 2.2 of RFC 1950.
- Which caches of the source namespace are listed and in what order; walking the namespace for its size.
- The typed payloads that older captures keep references in: what such a payload answers is a parameter, and the declared dependencies are what the invariant speaks of.
- Retries of a metadata commit and the listing, fetching and verifying of captures.
- What the broker's worker does with a task, its timers and its connections.
