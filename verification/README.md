# EUFS: a verified model

EUFS is a crash-consistent file system image with an object store on top of it: a superblock, two
bitmaps, an inode table, a ring journal with two alternating control blocks, copy-on-write files, one
root directory, and a ledger file that remembers the result of every idempotent request. This project
models its core in Dafny and proves what the design promises about it, over every input, every run and
every crash point.

The modules follow the source from the disk upwards.

- `Bytes`, `RecordLayout`, `Crc32c`, `JournalFormat`, `OndiskFormat`, `LedgerFormat`, `Directory`,
  `FieldOffsets`: the on-disk records, as bytes.
- `RingReservation`, `Journal`, `JournalProtocol`, `JournalInvariant`, `JournalRuns`, `JournalStore`: the
  journal. The protocol is a state machine whose steps are single block writes, syncs, I/O failures,
  crashes that leave each unsynced block old, new or torn, reopening, and the start of a transaction. The
  classes `Device` and `JournalControlStore` are the code; each of their methods extends a run of the
  machine.
- `JournalDamage`: what recovery notices when a ring block is damaged.
- `JournalLimits`: what happens outside the assumptions of the protocol.
- `Bitmap`, `ImageView`, `ImageEdit`, `PlanBuilder`, `FilePlan`, `FilePlanner`, `FileHealth`,
  `ObjectPlan`, `ObjectView`, `ObjectPlanner`, `ObjectHealth`, `Health`, `BlockRewrite`: what an image
  means, when it is healthy, and how the planners change it.
- `Ledger`, `LedgerImage`, `LedgerPlan`, `LedgerReplaced`, `StoreOps`, `StoreEffects`, `StoreRuns`,
  `PlainBlocks`, `OpSize`, `Backend`, `Retries`, `Answers`: the object store, its request history, and
  what its clients are told.
- `GraphSearch`, `NamespaceCheck`, `TreeCheck`, `ImageCheck`, `Evidence`, `ConsistencyCheck`: the
  consistency checker.
- `Mkfs`, `Lifecycle`: formatting, opening, restarting after a power loss.
- `Admission`: byte leases, the bounded queue and exactly-once completion.
- `Errors`, `Order`: error numbers, and sets in ascending order.

## Assumptions

Everything below is proved from these, and from nothing else.

- A block torn by a crash does not decode as a control or as a COMMIT block (`TornBlock`); this is what
  the source uses its checksums for.
- A process opens an image that has settled: nothing written before the crash is still unsynced.
- The ring starts without COMMIT blocks (`Formatted`).
- No bitmap block that a request journals, other than the first block of its bitmap, decodes as a COMMIT
  block (`PlainPut`, `PlainReplace`). All other journaled blocks are proved not to (`OpIsPlain`), the
  bitmaps a request leads to are determined by the image (`CreationIsUnique`, `PlanIsUnique`), and images
  of at most 32768 blocks and inodes need no assumption (`SmallImagesArePlain`).
- A replacement does not name the ledger file.
- One process writes the image, and its requests are handled one at a time.

A device operation may fail at any time. `Device.failures` counts the failures, and the contracts say
that nothing but a failure of the device, or a reason they name, keeps an operation from succeeding.

## Findings

Four properties one would expect are not true of the code. Each has an exact condition.

- Formatting with force over an older image keeps the old ring (src/storage/mkfs.cpp:432-445 writes only
  the two control blocks). A COMMIT left there can meet a new transaction with the same number in the same
  place, and recovery then calls the image corrupt. `RefusedByForeignCommit` says exactly when, for any
  image; `ReformatCrash` says it in terms of the old file, for the first transaction after formatting;
  `ReformatOverOldImage` is an input; `FormatIsFormatted` and `FormatServes` say which old files are safe
  for every run.
- A process that dies after writing COMMIT but before syncing it, and is reopened over the same page
  cache, replays the transaction without syncing first (src/journal/journal_recovery.cpp:366-406). A power
  loss in the middle of that replay can lose COMMIT and keep home blocks. `UnsettledReopen` shows that
  every power loss is harmless if and only if no home block has been written, `UnsyncedCommitIsReached`
  that every run can get there. The source's own README limits its evidence to process crashes.
- The replay of a committed request does not carry the current version that the first answer carried, so a
  retry is answered with less than the first time (src/object/object_backend.cpp:227-283).
  `ReplayIsFirstAnswer` shows that a replay is the whole first answer if and only if it is a rejection.
- Neither name validation (src/metadata/new_object_plan.cpp:18-23) nor lookup
  (src/object/object_backend.cpp:204-225) keeps a client from replacing the ledger file.
  `ReplacedLedger` shows that such a request commits, loses its own record, and keeps a history if and
  only if its data is itself a ledger.

## Model

| member | source | states |
|---|---|---|
| `JournalRuns.CrashAtomicity` | src/journal/journal_transaction_executor.cpp:10-77 | Over every run of block writes, syncs, failures, crashes and interrupted recoveries: whenever the system is idle again after a transaction began, the journal is empty and the home blocks are those from before (up to the ordered data, which went to free blocks) or all of those after; they are those after if `WriteCommit` returned, and those before if COMMIT was never handed to the disk |
| `JournalRuns.RecoveryNeverRefuses` | src/journal/journal_recovery.cpp:321-426 | Recovery is total: whatever a crash makes of the unsynced writes of any state of any run, recovery does not call the image corrupt |
| `JournalRuns.SecondRecoveryIsNoOp` | src/journal/journal_recovery.cpp:321-426 | Recovery of an image that recovery or a transaction has finished with writes nothing |
| `JournalRuns.RunsCanFinish` | src/journal/journal_recovery.cpp:321-426 | From every state of every run, including after failures, there is a way back to an idle system |
| `JournalRuns.NoStaleReplay` | src/journal/journal_recovery.cpp:167-318 | After any crash every COMMIT in the ring is older than the next transaction, and recovery replays nothing but the latest transaction, with exactly its images, and only if its COMMIT was submitted |
| `JournalRuns.ControlRule` | src/journal/journal_control_store.cpp:764-822 | After any crash one control copy is selected, the other is unusable, identical or exactly one generation behind modulo 2^64, and the selected control is the one from before or its successor that was being written over the other copy |
| `JournalRuns.RunsPreserve` | src/journal/journal_transaction_executor.cpp:10-77 | A property of images that every transaction of a run keeps, both when it commits and when it does not, holds in every idle state of the run |
| `JournalRuns.RunHasInv` | src/journal/journal_control_store.cpp:368-822 | The stage-by-stage invariant of the journal holds in every state of every run |
| `JournalInvariant.ClassifyExposed` | src/journal/journal_recovery.cpp:167-318 | An exposed transaction is classified committed, with exactly its after-images, if its own COMMIT is in place, and uncommitted if nothing of its number is |
| `JournalInvariant.ControlWritten` | src/journal/ondisk_journal.cpp:244-304 | Writing the successor over the other copy selects it and keeps the old one as fallback |
| `JournalInvariant.ControlTorn` | src/journal/ondisk_journal.cpp:244-304 | If that write is torn, the old copy stays selected |
| `StoreRuns.StoreStaysSound` | src/object/object_backend.cpp:519-551 | From a sound formatted image every idle state of every run of the store is sound: bitmaps, mappings, ownership, directory tree, link counts and ledger |
| `StoreRuns.HistoryGrows` | src/object/request_ledger_plan.cpp:70-223 | Between two idle states of a run the request history only grows |
| `StoreRuns.ChangeAndRecord` | src/object/object_backend.cpp:321-516 | An object change and its ledger record are one: the next idle state has both or neither, both if COMMIT was synced, neither if it was never submitted |
| `StoreRuns.AtMostOnce` | src/object/object_backend.cpp:227-283 | If a later transaction carries the same Request-ID, the earlier one had no effect and its COMMIT never returned: a request changes an object at most once |
| `StoreRuns.CommittedIsRemembered` | src/object/object_backend.cpp:285-319 | Once COMMIT has returned, the Request-ID is on record in every later idle state |
| `Retries.AnswerIsStable` | src/object/object_backend.cpp:227-283 | Once a request is on record, every later retry in the run gets the answer of that record, whatever requests, crashes and recoveries come in between |
| `Retries.RetryAfterCrash` | src/object/object_backend.cpp:227-283 | A request with a lost outcome, accepted or rejected, either took effect, and every later retry is answered from its record, or left nothing, and the retry is executed |
| `Retries.ReplayIsFirstAnswer` | src/object/object_backend.cpp:227-283 | A replay repeats errno, outcome and committed version of the first answer; it is the whole first answer if and only if that was a rejection |
| `Retries.RetryIsReplayed` | src/object/object_backend.cpp:227-283 | A recorded request is answered from its record even when the ledger is full |
| `Retries.ConflictIsRefused` | src/object/object_backend.cpp:227-283 | A Request-ID that returns with another operation or fingerprint is refused with EALREADY |
| `Retries.PutIsDone` | src/object/object_backend.cpp:321-408 | A creation that reports success has made the name resolve to a generation 1 file with exactly its data and has appended its record |
| `Retries.ReplaceIsDone` | src/object/object_backend.cpp:410-516 | A replacement that reports success keeps name and inode number, raises the generation by one, holds exactly the new data and has appended its record |
| `ConsistencyCheck.CheckImage` | src/checker/consistency_checker.cpp:200-1049 | The verdict is healthy if and only if the feature set is known, the journal is empty and the image is sound; inconsistent if and only if the features are known, the journal is empty, everything the image leads to can be located and decoded, and the image is not sound; incomplete if and only if the features are known, a control is selected, and the journal is not empty or something cannot be located or decoded; the check fails to run in all other cases |
| `ConsistencyCheck.ScanInodes` | src/checker/consistency_checker.cpp:356-661 | The scan is clean if and only if every allocated inode is in order and no block is owned twice; it is complete if and only if every inode reached from the root or an allocated inode along directory entries decodes, with its indirect block in range and its directory readable |
| `Evidence.SweepEnds` | src/checker/consistency_checker.cpp:356-661 | A scan that has followed every entry has found exactly the inodes the image leads to, and all of them decode |
| `Evidence.NoLooseEnds` | src/checker/consistency_checker.cpp:662-700 | After a complete scan every entry of the collected namespace leads to a collected inode |
| `TreeCheck.KnownIsReached` | src/checker/consistency_checker.cpp:822-865 | If every entry leads to a decoded inode, so does every chain of entries from the root |
| `Lifecycle.ServedImagesPass` | src/checker/consistency_checker.cpp:200-1049 | Every idle state of every run of the store meets the condition under which the checker says healthy |
| `Lifecycle.CheckServed` | src/checker/consistency_checker.cpp:200-1049 | The checker finds the image of a usable backend healthy |
| `Lifecycle.FormatServes` | src/storage/mkfs.cpp:252-539 | A formatted image starts a run of the store if no block of the ring it took over is a COMMIT |
| `Lifecycle.NewStore` | src/storage/mkfs.cpp:252-539 | Formatting and opening give a usable backend, unless the layout is refused or a device operation fails |
| `Lifecycle.Restart` | src/object/object_backend.cpp:84-164 | After a power loss in any state of any run, opening the image continues the run with a usable backend, unless a device operation fails or a feature is unknown |
| `Lifecycle.ReformatCrash` | src/journal/journal_recovery.cpp:167-318 | Formatting over an older file, one transaction and a crash before its COMMIT: recovery is refused if and only if the old file had, right behind the place of the payloads, a COMMIT with number 1 other than the transaction's own |
| `Lifecycle.ReformatOverOldImage` | src/storage/mkfs.cpp:432-445 | An input on which that happens: a COMMIT of an image with another UUID is left in ring slot 2 |
| `JournalLimits.RefusedByForeignCommit` | src/journal/journal_recovery.cpp:167-318 | On any image whatever, recovery of an exposed transaction is refused if and only if another COMMIT with its number stands in its place |
| `JournalLimits.CrashBeforeCommit` | src/journal/journal_recovery.cpp:167-318 | The same for a whole path from any idle image: begin, expose, crash |
| `JournalLimits.UnsettledReopen` | src/journal/journal_recovery.cpp:366-406 | If a process reopens over an unsynced COMMIT, every power loss still recovers to before or after if and only if no home block has been written yet |
| `JournalLimits.UnsettledReopenIsNotAtomic` | src/journal/journal_recovery.cpp:366-406 | The failing case without torn blocks: COMMIT lost, one of two changed home blocks kept |
| `JournalLimits.UnsyncedCommitIsReached` | src/journal/journal_control_store.cpp:633-696 | Every run can reach such a state with every transaction it can start |
| `LedgerReplaced.ReplacedLedger` | src/object/object_backend.cpp:410-516 | Replacing the ledger file under its own name commits; the history survives if and only if the new data is itself a ledger |
| `LedgerReplaced.LedgerReplacedWithRecord` | src/object/request_ledger_plan.cpp:169-223 | The merge accepts such a transaction, and the record written with it is lost |
| `JournalStore.JournalControlStore.constructor` | src/journal/journal_control_store.cpp:328-365 | The store mirrors a device on which nothing is pending |
| `JournalStore.JournalControlStore.PersistNext` | src/journal/journal_control_store.cpp:764-822 | Accepts exactly the successor of the current control, writes it over the other copy and selects it; a device failure leaves the store requiring a reload; anything else is EINVAL and changes nothing |
| `JournalStore.JournalControlStore.ExposeDurableBody` | src/journal/journal_control_store.cpp:608-631 | Succeeds only with a durable unexposed body and then exposes it; with one it fails only for a device failure; in every other phase it fails and changes nothing |
| `JournalStore.JournalControlStore.WriteCommit` | src/journal/journal_control_store.cpp:633-696 | The same for COMMIT: only after exposure, once |
| `JournalStore.JournalControlStore.CompleteCommittedTransaction` | src/journal/journal_control_store.cpp:699-762 | The same for home replay and checkpoint: only after COMMIT, once |
| `JournalStore.JournalControlStore.WriteUnexposedBody` | src/journal/journal_control_store.cpp:490-605 | Descriptor and payloads are durable at their reserved ring positions, or the store requires a reload |
| `JournalStore.JournalControlStore.WriteOrderedDataAndUnexposedBody` | src/journal/journal_control_store.cpp:368-487 | Accepts exactly the transactions that pass every check against image, UUID, targets, before-images and ring space; a refused one changes nothing |
| `JournalStore.JournalControlStore.CheckBeforeImages` | src/journal/journal_control_store.cpp:368-487 | ESTALE exactly when a before-image differs from the image |
| `JournalStore.Adopt` | src/journal/journal_control_store.cpp:194-265 | On the image of any run a control copy is selected, so only a read failure prevents adoption |
| `JournalStore.ExecuteJournalTransaction` | src/journal/journal_transaction_executor.cpp:10-77 | Success means the journal is empty and every home block is as planned; an admitted transaction fails only for a device failure; every failure asks for fail-closed except a failed descriptor duplication, which leaves the device untouched; at most one transaction is started |
| `JournalStore.JournalControlStore.ClassifyRecovery` | src/journal/journal_recovery.cpp:167-318 | Reads only what the selected control exposes and returns the classification of the durable image, EUCLEAN exactly for a corrupt one; what the classification notices is stated by the `JournalDamage` rows |
| `JournalDamage.DamagedBodyIsCorrupt` | src/journal/journal_recovery.cpp:167-318 | If an exposed transaction is accepted, changing exactly one byte, anywhere in its DESCRIPTOR or in any payload the DESCRIPTOR names, makes recovery call the image corrupt |
| `JournalDamage.DamagedCommitIsUncommitted` | src/journal/journal_recovery.cpp:167-318 | Changing exactly one byte of its COMMIT makes the transaction uncommitted, never half committed |
| `JournalDamage.ReadsOnlyWhatIsExposed` | src/journal/journal_recovery.cpp:167-318 | Two images with the same exposed ring blocks are classified alike, whatever else they hold |
| `JournalDamage.AcceptedBelongsHere` | src/journal/journal_recovery.cpp:167-318 | An accepted DESCRIPTOR has the identity of this image and the number before the next one, fills the used blocks, names consecutive ring positions and distinct home blocks outside the journal |
| `JournalDamage.CommittedImages` | src/journal/journal_recovery.cpp:167-318 | A committed transaction is replayed as exactly the payloads its DESCRIPTOR names, each to its home block |
| `JournalStore.JournalControlStore.ResolveRecovery` | src/journal/journal_recovery.cpp:321-426 | On the image of any run it fails only for a device failure; it leaves an empty journal, nothing else changed for an uncommitted transaction, and exactly the journaled images applied for a committed one |
| `RingReservation.PlanRingReservation` | src/journal/ring_reservation.cpp:29-113 | On a clean valid control: 1 to 252 payloads that fit with DESCRIPTOR and COMMIT, and a transaction number left, are given consecutive ring positions from the head on; every other request is refused, each for one cause and in a fixed order |
| `RingReservation.ReserveIs` | src/journal/ring_reservation.cpp:29-113 | A reservation succeeds if and only if the control is valid and clean, there are 1 to 252 payloads, two blocks more fit the ring, and the transaction number is not the last one |
| `JournalStore.JournalControlStore.Admit` | src/journal/journal_control_store.cpp:368-459 | When no other transaction is under way: nothing to write, a busy ring, another image, an uncovered target, more than 252 blocks, a ring too small, no number left and a stale before-image are refused in that order with EINVAL, EBUSY, ESTALE, EINVAL, E2BIG, ENOSPC, EOVERFLOW and ESTALE; anything else is admitted unless a read fails |
| `OpSize.OpSizeIs` | src/object/object_backend.cpp:285-319 | A planned operation of the store journals at most seven blocks besides block bitmap blocks, and no more of those than there are or than it moves blocks |
| `OpSize.OpIsTaken` | src/journal/journal_control_store.cpp:368-459 | In every idle state of every run of the store, every planned operation the ring has room for passes all checks of the journal, so only the device can make it fail |
| `OpSize.TenBlocksSuffice` | src/journal/ring_reservation.cpp:29-113 | On an image of at most 32768 blocks a ring of ten blocks has room for every operation |
| `RingReservation.ReservationIsDistinct` | src/journal/ring_reservation.cpp:29-113 | Descriptor, payload and COMMIT positions are pairwise distinct and inside the ring, also across the wrap |
| `RingReservation.ExposedControlIsValid` | src/journal/ring_reservation.cpp:29-113 | The exposed control of a reservation is valid, counts its blocks and raises the transaction number by one |
| `RingReservation.AdvanceInjective` | src/journal/ring_reservation.cpp:20-26 | Within one turn different distances give different positions |
| `JournalFormat.ControlRoundTrip` | src/journal/ondisk_journal.cpp:141-226 | Every valid control record decodes from its encoding to itself |
| `JournalFormat.ControlCanonical` | src/journal/ondisk_journal.cpp:141-226 | Any block that decodes as a control re-encodes to that same block |
| `JournalFormat.ControlDamageIsRejected` | src/journal/ondisk_journal.cpp:141-226 | Changing any one byte of a valid control block makes it undecodable |
| `JournalFormat.DescriptorRoundTrip` | src/journal/ondisk_journal.cpp:307-427 | Every valid descriptor record decodes from its encoding to itself |
| `JournalFormat.DescriptorCanonical` | src/journal/ondisk_journal.cpp:307-427 | Any block that decodes as a descriptor re-encodes to that same block |
| `JournalFormat.DescriptorDamageIsRejected` | src/journal/ondisk_journal.cpp:307-427 | Changing any one byte of a valid descriptor block makes it undecodable |
| `JournalFormat.CommitRoundTrip` | src/journal/ondisk_journal.cpp:429-502 | Every valid COMMIT record decodes from its encoding to itself |
| `JournalFormat.CommitCanonical` | src/journal/ondisk_journal.cpp:429-502 | Any block that decodes as a COMMIT re-encodes to that same block |
| `JournalFormat.CommitDamageIsRejected` | src/journal/ondisk_journal.cpp:429-502 | Changing any one byte of a valid COMMIT block makes it undecodable |
| `JournalFormat.DescriptorIsNotCommit` | src/journal/ondisk_journal.cpp:360-502 | No block is both a descriptor and a COMMIT |
| `JournalFormat.CommitShape` | src/journal/ondisk_journal.cpp:459-502 | What every COMMIT block has in common: magic, version, and zeros from byte 64 on |
| `JournalFormat.SuccessorIsNewer` | src/journal/ondisk_journal.cpp:229-242 | The successor generation compares newer and the predecessor older for every value, wrap-around included (section 3.2 of RFC 1982) |
| `JournalFormat.LaterIsNewer` | src/journal/ondisk_journal.cpp:229-242 | For any two generations: the later one is newer if fewer than 2^63 steps apart, ambiguous at exactly 2^63, older beyond, wrap-around included |
| `OndiskFormat.SuperblockRoundTrip` | src/metadata/ondisk_format.cpp:228-331 | Every valid superblock decodes from its encoding to itself |
| `OndiskFormat.SuperblockCanonical` | src/metadata/ondisk_format.cpp:228-331 | Any bytes that decode as a superblock re-encode to the same bytes |
| `OndiskFormat.SuperblockDamageIsRejected` | src/metadata/ondisk_format.cpp:228-331 | Changing any one byte of a valid superblock makes it undecodable |
| `OndiskFormat.InodeRoundTrip` | src/metadata/ondisk_format.cpp:333-422 | Every valid inode record decodes from its encoding to itself |
| `OndiskFormat.InodeCanonical` | src/metadata/ondisk_format.cpp:333-422 | Any bytes that decode as a inode record re-encode to the same bytes |
| `OndiskFormat.InodeDamageIsRejected` | src/metadata/ondisk_format.cpp:333-422 | Changing any one byte of a valid inode record makes it undecodable |
| `Crc32c.ComputeChecksum` | src/metadata/ondisk_format.cpp:168-178 | The table-free bit loop computes the CRC32C of section 12.1 of RFC 3720 as specified bit by bit |
| `Crc32c.ChecksumSeesOneByte` | src/metadata/ondisk_format.cpp:168-178 | Two inputs that differ in exactly one byte have different checksums |
| `Crc32c.CheckValue` | src/metadata/ondisk_format.cpp:168-178 | The digits 123456789 give 0xE3069283, the check value of CRC-32C |
| `FieldOffsets.FieldAt` | src/metadata/ondisk_format.cpp:228-270 | Every field of every encoded record stands at the sum of the widths before it |
| `FieldOffsets.ControlOffsets` | src/journal/ondisk_journal.cpp:141-178 | The byte offset of each field of a control block |
| `FieldOffsets.DescriptorOffsets` | src/journal/ondisk_journal.cpp:307-358 | The byte offset of each header field of a DESCRIPTOR block |
| `FieldOffsets.CommitOffsets` | src/journal/ondisk_journal.cpp:429-457 | The byte offset of each field of a COMMIT block |
| `FieldOffsets.SuperblockSizeOffsets` | src/metadata/ondisk_format.cpp:228-270 | The byte offsets of the sizes in the superblock |
| `FieldOffsets.SuperblockBitmapOffsets` | src/metadata/ondisk_format.cpp:228-270 | The byte offsets of the bitmap regions in the superblock |
| `FieldOffsets.SuperblockRegionOffsets` | src/metadata/ondisk_format.cpp:228-270 | The byte offsets of the other regions in the superblock |
| `FieldOffsets.SuperblockFeatureOffsets` | src/metadata/ondisk_format.cpp:228-270 | The byte offsets of features, identity and creation time in the superblock |
| `FieldOffsets.InodeOffsets` | src/metadata/ondisk_format.cpp:333-369 | The byte offset of each field of an inode record |
| `FieldOffsets.LedgerOffsets` | src/object/request_ledger_format.cpp:133-166 | The byte offset of each field of a ledger record |
| `Directory.EntryRoundTrip` | src/metadata/ondisk_format.cpp:431-508 | Every valid directory record decodes from its encoding to itself |
| `Directory.EntryCanonical` | src/metadata/ondisk_format.cpp:460-508 | A decoded directory record re-encodes to the same bytes |
| `Directory.ParseRoundTrip` | src/storage/image_reader.cpp:533-604 | Valid records laid end to end parse back to the same sequence |
| `Directory.ParseCanonical` | src/storage/image_reader.cpp:533-604 | A block that parses is exactly the records laid end to end |
| `Directory.TryInsert` | src/metadata/new_object_plan.cpp:135-174 | On a parsable block: no room exactly when no record has room, otherwise the block parses to the old records with the first fitting one split |
| `Directory.InsertedLists` | src/metadata/new_object_plan.cpp:135-174 | Insertion adds exactly the new name to the listing and keeps all others in order |
| `Bitmap.BitmapAllocator.Validate` | src/storage/bitmap_allocator.cpp:91-120 | True exactly when sizes fit, the reserved prefix is set and the padding tail is set |
| `Bitmap.BitmapAllocator.Reserve` | src/storage/bitmap_allocator.cpp:122-146 | The lowest free bit becomes set and nothing else changes; no space exactly when none is free |
| `Bitmap.BitmapAllocator.ReleaseAllocated` | src/storage/bitmap_allocator.cpp:148-164 | Exactly an allocated bit in range is cleared; a free or out-of-range bit is refused and nothing changes |
| `Bitmap.BitmapReservation.Rollback` | src/storage/bitmap_allocator.cpp:54-61 | An unkept reservation gives its bit back once |
| `Bitmap.FirstFitIsUnique` | src/storage/bitmap_allocator.cpp:122-146 | What first fit takes is determined by how much it takes |
| `ImageView.CheckMapping` | src/storage/image_reader.cpp:433-530 | True exactly when the pointers cover the size with allocated data blocks and nothing more |
| `ImageView.LoadInode` | src/storage/image_reader.cpp:433-530 | Returns the inode, or EINVAL, ENOENT or EUCLEAN exactly as its checks say |
| `ImageView.ReadFile` | src/storage/image_reader.cpp:665-710 | Copying block by block returns exactly the requested window of the contents, cut at the end of the file |
| `ImageView.MappedBlocks` | src/storage/image_reader.cpp:394-430 | Every logical block below the size maps to an allocated data block |
| `FilePlanner.PrepareFileMutation` | src/metadata/file_mutation_plan.cpp:176-413 | On a healthy image: EINVAL, EFBIG above 4243456 bytes, EINVAL, ENOENT, EISDIR, ESTALE and EOVERFLOW exactly for the number, size, range, allocation, kind, generation and last generation of the file; otherwise a plan if and only if there are enough free blocks, and ENOSPC if not |
| `FilePlanner.RequestErrorIs` | src/metadata/file_mutation_plan.cpp:176-243 | The checks of a file change, restated in terms of what a healthy image holds |
| `FilePlanner.PlanIsUnique` | src/metadata/file_mutation_plan.cpp:106-173 | An image has one outcome for a file change: the same new blocks and the same bitmap |
| `FilePlanner.LoadMapping` | src/metadata/file_mutation_plan.cpp:87-103 | The whole logical to physical mapping of a file |
| `FilePlanner.CheckDistinct` | src/metadata/file_mutation_plan.cpp:176-413 | True exactly when no block is mapped twice and the indirect block is not mapped |
| `FilePlan.AfterBlockIsWritten` | src/metadata/file_mutation_plan.cpp:119-173 | Zeroing the gap and overlaying the data gives every byte below the new size its value in the simple view: old bytes, zeros in the gap, new data |
| `FilePlan.PlanWritesFile` | src/metadata/file_mutation_plan.cpp:176-413 | After the transaction the file reads as the simple write of the request to its old contents, one generation later |
| `FilePlan.PlanKeepsOtherFiles` | src/metadata/file_mutation_plan.cpp:176-413 | Every other file keeps inode, mapping, blocks and contents |
| `FilePlan.PlanIsCovered` | src/metadata/file_mutation_plan.cpp:176-413 | The plan passes every target and before-image check the journal makes |
| `FileHealth.FilePlanKeepsHealth` | src/metadata/file_mutation_plan.cpp:176-413 | A committed file change keeps the image healthy and the namespace as it was |
| `ObjectPlanner.PrepareNewRootObject` | src/metadata/new_object_plan.cpp:207-501 | On a healthy image: EINVAL if and only if the name is not allowed, else EFBIG if and only if the data has more than 4243456 bytes, else EEXIST if and only if the root lists the name; otherwise a plan if and only if there are a free inode, a place for the entry and enough blocks, and ENOSPC if not |
| `ObjectPlanner.CreationErrorIs` | src/metadata/new_object_plan.cpp:207-267 | The checks of a creation, restated in terms of the namespace of a healthy image |
| `Directory.ValidNameIs` | src/metadata/ondisk_format.cpp:158-166 | A name is valid if and only if it has 1 to 255 bytes, is neither one dot nor two dots, and has no slash and no zero byte |
| `Directory.RoomIsWhatIsLeft` | src/metadata/new_object_plan.cpp:135-174 | A record can give exactly what leaves it a valid record, or all of it if it is free |
| `ObjectPlanner.CreationIsUnique` | src/metadata/new_object_plan.cpp:207-501 | An image has one outcome for a creation: the same inode number, blocks and bitmaps |
| `ObjectHealth.CreationCreates` | src/metadata/new_object_plan.cpp:207-501 | After the transaction the new inode is a generation 1 regular file with exactly the data, and the root lists it besides all old entries |
| `ObjectHealth.CreationKeepsHealth` | src/metadata/new_object_plan.cpp:207-501 | A committed creation keeps the image healthy |
| `ObjectHealth.LeafKeepsTree` | src/metadata/new_object_plan.cpp:207-501 | Adding one leaf to a healthy directory tree gives a healthy tree |
| `ObjectView.RootListing` | src/metadata/new_object_plan.cpp:207-501 | The root listing gains exactly one entry, also when the directory grows by a block or an indirect block |
| `ObjectView.CreationIsCovered` | src/metadata/new_object_plan.cpp:207-501 | The plan passes every target and before-image check the journal makes |
| `PlanBuilder.BitmapImages` | src/metadata/new_object_plan.cpp:177-204 | The after-images of changed blocks together with the untouched blocks make up the new bitmap |
| `ImageEdit.BitmapsAfter` | src/metadata/new_object_plan.cpp:177-204 | After a transaction both bitmaps read back as planned |
| `ImageEdit.InodesAfter` | src/metadata/new_object_plan.cpp:115-132 | After a transaction exactly the planned inode records have changed |
| `Health.HealthFrame` | src/checker/consistency_checker.cpp:356-661 | Health depends only on metadata and allocated blocks |
| `PlainBlocks.OpIsPlain` | src/journal/ondisk_journal.cpp:459-502 | No block that an operation journals decodes as a COMMIT, given that no bitmap block beyond the first of its bitmap does |
| `PlainBlocks.SmallImagesArePlain` | src/storage/mkfs.cpp:252-539 | On an image of at most 32768 blocks and 32768 inodes nothing has to be assumed |
| `PlainBlocks.DirectoryIsPlain` | src/metadata/ondisk_format.cpp:460-508 | A block that parses as a directory is never a COMMIT |
| `PlainBlocks.IndirectIsPlain` | src/storage/image_reader.cpp:433-530 | A valid indirect block is never a COMMIT |
| `PlainBlocks.TableBlockIsPlain` | src/metadata/ondisk_format.cpp:333-369 | A block holding a valid inode record is never a COMMIT |
| `PlainBlocks.AppendIsPlain` | src/object/request_ledger_plan.cpp:70-167 | The block that takes a ledger record is never a COMMIT |
| `LedgerFormat.RecordRoundTrip` | src/object/request_ledger_format.cpp:133-220 | Every valid ledger record decodes from its slot to itself |
| `LedgerFormat.RecordCanonical` | src/object/request_ledger_format.cpp:133-220 | A slot that decodes as used re-encodes to the same bytes |
| `LedgerFormat.RecordDamageIsRejected` | src/object/request_ledger_format.cpp:168-220 | Changing any one byte of a used slot makes it corrupt, not empty and not another record |
| `Ledger.LedgerIsUnique` | src/object/request_ledger_index.cpp:74-175 | A ledger holds at most one history |
| `Ledger.AppendExtends` | src/object/request_ledger_plan.cpp:70-167 | Writing the next record into the next slot extends the history by exactly that record |
| `Ledger.IndexFinds` | src/object/request_ledger_index.cpp:34-38 | Looking up any recorded Request-ID finds its own record |
| `Ledger.IndexSize` | src/object/request_ledger_index.cpp:74-175 | The index has exactly one entry per record |
| `Ledger.RequestLedgerIndex.AppendCommitted` | src/object/request_ledger_index.cpp:40-72 | Accepts exactly a valid record with the next sequence number and a new Request-ID while there is room, and then indexes the longer history |
| `LedgerImage.LookupHealthy` | src/storage/image_reader.cpp:607-662 | On a healthy image a name resolves exactly to the inode the root lists under it, and ENOENT means it lists none |
| `LedgerImage.ScanRequestLedger` | src/object/request_ledger_index.cpp:74-175 | The scan succeeds exactly on an image that holds a ledger, with an index of its history |
| `LedgerPlan.PrepareRequestLedgerAppend` | src/object/request_ledger_plan.cpp:70-167 | Refuses exactly as its checks say, otherwise plans the next slot of the ledger of this image |
| `LedgerPlan.MergeRequestLedgerAppend` | src/object/request_ledger_plan.cpp:169-223 | Joins the append to a transaction exactly when it is well formed, for the same image and touches no block of it |
| `LedgerPlan.AppendErrorOfLedger` | src/object/request_ledger_plan.cpp:70-167 | With an index of the ledger's own history an append fails only for a full ledger or an invalid record |
| `LedgerPlan.AppendOnImage` | src/object/request_ledger_plan.cpp:70-167 | An append keeps the image healthy and the namespace, and extends the durable history by its record |
| `LedgerPlan.MergedIsCovered` | src/object/request_ledger_plan.cpp:169-223 | A merged transaction passes every target and before-image check the journal makes |
| `BlockRewrite.RewriteKeepsHealth` | src/object/request_ledger_plan.cpp:70-167 | Rewriting a block of a regular file in place keeps the image healthy and the namespace |
| `StoreOps.OpIsSound` | src/object/object_backend.cpp:519-551 | An operation that commits keeps the image sound and appends exactly its record |
| `StoreOps.OpUncommitted` | src/object/object_backend.cpp:519-551 | An operation that does not commit keeps the image sound and the history, although its ordered data was written |
| `StoreOps.OpIsAdmitted` | src/journal/journal_control_store.cpp:368-487 | The journal refuses a planned operation only for want of ring space |
| `StoreOps.ChangeKeepsLedger` | src/object/object_backend.cpp:321-516 | A change of another file leaves the ledger and its history alone |
| `StoreOps.ChangeAvoidsLedger` | src/object/request_ledger_plan.cpp:169-223 | No such change touches a block of the ledger, so the merge always succeeds |
| `StoreEffects.CreateIsVisible` | src/object/object_backend.cpp:321-408 | After a committed creation the name resolves to the new file with its data |
| `StoreEffects.WriteIsVisible` | src/object/object_backend.cpp:410-516 | After a committed change the file reads as written, one generation later |
| `StoreEffects.NamesAreKept` | src/object/object_backend.cpp:321-516 | Every name that resolved still resolves to the same inode number |
| `StoreEffects.OthersAreKept` | src/object/object_backend.cpp:321-516 | Every inode an operation is not about keeps its record and contents |
| `Backend.ObjectBackend.PutIfAbsentIdempotent` | src/object/object_backend.cpp:321-408 | A closed, unidentified, recorded or unrecordable request is answered at once without effect; a new one ends in exactly one of: its error without effect, a recorded rejection, a commit of change and record, an unknown outcome with the backend closed, or nothing started; the last two only for a device failure or a ring too small |
| `Backend.ObjectBackend.ReplaceIfVersionIdempotent` | src/object/object_backend.cpp:410-516 | The same for a replacement, with rejection for a missing object or another version; which reply each image gives is stated by `ReplaceIsAnswered` |
| `Answers.PutIsAnswered` | src/object/object_backend.cpp:321-408 | If no device operation fails and the ring has room, a creation is answered from what the sound image holds: EINVAL for a name that is not allowed, EFBIG above 4243456 bytes, EISDIR over a directory, EINVAL over a file of generation 0, else EEXIST on record over a listed name; ENOSPC without space; otherwise generation 1 of a free inode with exactly the data and attributes asked for, one name more in the root, on record, and every other file unchanged; the backend stays usable |
| `Answers.ReplaceIsAnswered` | src/object/object_backend.cpp:410-516 | The same for a replacement: an absent name is ENOENT and its rejection is appended to the history; another version is ESTALE on record, or EINVAL exactly when the listed file has generation 0; then EFBIG, EOVERFLOW and ENOSPC; otherwise the next generation with exactly the data, the same names, the same mode, owner and links, and every other file unchanged |
| `Answers.Put` | src/object/object_backend.cpp:321-408 | That answer, for a creation sent to any valid store |
| `Answers.Replace` | src/object/object_backend.cpp:410-516 | That answer, for a replacement sent to any valid store |
| `Answers.NextReplacement` | src/object/object_backend.cpp:410-516 | The version in the reply of one request is the one the next replacement has to expect: with it the replacement makes the next generation, with any other it is stale |
| `Answers.RejectionIsValid` | src/object/request_ledger_format.cpp:70-124 | A rejection can be recorded if and only if it names no version for a missing object, and otherwise a version with nonzero inode and generation |
| `Answers.ResolvedIs` | src/object/object_backend.cpp:204-225 | A name of a healthy image resolves to the file the root lists; it fails with EINVAL for a name that is not allowed, ENOENT for one not listed, EISDIR for a directory, and in no other case |
| `Answers.ExecutedWhen` | src/object/object_backend.cpp:227-283 | A request is executed if and only if it has an id, the store has a ledger, no record has that id, and a slot is free; otherwise it is answered with EINVAL, ENOTSUP, its record, or ENOSPC |
| `Backend.ObjectBackend.CheckRequest` | src/object/object_backend.cpp:227-283 | Screens a request by the index exactly as by the durable history |
| `Backend.ObjectBackend.CommitWithRecord` | src/object/object_backend.cpp:294-319 | Change and record are committed together and the index follows the durable history, or nothing happened, or the outcome is unknown and the backend closed |
| `Backend.ObjectBackend.Apply` | src/object/object_backend.cpp:519-551 | A committed transaction is followed by a reader of the new image; a failure of the executor closes the backend unless the device was not touched |
| `Backend.ObjectBackend.Publish` | src/object/object_backend.cpp:285-292 | The record joins the index, or the backend closes |
| `Backend.ObjectBackend.Get` | src/object/object_backend.cpp:685-731 | Returns exactly the contents of the resolved object, EIO when closed |
| `Backend.Open` | src/object/object_backend.cpp:84-164 | On the image of any run it gives a usable backend whose index is the durable history; it fails only for a device failure or an unknown feature |
| `Backend.PlanRecord` | src/object/request_ledger_plan.cpp:70-223 | Planning and merging a record succeeds exactly when the record is valid |
| `Backend.NotTheLedger` | src/object/object_backend.cpp:204-225 | No other name resolves to the ledger file |
| `GraphSearch.FindCycles` | src/checker/consistency_checker.cpp:755-797 | The iterative three-colour search reports nothing if and only if the directory graph has no cycle |
| `GraphSearch.Reach` | src/checker/consistency_checker.cpp:812-860 | The queue visits exactly the inodes reachable from the root |
| `NamespaceCheck.CountLinks` | src/checker/consistency_checker.cpp:685-738 | The counters are the numbers of entries that name an inode and of child directories of a directory |
| `NamespaceCheck.CheckLinks` | src/checker/consistency_checker.cpp:685-738 | No issue exactly when every link count is right, given complete evidence |
| `NamespaceCheck.CheckEntries` | src/checker/consistency_checker.cpp:740-753 | No issue exactly when every entry names an inode of its kind |
| `NamespaceCheck.CheckParents` | src/checker/consistency_checker.cpp:799-810 | No issue exactly when no directory is named twice |
| `NamespaceCheck.CheckReach` | src/checker/consistency_checker.cpp:812-860 | No issue exactly when every inode in use is reachable |
| `TreeCheck.TreePasses` | src/checker/consistency_checker.cpp:685-860 | A healthy tree passes all namespace phases |
| `TreeCheck.PassedIsTree` | src/checker/consistency_checker.cpp:685-860 | A namespace that passes all phases is a healthy tree |
| `TreeCheck.CheckNamespace` | src/checker/consistency_checker.cpp:685-860 | The phases together report nothing exactly when the namespace passes |
| `ImageCheck.Checker.ScanInode` | src/checker/consistency_checker.cpp:423-661 | An inode adds no issue exactly when it is readable, well mapped and shares no block with earlier ones, and then its blocks and entries are collected |
| `ImageCheck.Checker.ScanBlocks` | src/checker/consistency_checker.cpp:474-567 | The pointers of an inode add no issue exactly when they fit its size and meet no registered block |
| `ImageCheck.Checker.ScanDirectory` | src/checker/consistency_checker.cpp:569-660 | A directory adds no issue exactly when its blocks parse, its names are unique and its targets are in range |
| `ImageCheck.Checker.CheckPointer` | src/checker/consistency_checker.cpp:388-420 | A pointer adds no issue exactly when it is as required and not registered yet, and then it is registered |
| `ConsistencyCheck.FindClearBit` | src/checker/consistency_checker.cpp:159-174 | Finds a clear bit in a range exactly when there is one |
| `ConsistencyCheck.CheckGeometry` | src/checker/consistency_checker.cpp:297-354 | No issue exactly when both bitmaps are well formed and the root is allocated |
| `ConsistencyCheck.CheckUnreferenced` | src/checker/consistency_checker.cpp:663-676 | No issue exactly when every allocated data block is referenced |
| `ConsistencyCheck.CheckLedger` | src/checker/consistency_checker.cpp:862-1037 | No issue exactly when the image holds a ledger |
| `ConsistencyCheck.CheckedIsHealthy` | src/checker/consistency_checker.cpp:297-676 | What the space phases check implies that space is healthy |
| `ConsistencyCheck.HealthyIsChecked` | src/checker/consistency_checker.cpp:297-676 | A healthy image passes the space phases |
| `Mkfs.FormatImage` | src/storage/mkfs.cpp:252-539 | Formats exactly when layout and ledger geometry fit, with the bitmaps, inodes, root directory, ledger and controls specified |
| `Mkfs.BuildBitmap` | src/storage/mkfs.cpp:103-210 | Exactly the used prefix and the tail are set |
| `Mkfs.LayoutIs` | src/metadata/ondisk_format.cpp:181-226 | Options have a layout if and only if there are inodes, at least five journal blocks, and a data block is left behind the metadata; it is the only valid superblock with those sizes |
| `Mkfs.AcceptsIs` | src/storage/mkfs.cpp:131-190 | Layout and ledger geometry fit if and only if, besides that, the entries are a multiple of 32, at most 33152, with a third inode, and ledger, root block and indirect block leave a data block free |
| `Mkfs.FormatIsSound` | src/storage/mkfs.cpp:252-539 | Whatever the file held, the formatted image is sound, with an empty ledger of exactly the entries asked for if there is one |
| `Mkfs.FormatIsFormatted` | src/storage/mkfs.cpp:432-445 | The journal is ready for every run if and only if the file held no COMMIT where the ring now is |
| `Admission.Gate.TryAcquire` | src/rpc/inflight_byte_limiter.cpp:61-70 | Refused exactly when the bytes do not fit under the limit; used bytes stay the sum of the live leases |
| `Admission.Gate.ResetLease` | src/rpc/inflight_byte_limiter.cpp:46-56 | A lease gives its bytes back once |
| `Admission.Gate.MakeTask` | src/rpc/bounded_task_queue.cpp:8-19 | A new active task takes over its lease |
| `Admission.Gate.TryEnqueue` | src/rpc/bounded_task_queue.cpp:72-92 | Accepted exactly when active, not stopped and below capacity; otherwise the caller keeps the task |
| `Admission.Gate.Pop` | src/rpc/bounded_task_queue.cpp:94-106 | First in, first out |
| `Admission.Gate.StopAndTakePending` | src/rpc/bounded_task_queue.cpp:108-117 | Hands over all queued tasks, still active, and refuses later ones |
| `Admission.Gate.BeginFinish` | src/rpc/bounded_task_queue.cpp:45-57 | Only an active task calls a callback |
| `Admission.Gate.EndFinish` | src/rpc/bounded_task_queue.cpp:45-57 | The lease goes back after the callback |
| `Admission.Gate.Destroy` | src/rpc/bounded_task_queue.cpp:21-33 | A task that is dropped or overwritten while active is cancelled |
| `Admission.Gate.NothingIsLost` | src/rpc/bounded_task_queue.cpp:21-61 | When nothing holds a task any more, every task ever made has called exactly one callback |
| `Admission.OneCall` | src/rpc/bounded_task_queue.cpp:45-57 | One call in the count means one event in the log, and no other for that task |

## Left out

- FUSE, the brpc service handlers and metrics, the command line tools, and the text and JSON of reports:
  they call what is modelled here, or only print it.
- SHA-256 fingerprints are opaque values; only their equality matters to the ledger.
- The requests without Request-ID (`PutIfAbsent`, `ReplaceIfVersion`) and `Stat`: they are the modelled
  paths without the ledger. `OpIsSound` and the run theorems cover transactions without a record.
- `empty_file_create_plan.cpp`: a creation with empty data.
- Advisory locks, short reads and writes, `pread`/`pwrite` retry loops, `stat` of the image file, and the
  random UUID and clock of `mkfs`: parameters or single device operations here.
- `std::bad_alloc`, null output pointers, host integer overflow, and error texts.
- The backend's mutex: methods of `ObjectBackend` are called one at a time.
- `ImageReader` reads the image as a value; that it caches bitmaps is not modelled. Reloading it after a
  commit is one read of the device that may fail.
- Online repair, deletion and double indirect blocks do not exist in the source.
- CreationError: an unlistable root directory is always EUCLEAN, where the source returns EINVAL if an
  entry names an inode number out of range.
- LookupRoot: the same simplification.
- ExecuteJournalTransaction: the error of a failed descriptor duplication is always EMFILE, and every
  other failed device operation is EIO.
- CheckImage: issues carry no inode or block numbers, several issue codes are one here, and entries are
  visited grouped by parent; the verdict is exact.
- ReplaceIfVersionIdempotent: requires that the request does not name the ledger file; what happens
  otherwise is stated by `ReplacedLedger`.
- ReformatCrash: exact for the first transaction after formatting; for later ones the condition is stated
  on the image they start from (`CrashBeforeCommit`), since it depends on which transactions came before.
- NothingIsLost: `kResourceExhausted`, an allocation failure while enqueueing, is not modelled.
