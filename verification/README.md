# FastS3 core, verified

A Dafny model of the space accounting beneath FastS3, a single-node object store, and of the small
machines around it, with proofs about every input, every run and every reachable state.

FastS3 divides its devices into extents. Objects are lists of segments, each a byte range of an extent;
copies share segments. An allocator keeps a bitmap, live bytes and reference counts per extent, a sparse
table of shared segments, read pins, and for each transaction a draft that can be committed or rolled
back. A compactor moves live segments out of sparse extents while objects come and go. Checkpoints of the
bitmap alternate between two slots of each device. Beside them stand checksums, a four-lane MD5, a cache,
GTID sets for replication, a clock for retention, and a resumable ingest job.

The form follows the program. What it updates in place is a class or a method with loops, proved against
functions on values; what every step, call or run keeps is proved about those functions.

| files | subject |
|---|---|
| Ledger, Rollback, RollbackLimits, LooseRollback | the allocator's state and drafts as values; rollback as the inverse of a draft, where it is not, and what it restores of any draft |
| Holdings, Runs | bytes and holders of a list of objects; accounting over runs |
| Undoing, Interleaving, InterleavingLimits, Pinning | rollback on a ledger that others have changed; accounting and readers' pins while several transactions are open |
| Rebuild, Replay | startup rebuild, log replay |
| Words, Bitmap, BitmapRace | 64-bit words, the bitmap, its compare-exchange protocol |
| Allocation, Allocator | the allocation loop; the allocator class |
| Compaction, Migration, Rebalance | copying a segment; replacing segments of an object; the choice of devices |
| CompactionLedger, CompactionWindow, CompactionOutcome | a switch in the allocator; others beside a switch that is open, if it fails and if it commits |
| CompactionRun, CompactionSwitch, CompactionProgress, CompactionRead, CompactionSafety, CompactionQuiet, CompactionLoss | a batch as a state machine with concurrent transactions; its switches; its end; what readers see; its books over runs, exactly; and what becomes of objects otherwise |
| Numbers, Buffers, Codec, Layout, Checkpoint | little-endian fields; on-disk formats; device layout; the two-slot protocol |
| Crc, CrcVector, Md5, Md5Word, HexWord, Md5Vector, Md5x4 | polynomial division and table checksums, and their check values; RFC 1321, its word operations, and a message of its test suite operation by operation; the four-lane implementation |
| Gtid, Recency, Cache, Clock, Pool, Ingest | interval sets; the recency list and the cache that refines it; the trusted clock; global extent ids; the ingest job |

## What does not hold

The model follows the code where the code and its comments disagree. Each of the following is a
theorem with a concrete case, an exact condition, or both.

- A compaction switch is applied to the allocator, and what it empties is freed, before anybody knows
  whether it will commit; writers release, copy and take extents meanwhile, and they cannot see it. If the
  switch then fails, an object that nobody touched can end up in a free extent: because somebody deletes the
  object being switched, with which it shares a segment (`CompactionWindows.BystanderIsLost`,
  `CompactionLosses.BystanderRun`), or because somebody deletes another object of the same extent
  (`CompactionWindows.EmptiedByAnother`). If it commits, that last delete does no harm
  (`CompactionLosses.OneDeleteTwoOutcomes`), but a copy that was made of its object meanwhile can end up
  so (`CompactionWindows.CopyOfTheSwitched`). What others must observe depends on the outcome:
  `CompactionSafety.SafeIfFails` and `CompactionSafety.SafeIfCommits`. The books for an outcome stay right if
  and only if every step observes what that outcome asks for (`CompactionSafety.WindowIsSafeIff`,
  `CompactionSafety.RunIsSafeIff`). Whoever keeps away from the planned segments, and empties no extent from
  which the switch has taken bytes, observes both without looking (`CompactionQuiet.QuietWindowIsSafe`). And
  while an object lies in an extent that the switch has emptied, somebody may take the extent and overwrite
  it (`CompactionLosses.TakenIsOverwritten`).
- A compaction batch does not hold on to its target either. Copies count only from their own switch on, so
  once an object that was switched is deleted before the next switch, the target is freed, and the next
  switch commits onto a free extent (`CompactionLedgers.SecondSwitchOfTwoIsLost` is such a run). Where right
  books await the failure of a switch, its commit is right for ever and for everybody if and only if no
  extent with live bytes, the target for one, is free, the other parts of its guard hold, and the copies are
  right (`CompactionSafety.SwitchIsSafeIff`). Once somebody else has had the target, the copies may have been
  overwritten (`CompactionLosses.FreedTargetIsOverwritten`); what the object reads is right if and only if
  they have not (`CompactionReads.SwitchReadsIff`).
- Rollback claims to reverse a draft exactly. Beside other open transactions it leaves books that balance
  if and only if the transaction is undoable (`Interleavings.UndoIff`, and `InterleavingLimits.TidyUndoIff`
  in terms of segments). It can leave an object in a free extent
  (`InterleavingLimits.OverlappingDeletes`, `InterleavingLimits.EmptiedBeforeUndo`,
  `InterleavingLimits.AllocatedForAnother`), two owners in one extent (`InterleavingLimits.FreedBeforeOutcome`),
  a holder missing from the share table (`InterleavingLimits.TwoUndos`), and, as its comment admits, bytes
  counted that nobody holds (`InterleavingLimits.UndoneCopyLeaks`).
- On its own a rollback loses a holder when a draft both shares and releases a
  segment, except under the condition of `RollbackLimits.ShareAndReleaseExact`. A zero-length
  release on a free extent makes it allocate that extent (`RollbackLimits.ReleaseUndoneExactly`), and so
  does emptying an extent that was free (`LooseRollbacks.LooseRollbackRestores`). It
  restores neither generations, phases, isolation nor hints.
- Replay clears a live extent if a draft empties it and only then adds to it without having allocated it;
  `Replays.DraftReplayExact` is the exact condition, `Replays.ReuseInOneExtent` the smallest case. Drafts
  that add first are safe.
- The iteration in `compute_layout` need not converge. For a family of capacities, 8 KiB wide at each slot
  boundary, it ends on one extent more than the device holds (`Layouts.OscillationMeansNone`,
  `Layouts.DeviceWithoutFixedPoint`).
- A checkpoint slot is sized for 40 bytes of framing and needs 52, so that some layouts, which
  `compute_layout` accepts, cannot save at all (`Checkpoints.UnsavableLayouts`, `Checkpoints.UnsavableDevice`).
- `is_subset` answers yes as soon as it meets an empty epoch list that the other side lacks (`Gtids.WrongAnswer`).
- A packed extent header with a checksum table can be encoded but not decoded (`Codecs.HeaderRoundTrip`).
- The trusted mark sinks if the wall clock is behind it and the monotonic reading goes back by a second or
  more (`Clocks.RefreshLowersIff`).
- A pause that no visit of a running tick notices is overwritten when the tick ends (`Ingests.NoticedIff`,
  with three cases beside it).
- The objects of a bucket whose name contains NUL share their cache keys with objects of another bucket
  (`Caches.CollidesIff`).

## Model

| member | source | states |
|---|---|---|
| `Rollbacks.RollbackRestores` | crates/fs3-alloc/src/lib.rs:164-540 | For every draft built from any sequence of allocations (successful or not), in-flight notes, adds and shares on allocated extents, and releases, stale ones included: rollback, whether before the commit point or after it, restores live bytes, reference counts, both totals, every unpinned bit, and every share entry of a key that was not both shared and released, up to entries of value 1 |
| `LooseRollbacks.LooseRollbackRestores` | crates/fs3-alloc/src/lib.rs:164-540 | The same for drafts that also add and share on free extents and release segments of no length, as long as they allocate only extents without bytes and references: live bytes, reference counts, one-sided share entries and the total of allocations are restored; the bit of an unpinned extent if and only if the draft has not emptied the extent while it was free; the total of frees if and only if it has emptied no extent while that was free |
| `Rollbacks.DraftTracks` | crates/fs3-alloc/src/lib.rs:164-450 | What every call of a draft keeps: each extent stands where it stood plus what the undo lists record (modulo 2^32), and each one-sided share entry is determined by its undo counts |
| `Rollbacks.RollbackFrom` | crates/fs3-alloc/src/lib.rs:487-540 | From any tracked draft, before or after settling, the undo restores the ledger the draft began with |
| `Rollbacks.UnclearUndoesSettle` | crates/fs3-alloc/src/lib.rs:456-493 | Setting the cleared bits again undoes the commit point exactly, totals included, apart from phase and isolation |
| `Rollbacks.SettleAt` | crates/fs3-alloc/src/lib.rs:456-481 | The commit point frees exactly the emptied, unpinned extents that have no live bytes by then, isolates the pinned ones, and counts each freed bit once |
| `Rollbacks.UndoShareAt` | crates/fs3-alloc/src/lib.rs:513-531 | Closed form of the share undo of one key, in terms of the entry and the two counts |
| `RollbackLimits.ShareAndReleaseExact` | crates/fs3-alloc/src/lib.rs:349-531 | A legal draft that both shares and releases a segment, in any order and any number of times, is undone correctly there if and only if the holders before it are as many as its recorded releases, or exceed them by two or more |
| `RollbackLimits.ShareThenReleaseLosesAHolder` | crates/fs3-alloc/src/lib.rs:513-531 | Two holders, one share, one release, rollback: one holder is left |
| `RollbackLimits.ReleaseUndoneExactly` | crates/fs3-alloc/src/lib.rs:377-502 | Rolling back a single release leaves the bitmap as it was if and only if the release has bytes, or the extent is allocated, or other holders remain |
| `RollbackLimits.ZeroLengthReleaseTakesAFreeExtent` | crates/fs3-alloc/src/lib.rs:413-493 | Releasing a zero-length segment on a free extent and rolling back marks that extent allocated |
| `Runs.AccountingOverRuns` | crates/fs3-alloc/src/lib.rs:293-481 | Over every run of commits, aborts (before or after the commit point), pins, unpins and leak repairs: live bytes are the bytes of the distinct held segments, a share entry is the holder total and its absence means at most one holder, the reference count is the number of objects on the extent, and live bytes imply a set bit |
| `Runs.StepOk` | crates/fs3-alloc/src/lib.rs:293-481 | Every step of such a run keeps this accounting invariant |
| `Runs.ActAccounts` | crates/fs3-alloc/src/lib.rs:164-410 | So does every act inside a transaction, in-flight segments being counted once |
| `Runs.PutAccounts` | crates/fs3-alloc/src/lib.rs:293-339 | Adding an object, beside whatever other transactions have noted, keeps the ledger in step with the objects if and only if all its segments lie in allocated extents |
| `Runs.CopyAccounts` | crates/fs3-alloc/src/lib.rs:349-368 | A COW copy adds a holder to each of its segments and no bytes |
| `Runs.DeleteAccounts` | crates/fs3-alloc/src/lib.rs:377-450 | Releasing an object takes bytes off only for segments whose last holder it was |
| `Runs.CommitOk` | crates/fs3-alloc/src/lib.rs:456-481 | A commit keeps the invariant |
| `Runs.AbortIff` | crates/fs3-alloc/src/lib.rs:487-540 | After a failed transaction, rolled back before or behind its commit point, the invariant holds if and only if every segment that the draft both shared and released was held and is one that can be undone |
| `Runs.AbortOk` | crates/fs3-alloc/src/lib.rs:487-540 | Where it can, the rollback keeps the invariant |
| `Runs.EntriesFit` | crates/fs3-alloc/src/lib.rs:349-368 | No share entry exceeds the number of objects, so that 32-bit entries do not wrap with fewer than 2^32 of them |
| `Runs.UnpinOk` | crates/fs3-alloc/src/lib.rs:704-733 | Unpinning keeps the invariant, also where it frees an isolated extent |
| `Runs.PinCounts` | crates/fs3-alloc/src/lib.rs:696-702 | Pinning adds to each extent one pin for every mention of it, and to nothing else |
| `Runs.UnpinCounts` | crates/fs3-alloc/src/lib.rs:704-716 | Unpinning takes away one for every mention |
| `Runs.UnpinLegalIff` | crates/fs3-alloc/src/lib.rs:704-716 | It never underflows if and only if every extent has at least as many pins as it is mentioned |
| `Runs.RepairOk` | crates/fs3-alloc/src/lib.rs:825-837 | Freeing an extent that no object touches keeps the invariant |
| `Runs.RepairFrees` | crates/fs3-alloc/src/lib.rs:825-837 | It frees the extent unless that is pinned, counts it, changes no other, and the log record releases it if and only if it was freed |
| `Runs.NewStoreOk` | crates/fs3-alloc/src/lib.rs:109-126 | A new allocator satisfies the invariant |
| `Interleavings.InterleavedAccounting` | crates/fs3-alloc/src/lib.rs:164-540 | Over every interleaving of the acts, commit points, commits and rollbacks of any number of open transactions, pins and leak repairs, the notes of all of them counted, and however the run goes on after the accounting is lost: the accounting holds after every event if and only if every rollback is of a transaction that can be undone |
| `Interleavings.UndoIff` | crates/fs3-alloc/src/lib.rs:487-540 | The accounting survives a rollback beside other transactions if and only if: on each extent what is held and what the transaction has taken off agree with what would be held and what it has counted; nothing would lie in an extent that it allocated, or that is free without its having emptied it; the share table, with its shares and releases taken back, counts the holders; and the counters have room |
| `InterleavingLimits.TidyUndoIff` | crates/fs3-alloc/src/lib.rs:487-540 | The same where nobody else holds what the transaction has put and nobody has put again what it released for good: each extent allows it, its bytes that were released and are held by nobody any more being as many as those held only by its copies, and the share table counts the holders |
| `Interleavings.EventKeeps` | crates/fs3-alloc/src/lib.rs:164-540 | Each event, a rollback after which the accounting holds included, keeps the accounting and the record that every open draft has of its own doings |
| `Interleavings.FormedKeeps` | crates/fs3-alloc/src/lib.rs:164-540 | Each event, whatever it does to the accounting, leaves ledger, objects and open drafts well formed, so that the run can go on |
| `Interleavings.QuietIsStore` | crates/fs3-alloc/src/lib.rs:293-481 | Once nothing is noted, the interleaved run has arrived at a state of the kind that runs of single transactions start from |
| `InterleavingLimits.OverlappingDeletes` | crates/fs3-alloc/src/lib.rs:377-540 | Two objects share a segment, their deletes overlap, the second commits and the first is undone: its object lies in a free extent |
| `InterleavingLimits.EmptiedBeforeUndo` | crates/fs3-alloc/src/lib.rs:377-540 | The same for two objects of one extent that share nothing |
| `InterleavingLimits.AllocatedForAnother` | crates/fs3-alloc/src/lib.rs:164-502 | Another transaction's data in an extent that is given back by a rollback lies in a free extent |
| `InterleavingLimits.RightAgain` | crates/fs3-alloc/src/lib.rs:164-502 | The same run, after which the other transaction is rolled back as well: the accounting, which did not hold in between, holds again |
| `InterleavingLimits.TwoUndos` | crates/fs3-alloc/src/lib.rs:511-532 | A copy and a delete of a shared segment, both undone, leave one of its two holders in the table |
| `InterleavingLimits.UndoneCopyLeaks` | crates/fs3-alloc/src/lib.rs:346-531 | A copy whose original is deleted by another transaction and which is then rolled back leaves bytes counted that nobody holds, on an extent that stays allocated |
| `InterleavingLimits.FreedBeforeOutcome` | crates/fs3-alloc/src/lib.rs:456-502 | The only data of an extent is released, the commit point passes, another transaction takes the extent, the commit fails: after the rollback the bytes of both are counted there |
| `Undoing.BalancedIff` | crates/fs3-alloc/src/lib.rs:487-540 | What a rollback makes of a ledger that others have changed, and exactly when that accounts for a list of objects |
| `Holdings.BytesRemove` | crates/fs3-alloc/src/lib.rs:615-618 | The bytes of a set of segments count each distinct segment once, whichever is taken first |
| `Holdings.NoBytesNoKey` | crates/fs3-alloc/src/lib.rs:435-450 | An extent has no held bytes if and only if no held segment lies on it |
| `Rebuilds.RebuildAgrees` | crates/fs3-alloc/src/lib.rs:621-656 | In every state that satisfies the invariant, the derived state recomputed from the live objects is the incremental one, except for phases, which are all Sealed then, and dropped share entries of value 1 |
| `Rebuilds.RebuiltRunsAlike` | crates/fs3-alloc/src/lib.rs:293-656 | Over any run of commits, aborts, pins, unpins and leak repairs after a rebuild: the rebuilt ledger and the one in memory go on differing only in phases and in share entries of value 1, and every step is legal on both, if and only if every abort can be undone on both |
| `Rebuilds.TwinAbortIff` | crates/fs3-alloc/src/lib.rs:487-540 | A failed transaction that is undone on one of two such ledgers leaves them alike if and only if every segment that it both shares and releases can be undone on the other |
| `Rebuilds.PlainRuns` | crates/fs3-alloc/src/lib.rs:487-540 | Transactions that do not both share and release a segment are undone on both |
| `Rebuilds.TwinStep` | crates/fs3-alloc/src/lib.rs:293-540 | One step on two such ledgers, an abort if it can be undone on both |
| `Rebuilds.RebuiltBehavesTheSame` | crates/fs3-alloc/src/lib.rs:293-481 | Within one transaction, call by call: legal on the rebuilt ledger too, the same log record, the same extents emptied, and a commit to states that differ in the same way |
| `Rebuilds.TwinCalls` | crates/fs3-alloc/src/lib.rs:293-450 | Any sequence of calls keeps two ledgers that differ only so in step |
| `Replays.ReplayRefinesMemory` | crates/fs3-alloc/src/lib.rs:456-656 | For any run of commits that add before they release, aborts and leak repairs with nothing pinned: replaying the records over the checkpoint gives a superset of the bitmap in memory, every extra bit is reported as a leak, and after rebuilding, healing changes nothing |
| `Replays.DraftReplayExact` | crates/fs3-alloc/src/lib.rs:456-594 | For one transaction in any order, replay covers memory if and only if no extent that it emptied and did not itself allocate has live bytes at the commit point |
| `Replays.ReuseInOneExtent` | crates/fs3-alloc/src/lib.rs:413-594 | Such a transaction is legal: in a store of one extent and one object, delete it and put another; memory keeps the extent, replay frees it |
| `Replays.ReuseIsLost` | crates/fs3-alloc/src/lib.rs:413-594 | The same wherever the last object of an extent is deleted before a put there |
| `Replays.CommitCovered` | crates/fs3-alloc/src/lib.rs:456-594 | The record of a transaction that adds first, applied to any superset of the bitmap, gives a superset of the bitmap after the commit |
| `Replays.ApplyRecordBit` | crates/fs3-alloc/src/lib.rs:556-594 | One record, one extent: set if handed out, cleared if released and not retained by the same record |
| `Replays.ApplyRecordExtent` | crates/fs3-alloc/src/lib.rs:556-594 | Bit, generation, references, live bytes and phase of any extent after one record: an allocation of a clear one raises its generation by one and gives it one reference, repeated mentions raise references, a release leaves nothing |
| `Replays.ApplyRecordTotals` | crates/fs3-alloc/src/lib.rs:556-594 | The totals move with the number of set bits |
| `Replays.Recover` | crates/fs3-alloc/src/lib.rs:556-594 | Recovery step by step over a run, with cover as its postcondition |
| `Replays.LeaksAre` | crates/fs3-alloc/src/lib.rs:799-803 | The reported extents are exactly the allocated ones that nothing reaches |
| `Replays.HealNothing` | crates/fs3-alloc/src/lib.rs:808-818 | Healing is the identity when live bytes imply set bits |
| `Replays.HealSets` | crates/fs3-alloc/src/lib.rs:808-818 | Otherwise it sets the bit of every extent with live bytes, leaves all others as they are and counts what it sets |
| `Replays.CoveredRecovery` | crates/fs3-alloc/src/lib.rs:621-818 | On any superset of the bitmap the extra bits are leaks, rebuilt live bytes equal those in memory, and healing finds nothing |
| `Pinning.PinnedExtentIsStable` | crates/fs3-alloc/src/lib.rs:164-237 | With any number of drafts, which may add to extents whose bit is clear, interleaved with commits, rollbacks, leak repairs and other pins: an allocated extent that no open draft allocated keeps its bit and its generation as long as it is pinned, and stays isolated once it is |
| `Pinning.ReaderIsSafe` | crates/fs3-alloc/src/lib.rs:164-237 | What a reader is promised: it pins an allocated extent; then, over any interleaving in which the others give back only pins that they have taken, the extent stays allocated and is not handed out again |
| `Pinning.PinHolds` | crates/fs3-alloc/src/lib.rs:696-702 | A pin on an allocated extent, whose allocation no open draft could undo, holds it from then on |
| `Pinning.StaysPinned` | crates/fs3-alloc/src/lib.rs:696-733 | While the others give back only what they have pinned, before or since, the extent stays pinned |
| `Pinning.EventPins` | crates/fs3-alloc/src/lib.rs:164-237 | No event but pins and unpins changes the number of pins |
| `Pinning.EventKeepsHeld` | crates/fs3-alloc/src/lib.rs:696-737 | What each event does to a held extent: nothing |
| `Pinning.CommitIsolates` | crates/fs3-alloc/src/lib.rs:456-481 | A commit point that finds a pinned extent empty isolates it |
| `Pinning.LastUnpinFrees` | crates/fs3-alloc/src/lib.rs:704-733 | The last unpin frees the extent if and only if it is isolated and has no live bytes, with no references, phase Free and one more in the total |
| `Pinning.DiesWhilePinned` | crates/fs3-alloc/src/lib.rs:456-733 | Data that died and whose release was committed while pinned is freed by the last unpin, after any events in between |
| `Pinning.EventFrees` | crates/fs3-alloc/src/lib.rs:164-733 | Over every interleaving, an extent whose bit an event clears is Free afterwards, and no other phase changes |
| `Pinning.TakenAnew` | crates/fs3-alloc/src/lib.rs:164-237 | Each time that an extent is handed out its generation rises by one |
| `Bitmaps.ScanWords` | crates/fs3-alloc/src/bitmap.rs:80-113 | The scan is complete for every hint and every partial last word: it fails only if all bits are set, and otherwise finds the first clear bit in scan order |
| `Bitmaps.ScanWindow` | crates/fs3-alloc/src/bitmap.rs:116-166 | The same inside any window, unaligned at either end |
| `Bitmaps.Bitmap.SetBit` | crates/fs3-alloc/src/bitmap.rs:32-52 | Changes one bit; reports whether it changed |
| `Bitmaps.Bitmap.ClearBit` | crates/fs3-alloc/src/bitmap.rs:54-73 | Changes one bit; reports whether it changed |
| `Bitmaps.Bitmap.Test` | crates/fs3-alloc/src/bitmap.rs:75-78 | Reads one bit |
| `Bitmaps.Bitmap.AllocOne` | crates/fs3-alloc/src/bitmap.rs:80-113 | Sets exactly one clear bit, the first in scan order, and moves the hint behind it; fails exactly when none is clear |
| `Bitmaps.Bitmap.AllocOneInRange` | crates/fs3-alloc/src/bitmap.rs:116-166 | Sets exactly one clear bit of the window, the first in scan order, and moves the hint behind it; fails exactly when the window is full |
| `Bitmaps.Bitmap.Serialize` | crates/fs3-alloc/src/bitmap.rs:169-184 | Bit i becomes bit i mod 8 of byte i div 8 |
| `Bitmaps.Bitmap.SerializeRange` | crates/fs3-alloc/src/bitmap.rs:188-213 | A window becomes a bitmap of its own, zero-padded, at any alignment |
| `Bitmaps.Bitmap.LoadRange` | crates/fs3-alloc/src/bitmap.rs:230-242 | Adds the set bits at any offset and clears none |
| `Bitmaps.Bitmap.Load` | crates/fs3-alloc/src/bitmap.rs:245-261 | Replaces every bit by the serialised one |
| `BitmapRaces.NeverHandedOutTwice` | crates/fs3-alloc/src/bitmap.rs:32-166 | Over every interleaving of loads and compare-exchanges of any number of threads, handing out from the whole bitmap or from any window, setting and clearing: between two hand-outs of an id there is a clear of it |
| `BitmapRaces.RunExplained` | crates/fs3-alloc/src/bitmap.rs:32-166 | Every bit is always what the trace of successful exchanges explains, and every recorded change was one |
| `BitmapRaces.TargetIsLowest` | crates/fs3-alloc/src/bitmap.rs:32-166 | A thread gives up if and only if the word that it loaded has no bit for it, and goes for the lowest such bit otherwise |
| `Pools.RestoreFromWindows` | crates/fs3-alloc/src/bitmap.rs:188-242 | Serialising each device window and loading it at its base into an empty bitmap rebuilds the exact bitmap |
| `Allocation.CompressRanges` | crates/fs3-alloc/src/lib.rs:910-922 | The ranges list exactly the ids, ascending and once each |
| `Allocation.RangesExpand` | crates/fs3-alloc/src/lib.rs:910-922 | Expanding the ranges gives the sorted ids |
| `Allocation.AscendingSorts` | crates/fs3-alloc/src/lib.rs:912-914 | Sorting and removing duplicates: increasing, same elements, a permutation if there were no duplicates |
| `Allocation.ExhaustedAvailable` | crates/fs3-alloc/src/lib.rs:164-201 | When the bitmap is full, the extents taken are all that were available |
| `Allocators.Allocator.constructor` | crates/fs3-alloc/src/lib.rs:109-126 | An empty ledger of n extents |
| `Allocators.Allocator.Allocate` | crates/fs3-alloc/src/lib.rs:164-201 | Terminates; returns exactly count distinct ids that were clear and unpinned, recorded in the draft, or NoSpace if and only if fewer exist, with the draft unchanged |
| `Allocators.Allocator.AllocateInRange` | crates/fs3-alloc/src/lib.rs:205-237 | One extent of the window, or none exactly when every extent there is set or pinned |
| `Allocators.Allocator.NoteInflightSegment` | crates/fs3-alloc/src/lib.rs:334-339 | Moves ledger and draft as the step does about which Rollbacks and Runs reason |
| `Allocators.Allocator.AddObject` | crates/fs3-alloc/src/lib.rs:293-324 | Moves ledger and draft as that step does |
| `Allocators.Allocator.ShareObject` | crates/fs3-alloc/src/lib.rs:349-368 | Moves ledger and draft as that step does |
| `Allocators.Allocator.ReleaseObject` | crates/fs3-alloc/src/lib.rs:377-410 | Moves ledger and draft as that step does |
| `Allocators.Allocator.DecrementLive` | crates/fs3-alloc/src/lib.rs:413-450 | Does nothing when fewer bytes are recorded; otherwise moves ledger and draft as that step does |
| `Allocators.Allocator.ToAllocDraft` | crates/fs3-alloc/src/lib.rs:456-481 | Settles the emptied extents and returns the log record |
| `Allocators.Allocator.Rollback` | crates/fs3-alloc/src/lib.rs:487-540 | Performs the undo that Rollbacks.RollbackRestores proves exact |
| `Allocators.Allocator.UndoShares` | crates/fs3-alloc/src/lib.rs:511-532 | The share undo, key by key |
| `Allocators.Allocator.Pin` | crates/fs3-alloc/src/lib.rs:696-702 | Pins every existing extent that is named, as `Runs.PinCounts` counts |
| `Allocators.Allocator.Unpin` | crates/fs3-alloc/src/lib.rs:704-733 | Removes pins; the last one may free an isolated extent |
| `Allocators.Allocator.ApplyRecord` | crates/fs3-alloc/src/lib.rs:556-594 | Replays a record as the step does about which Replays reasons |
| `Allocators.Allocator.RebuildDerived` | crates/fs3-alloc/src/lib.rs:621-656 | Live bytes, reference counts and share entries become those of the given objects, counted from scratch |
| `Allocators.Allocator.FindLeaks` | crates/fs3-alloc/src/lib.rs:799-803 | Returns the allocated extents that are not reachable |
| `Allocators.Allocator.HealBitmap` | crates/fs3-alloc/src/lib.rs:808-818 | Sets the bit of every extent with live bytes and counts what it changed |
| `Allocators.Allocator.FreeLeaked` | crates/fs3-alloc/src/lib.rs:825-837 | Frees an allocated unpinned extent and records it; answers whether it did |
| `CompactionSafety.RunIsSafeIff` | crates/fs3-engine/src/compaction.rs:393-563 | Over every run of a batch and of others, each switch judged by the outcome that the run gives it: after every step the books are right for that outcome (the ledger that a failure leaves accounts for the objects, or the ledger as it is accounts for the objects that the commit leaves) if and only if every step is safe for it |
| `CompactionSafety.WindowIsSafeIff` | crates/fs3-engine/src/compaction.rs:477-534 | While a switch is open, for each outcome by itself: the books for it stay right throughout if and only if every step is safe for it. For a failure a delete or copy must be clean, a put keep out of what the switch has allocated, an unpin free nothing that it gives back; for a commit whoever deletes or copies must leave each segment a holder for afterwards, and a put keep apart from the copies |
| `CompactionSafety.CloseBooks` | crates/fs3-engine/src/compaction.rs:504-534 | When the switch closes, the books become right if and only if they were right for the outcome that it then has |
| `CompactionReads.MeaningIsPreserved` | crates/fs3-engine/src/compaction.rs:393-563 | Over every interleaving of copy chunks, copy failures, opening, committing and failing switches, deletes, COW copies, writes, pins and unpins, whatever they do to the books: an object that nobody deletes reads the same bytes, data and restored copy, unless a writer takes an extent under it, or it is switched onto a target that has been lost and whose copies are not right any more |
| `CompactionReads.StepReads` | crates/fs3-engine/src/compaction.rs:393-563 | The same for a single step, and the copies made of the object stay right |
| `CompactionReads.WindowReads` | crates/fs3-engine/src/compaction.rs:477-512 | While a switch is open, writers may even take the extents that it has emptied from under its object: if it commits onto the batch's own target, the object reads the same afterwards |
| `CompactionReads.CopyFaithful` | crates/fs3-engine/src/compaction.rs:12-18 | A copy that somebody makes meanwhile is protected like the objects whose segments it shares |
| `CompactionReads.WrittenFaithful` | crates/fs3-engine/src/compaction.rs:12-18 | An object that somebody writes meanwhile is protected as well, even if it lays down a planned segment again, with the bytes that were copied |
| `CompactionSafety.StepBooks` | crates/fs3-engine/src/compaction.rs:393-563 | The same for a single step and a given outcome |
| `CompactionSafety.SwitchIsSafeIff` | crates/fs3-engine/src/compaction.rs:477-534 | A commit leaves right books in every safe continuation, and every object as it read in every continuation that minds it, if and only if its guard holds and the copies have the bytes of what they replace; as long as nobody but the batch refers to the target and right books would await a failure |
| `CompactionSafety.BatchEnds` | crates/fs3-engine/src/compaction.rs:393-563 | How a batch ends, whatever others did: the copies are sector-aligned, disjoint and inside the target, and if the target was its own throughout, something was switched to it, the copies carry the grid checksums of their bytes and are the only segments there that anyone refers to; if every step was safe for the outcome of its switch, the books are right, a free target is referred to by nobody and every object lies in allocated extents; objects that every step minded read the same |
| `CompactionSafety.OursOpens` | crates/fs3-engine/src/compaction.rs:477-502 | While the target is the batch's, the opening of a switch that will commit asks only that all planned segments are held |
| `CompactionSwitches.StepKeeps` | crates/fs3-engine/src/compaction.rs:393-563 | No step, of the batch or of others, takes the shape of a batch away, whatever it does to the books: plan and copies, checksums, phases, the open draft, and what holds of the target while it is the batch's |
| `CompactionSwitches.OursKeepsRange` | crates/fs3-engine/src/compaction.rs:477-512 | No step, and while the target is the batch's no commit either, leaves the range of extents and objects |
| `CompactionProgress.BatchTerminates` | crates/fs3-engine/src/compaction.rs:393-563 | Over any run, with anything that others do in between, a batch takes no more steps of its own than a number that its plan determines at the start, so that it ends |
| `CompactionProgress.OwnProgress` | crates/fs3-engine/src/compaction.rs:393-563 | Every own step, chunk, passed item, switch and failure alike, leaves less to copy or to switch |
| `CompactionProgress.OthersLeave` | crates/fs3-engine/src/compaction.rs:393-563 | What others do gives it neither more nor less to do |
| `CompactionProgress.SwitchedIffCopied` | crates/fs3-engine/src/compaction.rs:393-563 | Over any run, the item whose turn has come is switched if and only if all its planned segments have been copied |
| `CompactionSafety.FreshIsOk` | crates/fs3-engine/src/compaction.rs:396-418 | A batch starts in this shape, with nothing copied wrong |
| `CompactionSafety.TargetOutsidePlan` | crates/fs3-engine/src/compaction.rs:396-413 | A target extent outside the plan can never be mistaken for a planned segment |
| `CompactionQuiet.QuietWindowIsSafe` | crates/fs3-engine/src/compaction.rs:477-534 | While a switch is open, any run of transactions that neither release nor share nor lay down a planned segment, empty no extent from which the switch has taken bytes and take no extent under an object is safe for both outcomes, keeps right books ready for both, and keeps the commit possible |
| `CompactionQuiet.OpenIsReady` | crates/fs3-engine/src/compaction.rs:477-502 | A switch whose object is whole and whose target is the batch's starts out like that |
| `CompactionSwitches.OpenKeeps` | crates/fs3-engine/src/compaction.rs:477-502 | Opening a switch keeps the shape, whatever has become of its object and target |
| `CompactionSwitches.FailKeeps` | crates/fs3-engine/src/compaction.rs:513-531 | So does its failure, which leaves the ledger that the books announced; the first failure gives the target back and ends the batch |
| `CompactionSwitches.CommitKeeps` | crates/fs3-engine/src/compaction.rs:504-512 | So does a commit, as long as no object comes to list a segment twice |
| `CompactionSwitches.CommitExchanges` | crates/fs3-engine/src/compaction.rs:504-512 | In the allocator's terms a commit exchanges the planned segments for the copies, segment by segment |
| `CompactionSwitches.CommitsIff` | crates/fs3-engine/src/compaction.rs:504-531 | An attempted item commits on an object if and only if the object lists all its planned segments |
| `CompactionSafety.GuardIff` | crates/fs3-engine/src/compaction.rs:504-512 | Where right books await the failure of a switch, they await its commit too if and only if its guard holds |
| `CompactionSwitches.FinishKeeps` | crates/fs3-engine/src/compaction.rs:537-543 | Giving the target back when nothing was switched keeps the shape |
| `CompactionWindows.DeleteIff` | crates/fs3-alloc/src/lib.rs:377-481 | Beside an open draft that can be undone, a delete leaves it so if and only if: it releases for good no segment whose entry the draft has removed; what it takes off each extent are the bytes of the segments that nobody else holds; and where those are all bytes of an allocated, unpinned extent, nothing else is held there, or the draft had emptied it |
| `CompactionWindows.CopyIff` | crates/fs3-alloc/src/lib.rs:349-368 | A copy does if and only if it names no segment whose entry the draft has removed |
| `CompactionWindows.PutBeside` | crates/fs3-alloc/src/lib.rs:293-324 | New data does, as long as it keeps out of the extents that the draft has allocated |
| `CompactionWindows.BitsIff` | crates/fs3-alloc/src/lib.rs:704-733 | Freeing extents does if and only if the draft needs none of them |
| `CompactionOutcomes.DeleteAhead` | crates/fs3-alloc/src/lib.rs:377-481 | Beside a switch that will commit, a delete leaves the ledger right for the time after it if and only if each segment of the object will have a holder then |
| `CompactionOutcomes.CopyAhead` | crates/fs3-alloc/src/lib.rs:349-368 | So does a copy under the same condition |
| `CompactionOutcomes.PutAhead` | crates/fs3-alloc/src/lib.rs:293-324 | New data does if and only if its segments are none of the copies and the counters have room beside what the switch leaves |
| `CompactionOutcomes.OpenAhead` | crates/fs3-engine/src/compaction.rs:477-502 | A switch that will commit is opened with right books if and only if each planned segment is held, no copy is, and the copies lie in allocated extents |
| `CompactionOutcomes.CommitExactly` | crates/fs3-engine/src/compaction.rs:504-512 | A commit accounts for the new object list if and only if the ledger was right for it before |
| `CompactionOutcomes.CommitIff` | crates/fs3-engine/src/compaction.rs:486-512 | Where the draft of a switch can be undone, its commit is right too if and only if: what it has taken from each extent are the bytes of the planned segments that only its object holds, nobody has shared one that it released unshared, and no extent with live bytes is free |
| `CompactionWindows.BystanderIsLost` | crates/fs3-engine/src/compaction.rs:486-520 | Two objects share a segment; the switch of the first is open, somebody deletes the first, the switch fails: the segment has one holder, no bytes, and lies in a free extent that the next allocation may take |
| `CompactionWindows.EmptiedByAnother` | crates/fs3-engine/src/compaction.rs:486-520 | Two objects of one extent share nothing; the switch of the first is open, somebody deletes the second, the switch fails: the bytes of the first are counted in a free extent |
| `CompactionWindows.CopyOfTheSwitched` | crates/fs3-engine/src/compaction.rs:486-512 | Somebody copies an object whose switch is open: the entry counts two holders of a segment without bytes in a free extent |
| `CompactionLosses.BystanderRun` | crates/fs3-engine/src/compaction.rs:477-531 | The first of these runs as steps of a batch: opening, a delete that is not safe, a failing close; an object that nobody touched is left in a free extent |
| `CompactionLosses.OneDeleteTwoOutcomes` | crates/fs3-engine/src/compaction.rs:477-534 | Two objects are alone in one extent, and while the switch of the first is open somebody deletes the second: if the switch commits, the books are right; if it fails, the first object lies in a free extent. The delete is safe for one outcome and not for the other |
| `CompactionLosses.DeleteThenCommit` | crates/fs3-engine/src/compaction.rs:477-512 | Whatever other object somebody deletes beside a switch onto the batch's own target, and whatever that empties: a commit leaves right books |
| `CompactionLosses.FreeStaysFree` | crates/fs3-engine/src/compaction.rs:513-531 | Whatever lies in a free extent, which the switch had not emptied itself, is lost when the switch fails |
| `CompactionLosses.TakenIsOverwritten` | crates/fs3-engine/src/compaction.rs:486-502 | While something of an object lies in a free extent there is a write of somebody else after which the object reads other bytes |
| `CompactionLosses.FreedTargetIsOverwritten` | crates/fs3-engine/src/compaction.rs:477-534 | After the target is freed there is a continuation of three steps, a write of somebody else, the opening and the commit of the next switch, in which the switched object reads other bytes though nobody touched it |
| `CompactionLosses.OntoFreeTarget` | crates/fs3-engine/src/compaction.rs:486-512 | A commit onto a free target leaves its object in an extent whose bit is clear |
| `CompactionReads.SwitchReadsIff` | crates/fs3-engine/src/compaction.rs:504-512 | Whoever has the target by then: the object reads the same after a commit if and only if the copies have the bytes of the segments that they replace |
| `CompactionLedgers.SecondSwitchIsLost` | crates/fs3-engine/src/compaction.rs:486-497 | Two objects are copied to one target, the first is switched and deleted, the second is switched: the target's bit is clear, the second's bytes are counted there, and the next allocation may take it |
| `CompactionLedgers.SecondSwitchOfTwoIsLost` | crates/fs3-engine/src/compaction.rs:486-497 | The same with two objects of 4096 bytes |
| `CompactionLedgers.SwitchIsUndone` | crates/fs3-engine/src/compaction.rs:513-531 | A switch that fails at once, before anybody else does anything, gives back every live byte, reference count and share entry, and every bit but that of the allocation it carried, even if its target has been freed |
| `CompactionOutcomes.SwitchAccounts` | crates/fs3-engine/src/compaction.rs:486-497 | One that commits at once keeps the space accounting: the copies are counted, the replaced segments are not, the rest of the object is left alone |
| `CompactionLedgers.SwitchOntoFreeExtent` | crates/fs3-engine/src/compaction.rs:486-497 | Whatever else it does, a switch with a copy on a free extent leaves that bit clear with live bytes on it |
| `Migrations.RemapReads` | crates/fs3-meta/src/lib.rs:6734-6792 | Replacing segments by copies with their bytes does not change what the object reads |
| `Migrations.MigrateReplaces` | crates/fs3-meta/src/lib.rs:6734-6792 | A migration that passes its check takes exactly the planned segments out of the object and puts the copies in, in the allocator's terms |
| `Migrations.Planned` | crates/fs3-meta/src/lib.rs:6734-6792 | The check by counting passes only if every planned segment is in the object, once, and does pass then |
| `Migrations.PassesIff` | crates/fs3-meta/src/lib.rs:6734-6792 | On an object that lists no segment twice the check passes if and only if there is a copy for every planned segment, none is planned twice, and the object lists them all, whatever else it lists |
| `Migrations.MigratesInPlace` | crates/fs3-meta/src/lib.rs:6734-6792 | What passes has its planned segments replaced, each by its own copy and in its place, and the others left where they are |
| `CompactionRuns.ChunkKeeps` | crates/fs3-engine/src/compaction.rs:588-626 | Copying a chunk keeps the shape of the batch: the checksums collected so far are those of what was laid down, and a finished copy carries those of its bytes |
| `CompactionReads.ChunkFaithful` | crates/fs3-engine/src/compaction.rs:588-626 | And it keeps the copies right: a right prefix of the current segment grows, and nothing that is referred to changes |
| `CompactionRuns.RunChunk` | crates/fs3-engine/src/compaction.rs:588-626 | The batch's chunk step is what the copy loop does: the same bytes on disk, the same checksum appended |
| `CompactionRuns.PutKeeps` | crates/fs3-engine/src/compaction.rs:12-18 | A concurrent write keeps the shape, while a switch is open too, and into a target that was freed |
| `CompactionRuns.DeleteKeeps` | crates/fs3-engine/src/compaction.rs:12-18 | So does a concurrent delete, which may free the target |
| `Compactions.DataAreas.CopySegment` | crates/fs3-engine/src/compaction.rs:567-651 | The copy lies at the watermark with zeros to the sector end, its checksums are those of the 64 KiB grid from its start, the watermark moves by the packed span, and nothing else changes |
| `Compactions.DataAreas.CopyChunk` | crates/fs3-engine/src/compaction.rs:588-626 | One chunk: data and padding written, checksum continued from the seed |
| `Compactions.GridCovers` | crates/fs3-engine/src/compaction.rs:588-626 | Checksum i of the grid is that of the bytes from 65536 * i to 65536 * (i + 1) or the end |
| `Compactions.GridCount` | crates/fs3-engine/src/compaction.rs:588-626 | There is one for every 65536 bytes begun |
| `Compactions.Span` | crates/fs3-engine/src/compaction.rs:673-675 | The least multiple of 4096 not below the length |
| `Rebalances.RebalancePlan` | crates/fs3-engine/src/compaction.rs:221-241 | No plan if and only if there are fewer than two devices or all usages are within a tenth; otherwise the target is the first device of least usage, and the sources are, in order, exactly those at or above the middle between least and greatest, the target not among them |
| `Rebalances.Extremes` | crates/fs3-engine/src/compaction.rs:227-228 | Greatest and least usage |
| `Rebalances.LeastUsed` | crates/fs3-engine/src/compaction.rs:235-239 | The first device of least usage |
| `Rebalances.AtLeast` | crates/fs3-engine/src/compaction.rs:234 | The devices at or above the middle, in order |
| `Checkpoints.NothingOlder` | crates/fs3-alloc/src/checkpointer.rs:62-111 | Over any run of saves, refused saves, and crashes that leave the old, the new or no readable slot: after a completed save, loading returns its data or that of a later attempt, and no completed save is newer than what it returns |
| `Checkpoints.NothingLost` | crates/fs3-alloc/src/checkpointer.rs:62-111 | Some checkpoint can always be loaded, the one before the run or the data of an attempt of it |
| `Checkpoints.GenerationsIncrease` | crates/fs3-alloc/src/checkpointer.rs:82-111 | A completed save has a smaller generation than every later attempt, and generations grow by at most one a step |
| `Checkpoints.StepKeepsLatest` | crates/fs3-alloc/src/checkpointer.rs:82-111 | Two readable slots never share a generation; after a completed save, loading returns its position, totals and bitmap under the next generation; an interrupted one shows whole or not at all |
| `Checkpoints.OneStep` | crates/fs3-alloc/src/checkpointer.rs:82-111 | The attempted checkpoint is the one given, under the newest generation plus one |
| `Checkpoints.RunStaysGood` | crates/fs3-alloc/src/checkpointer.rs:62-111 | The slot invariant holds at every point of a run |
| `Checkpoints.SaveRefines` | crates/fs3-alloc/src/checkpointer.rs:82-111 | Writing the bytes of a save is, seen through decoding, a step of the slot protocol |
| `Checkpoints.CrashRefines` | crates/fs3-alloc/src/checkpointer.rs:82-111 | So is a write that was cut short |
| `Checkpoints.Device.Save` | crates/fs3-alloc/src/checkpointer.rs:82-111 | Returns the next generation, overwrites exactly one slot and then loads what was given, position, totals and bitmap; or refuses and writes nothing |
| `Checkpoints.Device.LoadLatest` | crates/fs3-alloc/src/checkpointer.rs:62-77 | Returns the readable slot of greatest generation |
| `Checkpoints.Device.Newer` | crates/fs3-alloc/src/checkpointer.rs:65-76 | The choice between two slots |
| `Checkpoints.Device.Choose` | crates/fs3-alloc/src/checkpointer.rs:85-98 | Generation and slot of the next save |
| `Checkpoints.Device.Format` | crates/fs3-device/src/superblock.rs:78-101 | Whatever the device held, afterwards one slot reads as a checkpoint of generation 1 with all bits clear and the other not at all; refuses exactly when the bitmap does not fit |
| `Checkpoints.UnsavableLayouts` | crates/fs3-core/src/types.rs:2580-2586 | No checkpoint of a layout can be saved if and only if its bitmap bytes modulo 4096 are in 4045..4056 |
| `Checkpoints.UnsavableDevice` | crates/fs3-core/src/types.rs:2381-2429 | For each extent count of that kind and each extent size there is a capacity whose layout compute_layout accepts and no checkpoint fits |
| `Checkpoints.DeviceWithoutCheckpoints` | crates/fs3-core/src/types.rs:2397-2413 | The smallest: 32353 extents of 1 MiB need 4097 bytes in a slot of 4096 |
| `Layouts.ComputeLayout` | crates/fs3-core/src/types.rs:2381-2429 | Regions in order with data inside the device; the extent count is the fixed point if there is one; otherwise one more than fits, with the exact family of capacities; each error if and only if its condition holds, the count being refused exactly outside the capacities from one extent to 2^24 |
| `Layouts.HoldsIff` | crates/fs3-core/src/types.rs:2397-2420 | A permitted count is reached exactly for the capacities between the smallest device with one extent and the largest with 2^24 |
| `Layouts.NoOtherGaps` | crates/fs3-core/src/types.rs:2397-2413 | Every capacity in between has a fixed point or lies in one of the 8 KiB gaps |
| `Layouts.DeviceFor` | crates/fs3-core/src/types.rs:2397-2413 | Every permitted count is the fixed point of some device |
| `Layouts.SettleCount` | crates/fs3-core/src/types.rs:2397-2413 | Four passes reach the fixed point, or end on the upper of two counts that lead to each other |
| `Layouts.NoFixedPointMeansNone` | crates/fs3-core/src/types.rs:2397-2413 | For a capacity of that family no count is a fixed point |
| `Layouts.OscillationMeansNone` | crates/fs3-core/src/types.rs:2397-2413 | Two counts that lead to each other occur only for that family |
| `Layouts.FixedPointFits` | crates/fs3-core/src/types.rs:2397-2413 | A count is a fixed point if and only if so many extents fit behind its slots and one more does not |
| `Layouts.FixedPointIsUnique` | crates/fs3-core/src/types.rs:2397-2413 | There is at most one |
| `Layouts.LastExtentSticksOut` | crates/fs3-core/src/types.rs:2397-2429 | Without one, exactly the last extent of the layout ends behind the device |
| `Layouts.DeviceWithoutFixedPoint` | crates/fs3-core/src/types.rs:2397-2413 | A device of 31.7 GiB with extents of 1 MiB is such a case |
| `Layouts.CheckpointFitsSlot` | crates/fs3-core/src/types.rs:2400 | A checkpoint fits its slot if and only if the bitmap bytes modulo 4096 are outside 4045..4056 |
| `Layouts.AlignUpRounds` | crates/fs3-core/src/types.rs:2441-2444 | For powers of two the mask computes the least multiple at or above, as long as the sum fits the word |
| `Layouts.SectorAlign` | crates/fs3-core/src/types.rs:2441-2444 | The same in closed form for sectors |
| `Codecs.SuperBlockRoundTrip` | crates/fs3-core/src/types.rs:2250-2365 | A version 3 superblock decodes to itself, or to the fault that validation finds |
| `Codecs.OldSuperBlockReads` | crates/fs3-core/src/types.rs:2286-2307 | A version 2 image with its shorter checksum decodes to itself, without metadata fields |
| `Codecs.ValidIff` | crates/fs3-core/src/types.rs:2336-2365 | A superblock is accepted if and only if its extent size is a multiple of 4096 between 1 and 16 MiB, its checkpoints lie behind the reserved region and before the data, and there is room for an extent; otherwise the first fault in that order is reported |
| `Codecs.ComputedIsValid` | crates/fs3-core/src/types.rs:2336-2429 | Every layout that compute_layout gives is accepted |
| `Codecs.SuperBlockDecodes` | crates/fs3-core/src/types.rs:2271-2334 | Any buffer that carries the fields and a matching checksum decodes to them |
| `Codecs.EncodeSuperBlock` | crates/fs3-core/src/types.rs:2250-2269 | Filling the buffer gives the image of the round trip |
| `Codecs.HeaderRoundTrip` | crates/fs3-core/src/types.rs:2481-2542 | An extent header decodes to itself, unless it is packed and carries a checksum table; then it is refused |
| `Codecs.HeaderDecodes` | crates/fs3-core/src/types.rs:2498-2542 | Any buffer that carries the fields and a matching checksum decodes so |
| `Codecs.EncodeHeader` | crates/fs3-core/src/types.rs:2481-2496 | Filling the buffer gives the image of the round trip |
| `Codecs.CheckpointRoundTrip` | crates/fs3-core/src/types.rs:2580-2625 | A checkpoint that fits its slot decodes to itself |
| `Codecs.CheckpointDecodes` | crates/fs3-core/src/types.rs:2601-2625 | Any slot that carries the fields and a matching checksum decodes to them |
| `Codecs.DecodedFits` | crates/fs3-core/src/types.rs:2601-2625 | Whatever decodes can be encoded again into a slot of that length |
| `Codecs.ZerosDoNotDecode` | crates/fs3-core/src/types.rs:2605-2607 | A zeroed slot never decodes |
| `Codecs.EncodeCheckpoint` | crates/fs3-core/src/types.rs:2580-2599 | Gives the image of the round trip, or refuses exactly when it does not fit |
| `Codecs.SealedHolds` | crates/fs3-core/src/types.rs:2250-2269 | A buffer filled field by field carries every field, and its checksum covers them |
| `Numbers.LowByteFirst` | crates/fs3-core/src/types.rs:2250-2269 | A number is written low-order byte first |
| `Crcs.CrcIsDivision` | crates/fs3-core/src/crc32c.rs:9-27 | The checksum is the complemented remainder of the message polynomial, seed added to its front, on division by the generator |
| `Crcs.DivisionIdentity` | crates/fs3-core/src/crc32.rs:11-29 | Quotient times divisor plus remainder is the dividend, with a schoolbook product |
| `Crcs.RemainderIsUnique` | crates/fs3-core/src/crc32.rs:11-29 | No other remainder of that width satisfies the identity |
| `Crcs.FeedingIsDivision` | crates/fs3-core/src/crc32.rs:17-24 | Feeding bits one at a time into the reflected register is that division |
| `Crcs.ByteIsEightBits` | crates/fs3-core/src/crc32.rs:17-24 | Adding a byte and turning eight times feeds its eight bits |
| `Crcs.TurnsAreLinear` | crates/fs3-core/src/crc32.rs:17-24 | Turning is linear, which is why a table works |
| `Crcs.TableStep` | crates/fs3-core/src/crc32.rs:38-40 | One byte through the table is eight bits of division |
| `Crcs.BuildTable` | crates/fs3-core/src/crc32.rs:11-29 | Entry i is byte i, turned eight times |
| `Crcs.TableCrc` | crates/fs3-core/src/crc32.rs:36-42 | The byte loop with the table computes the bit-at-a-time checksum, for every polynomial of at least eight bits, input and seed |
| `Crcs.CrcSplits` | crates/fs3-core/src/crc64nvme.rs:37-43 | Continuing from the checksum of a first part gives the checksum of the whole, for any split and seed |
| `Crcs.Crc32` | crates/fs3-core/src/crc32.rs:11-42 | The table method is division by the polynomial of section 8 of RFC 1952 |
| `Crcs.Crc32C` | crates/fs3-core/src/crc32c.rs:56-85 | The table method is division by the Castagnoli polynomial |
| `Crcs.Crc64Nvme` | crates/fs3-core/src/crc64nvme.rs:12-43 | The table method is division by the 64-bit polynomial of section 5.2.1.3 of the NVM Command Set Specification |
| `Crcs.Terms32` | crates/fs3-core/src/crc32.rs:11-29 | The generator is x^32 + x^26 + x^23 + x^22 + x^16 + x^12 + x^11 + x^10 + x^8 + x^7 + x^5 + x^4 + x^2 + x + 1 |
| `Crcs.Terms32C` | crates/fs3-core/src/crc32c.rs:9-27 | The exponents of the Castagnoli generator |
| `Crcs.Terms64Nvme` | crates/fs3-core/src/crc64nvme.rs:12-35 | The exponents of the NVMe generator, 0xAD93D23594C93659 in normal form |
| `CrcVectors.IeeeCheck` | crates/fs3-core/src/crc32.rs:52 | CRC-32 of the nine bytes "123456789" is 0xCBF43926 |
| `CrcVectors.CastagnoliCheck` | crates/fs3-core/src/crc32c.rs:95 | CRC-32C of them is 0xE3069283 |
| `CrcVectors.NvmeCheck` | crates/fs3-core/src/crc64nvme.rs:53 | CRC-64/NVME of them is 0xAE8B14860A799888 |
| `Md5x4.Digest` | crates/fs3-core/src/md5x4.rs:71-75 | Each of four messages gets the digest that sections 3.1 to 3.5 of RFC 1321 prescribe |
| `Md5x4.Md5Multi4.Update` | crates/fs3-core/src/md5x4.rs:81-120 | Appends to the four messages, however they are split and however uneven |
| `Md5x4.Md5Multi4.Finalize` | crates/fs3-core/src/md5x4.rs:124-156 | Each lane outputs the digest of its own message |
| `Md5x4.CompressRounds` | crates/fs3-core/src/md5x4.rs:161-186 | Bulk rounds followed by ragged ones digest every block of every lane, once and in order |
| `Md5x4.BulkTransform` | crates/fs3-core/src/md5x4.rs:191-285 | The register-renaming path is the fold of the reference transform |
| `Md5x4.BulkBlock` | crates/fs3-core/src/md5x4.rs:191-285 | Four interleaved lanes, one block each |
| `Md5x4.StepLane` | crates/fs3-core/src/md5x4.rs:191-285 | A renamed step is a step of RFC 1321 on registers in other places |
| `Md5x4.RenamedStep` | crates/fs3-core/src/md5x4.rs:191-285 | Where each register is after i renamings |
| `Md5x4.ScalarTransform` | crates/fs3-core/src/md5x4.rs:291-349 | The indexed path is the reference transform on active lanes and the identity on others |
| `Md5x4.ScalarStep` | crates/fs3-core/src/md5x4.rs:313-340 | An indexed step is a step of RFC 1321 |
| `Md5x4.Mix` | crates/fs3-core/src/md5x4.rs:328-339 | The new value of the updated register |
| `Md5x4.Absorb` | crates/fs3-core/src/md5x4.rs:81-120 | Whole blocks of the buffered and the new bytes come out, the rest stays |
| `Md5x4.Pad` | crates/fs3-core/src/md5x4.rs:124-147 | The padded end is the padding of RFC 1321 in one or two blocks, for lengths beyond 2^64 bits too |
| `Md5x4.ConstantsAreRfc1321` | crates/fs3-core/src/md5x4.rs:14-42 | Computed word indices and listed shifts agree with the tables of RFC 1321 |
| `Md5x4.GIndexIsListed` | crates/fs3-core/src/md5x4.rs:33-40 | The four index formulas give the message words in the order that section 3.4 lists |
| `Md5x4.ShiftsAreRotations` | crates/fs3-core/src/md5x4.rs:25-29 | The shift table repeats the four rotations of each round |
| `Md5Vectors.EmptyDigest` | crates/fs3-core/src/md5x4.rs:367-373 | The digest of the empty message is d41d8cd98f00b204e9800998ecf8427e, as in appendix A.5 of RFC 1321, operation by operation |
| `Md5Vectors.Traced` | crates/fs3-core/src/md5x4.rs:291-349 | The registers after every one of its 64 operations |
| `Md5Vectors.InitialBytes` | crates/fs3-core/src/md5x4.rs:60-64 | The initial registers are the sixteen bytes of section 3.3 |
| `Md5Words.RotateIsProduct` | crates/fs3-core/src/md5x4.rs:328-339 | Rotating left by s is multiplying by two to the power s and adding at the bottom what exceeds 32 bits |
| `Md5Words.RotateSwaps` | crates/fs3-core/src/md5x4.rs:328-339 | The high s bits and the others change places |
| `Md5Words.AndBit` | crates/fs3-core/src/md5x4.rs:328-339 | Each bit of a conjunction |
| `Md5Words.OrBit` | crates/fs3-core/src/md5x4.rs:328-339 | Each bit of a disjunction |
| `Md5Words.XorBit` | crates/fs3-core/src/md5x4.rs:328-339 | Each bit of an exclusive or |
| `Md5Words.NotBit` | crates/fs3-core/src/md5x4.rs:328-339 | Each bit of a complement |
| `Md5Words.WordOfBytes` | crates/fs3-core/src/md5x4.rs:150-156 | A word written low-order byte first is read back |
| `Md5Words.LengthWords` | crates/fs3-core/src/md5x4.rs:124-147 | The length in bits follows the padding, its low-order word first |
| `Md5Reference.PaddingFits` | crates/fs3-core/src/md5x4.rs:124-147 | Padding fills whole blocks, is at most 72 bytes, and with the buffered bytes never exceeds 128 |
| `Md5Reference.ChoppedExtends` | crates/fs3-core/src/md5x4.rs:81-120 | More data only adds blocks |
| `Md5Reference.DigestedAppend` | crates/fs3-core/src/md5x4.rs:161-186 | Digesting is a fold over blocks |
| `Gtids.GtidSet.InsertRange` | crates/fs3-core/src/gtid.rs:57-72 | Ranges stay sorted, disjoint and not adjacent, and denote the union |
| `Gtids.GtidSet.Contains` | crates/fs3-core/src/gtid.rs:76-82 | Membership |
| `Gtids.GtidSet.IsSubset` | crates/fs3-core/src/gtid.rs:87-101 | Answers inclusion of every epoch before the first empty list that the other side lacks |
| `Gtids.GtidSet.ListWithin` | crates/fs3-core/src/gtid.rs:92-98 | One epoch: inclusion of the ranges |
| `Gtids.SubsetIsInclusion` | crates/fs3-core/src/gtid.rs:87-101 | For sets without empty lists the answer is set inclusion |
| `Gtids.WrongAnswer` | crates/fs3-core/src/gtid.rs:87-101 | The answer is wrong if and only if something is missing and every missing epoch lies behind such an empty list; it errs only towards yes |
| `Gtids.EmptyListHidesDivergence` | crates/fs3-core/src/gtid.rs:89-91 | Such a set, reported to be a subset of the empty set |
| `Gtids.CanonicalIsUnique` | crates/fs3-core/src/gtid.rs:57-72 | Equal sets of numbers have equal range lists |
| `Gtids.SetIsUnique` | crates/fs3-core/src/gtid.rs:57-72 | Equal sets without empty lists are equal as maps |
| `Gtids.WithinIsCovered` | crates/fs3-core/src/gtid.rs:92-98 | The test of one range is right, and a refusal comes with a missing number |
| `Gtids.AllWithin` | crates/fs3-core/src/gtid.rs:92-98 | One list is included in another if and only if every range passes |
| `Gtids.Found` | crates/fs3-core/src/gtid.rs:76-82 | The binary search finds the only range that can contain the number |
| `Gtids.Insert` | crates/fs3-core/src/gtid.rs:57-72 | Splicing keeps the list canonical and adds exactly the new numbers |
| `Gtids.Swallow` | crates/fs3-core/src/gtid.rs:62-70 | The loop swallows exactly the touching ranges and covers nothing else |
| `Gtids.CheckList` | crates/fs3-core/src/gtid.rs:118-141 | The decoder accepts a list if and only if it is canonical |
| `Caches.ObjectCache.Insert` | crates/fs3-core/src/cache.rs:132-190 | Refines insertion into a recency list bounded in entries and bytes, victims from its old end; ignores empty and oversized objects; index, order, slots and free list stay in bijection and the byte total exact |
| `Caches.ObjectCache.Get` | crates/fs3-core/src/cache.rs:106-123 | Returns the listed bytes of exactly that bucket, key, version and size, and makes the entry the most recent |
| `Caches.ObjectCache.EvictToFit` | crates/fs3-core/src/cache.rs:180-188 | Drops the oldest entries until the bytes fit |
| `Caches.ObjectCache.InsertNew` | crates/fs3-core/src/cache.rs:159-189 | A new entry takes a free slot or that of the oldest entry |
| `Caches.ObjectCache.constructor` | crates/fs3-core/src/cache.rs:90-103 | An empty cache of 16 to 2^20 slots |
| `Caches.EmptiedShape` | crates/fs3-core/src/cache.rs:161-170 | Removing the oldest entry keeps the bijections and the total |
| `Caches.FilledShape` | crates/fs3-core/src/cache.rs:172-178 | So does filling a slot |
| `Caches.RenewedShape` | crates/fs3-core/src/cache.rs:143-156 | So does replacing the bytes of an entry and moving it to the front |
| `Caches.ObjKeyIsInjective` | crates/fs3-core/src/cache.rs:82-87 | Different objects have different cache keys if bucket names are free of NUL, whatever object keys contain |
| `Caches.CollidesIff` | crates/fs3-core/src/cache.rs:82-87 | An object shares its cache key with no other object of a bucket free of NUL if and only if its own bucket name is free of NUL |
| `Caches.SizeIsUnique` | crates/fs3-core/src/cache.rs:82-87 | A key determines the size of its object, so replacing an entry never changes the total |
| `Caches.DigitIsHexadecimal` | crates/fs3-core/src/cache.rs:82-87 | Versions are written in hexadecimal, in lower case |
| `Recency.HoldsMostRecent` | crates/fs3-core/src/cache.rs:106-190 | After any sequence of operations the entries are the most recently used keys, in order of use |
| `Recency.HitIsLastPut` | crates/fs3-core/src/cache.rs:106-190 | Every entry holds the bytes last accepted for its key |
| `Recency.EvictKeepsLast` | crates/fs3-core/src/cache.rs:180-188 | An entry that fits is never the victim of its own insertion, and afterwards everything fits |
| `Recency.EvictIsSuffix` | crates/fs3-core/src/cache.rs:180-188 | Victims are always the least recently used |
| `Recency.EvictsNoMore` | crates/fs3-core/src/cache.rs:180-188 | No more of them go than must |
| `Recency.PutIsCached` | crates/fs3-core/src/cache.rs:132-190 | What is neither empty nor larger than the cache is the most recent entry afterwards; anything else changes nothing |
| `Clocks.MarkNeverSinks` | crates/fs3-core/src/clock.rs:30-61 | Over any run of refreshes, wall clock jumps and reboots, the stored mark never decreases |
| `Clocks.ExpiryIsFinal` | crates/fs3-core/src/clock.rs:35-66 | The time that decides about locks is never behind that of an earlier stored refresh, so that an expiry seen there is seen at every later moment |
| `Clocks.NoEarlyExpiry` | crates/fs3-core/src/clock.rs:30-66 | If the wall clock never runs ahead of true time and the monotonic clock never runs fast, nothing expires early; `Clocks.ExpiresInTheEnd` is the other side |
| `Clocks.ExpiresInTheEnd` | crates/fs3-core/src/clock.rs:30-66 | Within one boot every retention is found expired in the end, whatever the wall clock does: as soon as the monotonic clock has run for the time that was left, and a second more for each refresh |
| `Clocks.MarkKeepsUp` | crates/fs3-core/src/clock.rs:41-47 | Over any refreshes within one boot the mark has risen by at least the seconds that the monotonic clock has run, less at most one per refresh |
| `Clocks.TrustedAdvances` | crates/fs3-core/src/clock.rs:30-33 | Trusted time is ahead of the mark by exactly the whole seconds since it was set |
| `Clocks.MarkIsLater` | crates/fs3-core/src/clock.rs:41-60 | A refresh and a reboot set the mark to the later of the wall clock and what was carried forward |
| `Clocks.LockEnds` | crates/fs3-core/src/clock.rs:35-66 | A lock is over if and only if one of the two clocks has passed its end |
| `Clocks.RunNotAhead` | crates/fs3-core/src/clock.rs:30-61 | Under those clocks no mark is ever ahead of true time |
| `Clocks.StepKeepsMark` | crates/fs3-core/src/clock.rs:41-60 | Each event keeps the marks in order |
| `Clocks.RefreshLowersIff` | crates/fs3-core/src/clock.rs:41-47 | A refresh lowers the mark if and only if the wall clock is behind it and the monotonic reading went back by a second or more |
| `Pools.WindowsPartition` | crates/fs3-core/src/pool.rs:43-105 | Every id below the total lies in exactly one window at exactly one place |
| `Pools.RoundTrip` | crates/fs3-core/src/pool.rs:74-105 | On a valid pool, the place of an id gives back the id |
| `Pools.PlaceRoundTrip` | crates/fs3-core/src/pool.rs:74-105 | And the id of a place gives back the place |
| `Pools.TailChangesKeepIds` | crates/fs3-core/src/pool.rs:43-105 | Adding or removing devices at the end moves no id |
| `Pools.DeviceBase` | crates/fs3-core/src/pool.rs:43-60 | The sum of the extents before the device; fails exactly for a missing or empty device or on overflow |
| `Pools.GlobalExtentId` | crates/fs3-core/src/pool.rs:74-85 | Succeeds exactly for existing extents whose id does not overflow |
| `Pools.Resolve` | crates/fs3-core/src/pool.rs:88-105 | Succeeds exactly when the id lies in a window with no empty device before it |
| `Pools.ResolveExtent` | crates/fs3-engine/src/compaction.rs:170-179 | Agrees with the manifest inside the range; outside it names the last device |
| `Pools.ValidateManifest` | crates/fs3-core/src/pool.rs:109-136 | Accepts exactly non-empty pools without empty or weightless devices whose ids fit 32 bits |
| `Ingests.NoKeyIsMissed` | crates/fs3-engine/src/ingest.rs:287-367 | Over any run of ticks, list errors, crashes in mid-batch, pauses and resumptions: every source key up to the cursor was handled, a completed job has handled all, copied plus skipped plus failed equals listed plus list errors, the failure list is bounded, and the cursor never goes back |
| `Ingests.TicksComplete` | crates/fs3-engine/src/ingest.rs:287-367 | On a fixed source, more undisturbed ticks than keys ahead complete the job with every key handled |
| `Ingests.TickProgresses` | crates/fs3-engine/src/ingest.rs:287-367 | An undisturbed tick completes the job or leaves fewer keys ahead |
| `Ingests.WalkMoves` | crates/fs3-engine/src/ingest.rs:319-356 | A tick moves the cursor to the last handled key, strictly forward if there is one, and counts exactly the handled keys |
| `Ingests.WalkCounts` | crates/fs3-engine/src/ingest.rs:180-356 | Copied, skipped, failed and bytes rise by the handled visits that end so, the failures kept are the last hundred in order, and the tick stops for the reason and in the state that the first visit to stop it gives |
| `Ingests.ListFailureCounts` | crates/fs3-engine/src/ingest.rs:304-318 | A listing error is a failure of the source and one more error in a row |
| `Ingests.ListErrorsFail` | crates/fs3-engine/src/ingest.rs:304-318 | Listing errors in a row fail the job at the eleventh, and not before |
| `Ingests.OpenWalk` | crates/fs3-engine/src/ingest.rs:319-356 | Without pause, overdraft or systemic error the whole page is handled |
| `Ingests.NoticedIff` | crates/fs3-engine/src/ingest.rs:319-361 | A tick leaves the job paused, cancelled or deleted if and only if some visit within budget finds it so and every earlier visit went on, with at most ten systemic errors in a row |
| `Ingests.PauseInTheLastCopy` | crates/fs3-engine/src/ingest.rs:319-361 | A pause that comes while the last key is copied is overwritten by a completion |
| `Ingests.PauseBehindOverdraft` | crates/fs3-engine/src/ingest.rs:321-324 | A pause behind a visit without budget is overwritten by a running job |
| `Ingests.PauseBehindErrors` | crates/fs3-engine/src/ingest.rs:349-356 | A pause behind the eleventh systemic error is overwritten by a failure |
| `Ingests.PageIsComplete` | crates/fs3-engine/src/ingest.rs:304 | What the source must promise: a page misses no key behind the cursor, except behind a full page |
| `Ingests.FailureListIsBounded` | crates/fs3-engine/src/ingest.rs:165-179 | The failure list never exceeds 100 entries |
| `Ingests.WalkPage` | crates/fs3-engine/src/ingest.rs:319-356 | The loop over a page computes the walk about which the lemmas reason |
| `Ingests.IngestWorker.RunTick` | crates/fs3-engine/src/ingest.rs:287-367 | The stored job, the count and the continuation of a tick for every listing, budget and administrator; a job that is not pending is left alone, and one that a visit finds deleted is not stored again |

## Left out

- Runs.AccountingOverRuns: transactions follow one another; `Interleavings.InterleavedAccounting` has several open. At most one add follows in-flight notes and the notes are among its segments, objects have distinct, non-empty segments, counters have room for the result of each act, and puts go to allocated extents: the engine's writers arrange that, the compactor does not, which is what the first two points of "What does not hold" are about.
- Interleavings.InterleavedAccounting: a transaction deletes no object that another open one has put, copied or deleted, which the metadata store would answer with a conflict; what becomes of such a conflict with the compactor is `CompactionWindows.BystanderIsLost`. Counters have room for the result of each act and puts go to allocated extents.
- Runs.AbortOk: the drafts that it excludes are those that `Runs.AbortIff` shows to break the accounting.
- Rebuilds.RebuiltRunsAlike: the run is one of which the ledger in memory undoes every abort. Pins are carried over.
- Rollbacks.RollbackRestores: adds and shares are on allocated extents and a zero-length segment is released only there; `LooseRollbacks.LooseRollbackRestores` says what becomes of the bits otherwise. The bit of an extent that was pinned and clear may be left set, and is then isolated; the last unpin frees it.
- LooseRollbacks.LooseRollbackRestores: what an allocation of an extent that still has bytes or references would do.
- Replays.ReplayRefinesMemory: nothing is pinned during the run, since an extent emptied while pinned stays set in memory until it is unpinned but is released in the log.
- Pinning.PinnedExtentIsStable: each call of a draft is one step; the loads and exchanges inside a call are not interleaved.
- CompactionReads.MeaningIsPreserved: if the target was itself an extent of the plan, emptied and reallocated, no copy may equal a planned segment in every field. A writer that takes an extent under an object is excluded; where the switch had emptied that and goes on to commit, `CompactionReads.WindowReads` says that the object reads the same afterwards.
- CompactionSafety.RunIsSafeIff: a transaction of others is one step, from its first call to its outcome, as the engine's writers, who hold one lock, follow each other; that one of them is itself half-way when a switch opens or closes is not modelled. An overwrite is a put and then a delete, and one that fails is no step. Readers pin extents of objects only. Reference counts are not part of the batch. Runs go through states in which no object lists a segment twice, which only a commit onto a lost target could change (`CompactionSwitches.OursKeepsRange`), and the counters have room for the copies of a switch when it opens, as they have anyway while the target is the batch's. Nothing is said of what follows once two owners share an extent.
- Compactions.DataAreas.CopySegment: extents are byte areas addressed by extent and offset; device base addresses and I/O errors in mid-segment are steps of the batch instead.
- Checkpoints.NothingOlder: a torn slot that still passes its checksum is taken not to happen.
- Checkpoints.Device.Format: a crash in the middle of formatting, and the superblock write before it.
- Crcs.Crc32C: the SSE4.2 instructions.
- Md5x4.Digest: the elements of the sine table are those that RFC 1321 prints, not values of the sine; 32-bit words are numbers modulo 2^32, and the constants are passed to the class as a value.
- Rebalances.RebalancePlan: usages are exact reals between 0 and 1 instead of floating-point quotients.
- Ingests.NoKeyIsMissed: keys are numbered in their order; the outcome of a copy, ETag comparison included, is an input; failures of the metadata store in mid-tick count as crashes.
- Caches.ObjectCache.Get: metrics, the lock and the shared handle.
- Clocks.MarkNeverSinks: a refresh and its storing are one step.
- Pools.ValidateManifest: device names and identifiers.
- Memory ordering of atomics; every atomic operation is one sequentially consistent step.
- Growing and shrinking the allocator, per-extent phase queries, candidate ranking, and per-window statistics: each is a single pass over an array that nothing modelled here depends on.
- Discovery of compaction candidates, the list of recent targets, budgets, reports and throttling.
- Migration of upload parts: the object case without a restored copy.
- Value encoding of metadata and its older versions, and the encoding of GTID sets around the check of their ranges.
- HTTP administration, the agent, encryption with customer keys, device probing and system calls, audit, metrics and batch jobs.
