# Kernel and file-system models

Dafny models, with proofs, of four parts of this repository: the page busy lock, FIFO paging and the
neighbouring page code of `asgn3/vm`; the ULE scheduler with its lottery queue in `asgn2/kern`; and the
AOFS file system of `asgn4`. Check everything with `dafny verify dfyconfig.toml`.

Code that updates state in place is a class or a method over arrays whose postconditions equate the new
state with a function of the old one (`Value()` gives a class its abstract value); what every operation and
every run keeps is then proved of those functions. Where other threads can interfere (the busy lock; the
page daemon's scan whenever it drops the queue lock) the model lets them take any steps they like.

| file | what it holds |
|---|---|
| `BusyLock`, `BusyLockRuns`, `BusyLockAlone`, `BusyLockCalls` | the busy word of a page as threads taking single atomic steps, one step's effect, all schedules, what a thread does when nobody else moves, and what each call achieves |
| `PageQueues`, `PageMoves`, `Pageout`, `ScanTrace`, `ScanFates`, `PageDaemon` | the page queues as values, where each operation leaves a page, what a marker keeps across a lock drop, the inactive scan replayed from a record of everything left to chance and to others, why each page meets its fate, and the queue operations and the scan in place |
| `Cluster`, `Rounding`, `ScanContig`, `ObjectList`, `Isqrt` | laundering clusters, power-of-two rounding, contiguous runs, an object's list and index of pages, the square root |
| `RunQueue`, `Lottery`, `TdqModel`, `TdqOrder`, `Tdq`, `CpuSearch`, `Steal`, `StealFirst`, `Balance`, `Priority`, `PriorityLaws` | run queues over a bitmap, the lottery, one CPU's queues as a value, whose turn comes when on them, and in place, the CPU search, stealing and balancing, priority arithmetic and its laws |
| `AofsDisk`, `AofsBitmap`, `AofsWrite`, `AofsTruncate`, `AofsRead`, `Aofs`, `AofsRuns` | the disk as a value, its bitmap, what each file operation does, the image in place, whole runs |
| `Prelude`, `Words`, `Arith`, `Seqs` | small shared datatypes and functions, C's bit operators on naturals, division, finding and cutting list entries |

## What the code does not promise

Where a property one would expect fails, the model keeps the code as it is, a lemma says exactly when the
property holds, and inputs are given for which it does not.

- The busy word counts sharers in 29 bits with no check: one share more and a busied page reads as free (`StepKeepsInv`). A single thread reaches that state from a fresh page (`OverflowIsReached`).
- AOFS reads place whole and last blocks at the block offset instead of after the bytes already copied; the bytes come out in order only for the ranges of `ReadIsRight` (`ReadInOrderIff`, `WrongIsOutOfOrder`).
- The same reads write past the size asked for when a range of several blocks does not start on one: `Room` is how far they reach (`RoomIsWritten`), `StaysWithinIff` says when that is within the size, and one block's worth of bytes from byte 1 overruns it by two (`OverrunWitness`). A read of no bytes at the start of a block copies the whole rest of the chain (`BytesReadIs`), and no read looks at the file's size (`ReadsPastEndIff`).
- An AOFS write inside a file cuts the file off at the write's end (`WriteKeepsSizeIff`). A write for which there is no free block, or whose start lies beyond the chain, goes on with block number -1: exactly those that `MayWrite` excludes (`Aofs.Image.WriteFile`). While the chain fits the size only the want of blocks can do that (`FitsNeedsRoomOnly`).
- A truncate that grows a file counts blocks by floor division: a file of exactly one block, grown by one byte, gets no second block (`TruncateFits`, `StepFits`, `OneByteTooMany`, `OneByteRun`), and the next write at its end goes astray (`NextWriteIsLost`).
- Creating a file of a name that is taken makes a second head block, and no set of files is held by such a disk (`Aofs.Image.CreateFile`, `TwoHeads`).
- `asgn4/design_doc.md` says that shrinking zeroes the rest of the block and that growing pads with zeros. The code zeroes only when a block boundary is crossed, so bytes cut off come back (`ShrinkZeroes`, `GrowPads`, `OldByteComesBack`, `OldByteRun`). The document gives 3,768 data bytes a block at line 94 and 3,776 at line 126; the structure in `asgn4/aofs.h` leaves 3,768.
- The comment on `_vm_page_deactivate` says that `noreuse` inserts near the head of the queue; the code puts the page behind every other inactive page (`NoreuseGoesLast`).
- The inactive scan allows itself one turn a page, and the marker kept at the head of the queue uses one up, so an undisturbed scan never reaches the youngest page (`YoungestIsNotReached`).
- `vm_page_rename` to an index of the page's own object fails an assertion exactly when the page goes up with no other page between (`Rename`).
- `vm_page_scan_contig` stays at one page for ever exactly when the boundary is smaller than the run and some start is aligned and on the boundary (`Scan`, `AdvancesIff`, `StuckAtZero`). Its skip is stored in an int, which fits for alignments up to 2^43 and no others (`SkipFitsIff`).
- The lottery crashes the kernel on queues whose tickets add up to nothing or to less: each draw below the limit of `random()` has a winner exactly when the total is positive (`NeverCrashesIff`, `CrashIff`); a lone thread of nice -1 or -20 crashes every draw (`LoneNiceCrashes`).
- Thread stealing never looks at the lottery queue, and the second list scan overwrites its first candidate. `StealNoneIff` says exactly when it finds nothing, `CalendarMissIff` which calendar thread is missed, and `CalendarMissWitness` and `LotteryMissWitness` give sound queues on which a thread the thief may run is missed.
- A thread that slept longer than it ran is not always scored at most half (`SleeperScoresLowIff`, `ShortSleeperScoresHigh`).
- History throttling misses a sum of run and sleep time that wraps round 32 bits (`ThrottledIff`, `WrappedIsNotThrottled`); a forked thread inherits its parent's whole history when the sum is no int (`InheritedIff`, `LongSleeperHandsOnAll`); the tick count outgrows its span when a running thread is updated late (`UpdatedIff`, `LateUpdateOutgrows`).

## Model

| member | source | states |
|---|---|---|
| `BusyLockRuns.BusyLockSafe` | asgn3/vm/vm_page.c:760-967 | after any schedule of atomic steps of any number of threads: an exclusive owner excludes all other holders, the word is UNBUSIED exactly when nobody holds the page and never has waiters then, a sleeper nobody is about to wake has the waiters bit set and a holder to wait for, and no assertion of the source fails |
| `BusyLockRuns.StepKeepsInv` | asgn3/vm/vm_page.c:760-967 | one atomic step keeps the decoding of the word, the program-counter assertions and the announcement of sleepers, exactly when it is not a share taken with all 29 bits in use |
| `BusyLockRuns.RunKeepsInv` | asgn3/vm/vm_page.c:760-967 | the same over every schedule that never overflows |
| `BusyLockAlone.OverflowIsReached` | asgn3/vm/vm_page.c:878-889 | one thread alone reaches, from a fresh page and with no overflow on the way, the state in which its next share makes the page it holds read as unbusied |
| `BusyLockAlone.AloneEnds` | asgn3/vm/vm_page.c:760-967 | from any state of the invariant, a thread that nobody disturbs and that finds the page lock free or its own ends its operation, done or asleep, after at most eight of its steps, the invariant kept |
| `BusyLockAlone.LastReleaseFrees` | asgn3/vm/vm_page.c:810-967 | when the last hold of the page is released so, within eight steps the word is UNBUSIED, nobody holds the page and nobody sleeps on it |
| `BusyLockCalls.RunsToEnd` | asgn3/vm/vm_page.c:760-967 | from any point of any operation, a thread that runs alone ends it within eight steps with the word, the page lock, its holds and its sleep as `EndOf` tells from the word and the holds, and the other threads as they were, or woken |
| `BusyLockCalls.TryXbusyTakes` | asgn3/vm/vm_page.h:572-574 | run alone, the try takes the page exclusively exactly when nobody holds it, and otherwise changes nothing |
| `BusyLockCalls.TrySbusyShares` | asgn3/vm/vm_page.c:878-900 | run alone, the try gains one share exactly when nobody holds the page exclusively, and otherwise changes nothing |
| `BusyLockCalls.SunbusyGives` | asgn3/vm/vm_page.c:804-846 | one share is given up; with the last one the page is unbusied and every sleeper awake |
| `BusyLockCalls.XunbusyGives` | asgn3/vm/vm_page.c:903-947 | the exclusive hold is given up, the page unbusied and every sleeper awake; the page lock is as before |
| `BusyLockCalls.DowngradeShares` | asgn3/vm/vm_page.c:754-792 | the exclusive hold becomes the only share, and every sleeper is awake |
| `BusyLockCalls.FlashWakes` | asgn3/vm/vm_page.c:950-967 | the waiters bit is clear, every sleeper awake, and every hold as it was |
| `BusyLockCalls.SleepOnBusyWaits` | asgn3/vm/vm_page.c:849-876 | the caller ends asleep with the waiters bit set exactly when somebody holds the page, and exclusively if it is to wait for that only; the page lock is given up either way |
| `BusyLockCalls.LockIsHandedOn` | asgn3/vm/vm_page.c:766-792 | once its owner unlocks the page, another thread takes the page lock |
| `BusyLockCalls.ShareIsHandedOn` | asgn3/vm/vm_page.c:804-846 | a share given to another thread leaves the word and the number of shares alone |
| `BusyLockCalls.ExclIsHandedOn` | asgn3/vm/vm_page.c:903-947 | and so does the exclusive hold |
| `BusyLockRuns.ReleaseWakesEverySleeper` | asgn3/vm/vm_page.c:904-967 | when the page is unbusied and someone sleeps, the page lock has an owner whose next step wakes every sleeper |
| `BusyLockRuns.LockOwnerCanRun` | asgn3/vm/vm_page.c:854-876 | the owner of the page lock is never asleep and can always move |
| `BusyLock.WordOperators` | asgn3/vm/vm_page.h:186-206 | for every 32-bit word, the bit tests, setting and clearing the waiters bit, VPB_SHARERS and VPB_SHARERS_WORD are the arithmetic fields the proofs use |
| `BusyLock.WordFacts` | asgn3/vm/vm_page.h:186-206 | a word that decodes to given holders gives them back field by field |
| `PageQueues.ApplyKeeps` | asgn3/vm/vm_page.c:2683-3172 | every queue operation keeps the inactive queue strictly increasing in birthday id, each queued page on exactly the queue it names, once, the counts exact, the active queue empty and queued pages unwired |
| `PageQueues.RunKeeps` | asgn3/vm/vm_page.c:2683-3172 | the same over every run of operations |
| `PageQueues.StartIsSound` | asgn3/vm/vm_pageout.c:1566-1569 | all of it holds of empty queues with the head marker in place |
| `PageQueues.WiredIsUnqueued` | asgn3/vm/vm_page.c:2801-2826 | the assertions of activate and launder: a wired or unmanaged page is on no queue |
| `PageQueues.NoreuseGoesLast` | asgn3/vm/vm_page.c:3077-3127 | deactivating with `noreuse` puts the page behind every other inactive page, with a birthday above all of theirs |
| `PageMoves.ActivateEndsLast` | asgn3/vm/vm_page.c:2802-2823 | an unwired managed page, wherever it was, ends at the tail of the inactive queue with a fresh birthday, every other page and entry staying; any other page stays |
| `PageMoves.DeactivateEndsLast` | asgn3/vm/vm_page.c:3087-3127 | the same, except that a page already inactive moves only with `noreuse` |
| `PageMoves.LaunderEndsLast` | asgn3/vm/vm_page.c:3157-3172 | an unwired managed page not in the laundry ends at its tail, every other page and entry staying |
| `PageMoves.WireUnqueues` | asgn3/vm/vm_page.c:3005-3030 | one more wiring, and the page on no queue |
| `PageMoves.UnwireQueues` | asgn3/vm/vm_page.c:3048-3075 | one wiring fewer, and with the last one a managed page that has an object at the tail of the queue asked for, the inactive one for the active one |
| `PageMoves.RequeueEndsLast` | asgn3/vm/vm_page.c:2758-2772 | the page last in the laundry, which has the pages it had |
| `PageMoves.FreeClears` | asgn3/vm/vm_page.c:2869-2936 | the page on no queue, in no object, invalid and clean, every other page staying |
| `PageQueues.MarkerHolds` | asgn3/vm/vm_pageout.c:236-334 | whatever others do while the queue is unlocked, before a marker stay only entries already passed and after it only pages younger than those taken |
| `PageQueues.OthersOnly` | asgn3/vm/vm_page.c:2683-3172 | operations on other pages leave the record of a locked page alone |
| `Pageout.DropEnds` | asgn3/vm/vm_pageout.c:256-334 | after a lock drop behind a marker the scan stands where the marker stood; a page still before the marker is the very entry it was, and with no interference nothing has changed |
| `Pageout.SameEntry` | asgn3/vm/vm_pageout.c:280-294 | the test m == TAILQ_PREV(marker) cannot be met by a page that left the queue and came back |
| `Pageout.TakeAt` | asgn3/vm/vm_pageout.c:1239-1288 | after a page is taken and others have run, everything behind the domain marker is younger than the page |
| `Pageout.QuietTake` | asgn3/vm/vm_pageout.c:1239-1288 | an undisturbed take removes just that entry, appends to the laundry queue just when the page is laundered, and touches no other page |
| `Pageout.QuietIsFifo` | asgn3/vm/vm_pageout.c:1162-1289 | after an undisturbed scan a page that could have been taken and was not is younger than every page that was |
| `Pageout.OrderKept` | asgn3/vm/vm_page.c:2741-2748 | entries present in two reachable states are in the same order in both |
| `Pageout.YoungestIsNotReached` | asgn3/vm/vm_pageout.c:1129-1164 | an undisturbed scan with the head marker in the queue never takes the youngest page |
| `PageDaemon.Domain.constructor` | asgn3/vm/vm_pageout.c:1566-1569 | a new domain satisfies the invariant |
| `PageDaemon.Domain.Enqueue` | asgn3/vm/vm_page.c:2725-2750 | the page goes to the tail of its queue, active pages to the inactive queue, with a fresh birthday there |
| `PageDaemon.Domain.Dequeue` | asgn3/vm/vm_page.c:2682-2716 | the page's entry and nothing else leaves its queue |
| `PageDaemon.Domain.Activate` | asgn3/vm/vm_page.c:2802-2823 | an unwired managed page ends at the tail of the inactive queue |
| `PageDaemon.Domain.Deactivate` | asgn3/vm/vm_page.c:3087-3127 | likewise, except that a page already inactive moves only with `noreuse` |
| `PageDaemon.Domain.LaunderPage` | asgn3/vm/vm_page.c:3157-3172 | an unwired managed page ends at the tail of the laundry queue |
| `PageDaemon.Domain.Wire` | asgn3/vm/vm_page.c:3005-3030 | the first wiring takes the page off its queue |
| `PageDaemon.Domain.Unwire` | asgn3/vm/vm_page.c:3048-3075 | the last unwiring enqueues a managed page that has an object, and is reported |
| `PageDaemon.Domain.Requeue` | asgn3/vm/vm_page.c:2758-2772 | a laundry page moves to the tail |
| `PageDaemon.Domain.FreePage` | asgn3/vm/vm_page.c:2869-2936 | the page is on no queue, in no object, invalid and clean |
| `PageDaemon.Domain.PageLock` | asgn3/vm/vm_pageout.c:306-334 | the new queues, the place and whether the page stayed are exactly what the recorded operations of others behind the marker make of the old ones (`ScanTrace.Locked`); none are recorded when nobody else runs |
| `PageDaemon.Domain.ObjectLock` | asgn3/vm/vm_pageout.c:256-296 | the same with the page unlocked too: unchanged means still before the marker and still of the object whose lock was taken |
| `PageDaemon.Domain.Dispose` | asgn3/vm/vm_pageout.c:1243-1281 | freed exactly when invalid or, after the dirty test, clean; else laundered, or left to a dying object; the queues are those after just that operation |
| `PageDaemon.Domain.Take` | asgn3/vm/vm_pageout.c:1239-1288 | the page leaves the queue behind the domain marker and meets the fate its fields and the choices give it, others having run before and after |
| `PageDaemon.Domain.Visit` | asgn3/vm/vm_pageout.c:1164-1289 | one turn is exactly `ScanTrace.Visited` of the choices made: the page is passed over when it is held, busy or did not stay, and else taken |
| `PageDaemon.Domain.Scan` | asgn3/vm/vm_pageout.c:1070-1323 | whatever others do, the queues at the end are those of replaying the recorded turns, each turn legal and made only while the queue and the shortage lasted; turns are at most the starting count; the target is reported met exactly when as many pages were freed; the scan stops early only for that or at the end of the queue; alone, the record is of an undisturbed run |
| `ScanTrace.ReplayIsFifo` | asgn3/vm/vm_pageout.c:1070-1323 | in every replay, whatever others do, the pages taken have strictly increasing birthdays, every page still queued was passed over or is younger than all of them, and past the end of the queue all were passed over |
| `ScanTrace.VisitedAt` | asgn3/vm/vm_pageout.c:1164-1289 | a turn keeps the scan in its place: behind it, only pages younger than the last one taken |
| `ScanTrace.FatesAddUp` | asgn3/vm/vm_pageout.c:1243-1281 | the pages freed, laundered and left alone add up to the pages taken |
| `ScanTrace.MetAscending` | asgn3/vm/vm_pageout.c:1243-1281 | the pages of one fate are taken pages, in order of birthday, so none is counted twice |
| `ScanTrace.QuietReplay` | asgn3/vm/vm_pageout.c:1070-1323 | undisturbed, the pages taken are exactly the eligible ones of the turns used, freed pages are free, laundered ones are at the laundry tail and the rest keep their order |
| `ScanTrace.QuietFates` | asgn3/vm/vm_pageout.c:1164-1289 | undisturbed, each turn is at the next entry and the page meets the fate its own record calls for |
| `ScanTrace.QuietOnce` | asgn3/vm/vm_pageout.c:1243-1281 | undisturbed, the pages of one fate are different eligible pages of the old queue |
| `ScanFates.MetDeserved` | asgn3/vm/vm_pageout.c:1164-1281 | over every replay, whatever others do: a page was taken only when the scan, holding its lock and that of its object, found it neither held nor busy; freed only if invalid or neither dirty nor found written, laundered only if valid, dirty and of a live object, left off only if valid, dirty and of a dying one |
| `ScanFates.DirtyIsNotFreed` | asgn3/vm/vm_pageout.c:1246-1281 | a page found valid and dirty is not freed in that turn, nor one found clean laundered |
| `ScanFates.FateActs` | asgn3/vm/vm_pageout.c:1239-1281 | right after its fate a freed page is on no queue, in no object, invalid and clean, a laundered one last in the laundry and dirty, one left off on no queue and dirty; after that come only the operations of others |
| `Isqrt.Isqrt` | asgn3/vm/vm_pageout.c:890-909 | the integer square root of every 32-bit word |
| `Isqrt.NoWrap` | asgn3/vm/vm_pageout.c:898-907 | no intermediate sum of the loop wraps round |
| `Cluster.Object.Gather` | asgn3/vm/vm_pageout.c:341-446 | ends, stays inside the array, and leaves consecutive indices with the given page among them: as many below and above as the two closed forms say |
| `Cluster.Object.Reverse` | asgn3/vm/vm_pageout.c:380-416 | the downward scan stops at a boundary, at a full cluster or at the first page that cannot go, and crosses no boundary on the way |
| `Cluster.Object.Forward` | asgn3/vm/vm_pageout.c:417-435 | the upward scan takes as many eligible pages as there are and fit |
| `Cluster.GatheredAreEligible` | asgn3/vm/vm_pageout.c:380-435 | every page added was resident, dirty, unbusied, unheld and in the laundry, field by field |
| `Cluster.ShortIsMaximal` | asgn3/vm/vm_pageout.c:437-443 | beyond either end of a cluster that is not full there is no page, or a busy, clean or held one, or one not in the laundry |
| `Cluster.FullIsAligned` | asgn3/vm/vm_pageout.c:367-416 | with enough pages both ways the cluster is full and starts on the alignment boundary |
| `Cluster.AloneIff` | asgn3/vm/vm_pageout.c:341-446 | the given page goes alone exactly when neither neighbour can go |
| `Rounding.RoundDownIs` | asgn3/vm/vm_page.c:2125-2126 | rounddown2 by a power of two is the multiple below |
| `Rounding.RoundUpIs` | asgn3/vm/vm_page.c:2122-2127 | roundup2 by a power of two is the multiple not below, when nothing wraps |
| `Rounding.MaskIsRemainder` | asgn3/vm/vm_page.c:2121 | the alignment mask test is a remainder |
| `Rounding.SameBlockTest` | asgn3/vm/vm_page.c:2125-2126 | the xor and rounddown test holds exactly when the quotients by the boundary are equal |
| `ScanContig.AlignSkip` | asgn3/vm/vm_page.c:2121-2124 | for alignments up to 2^43 the skip over a misaligned start moves on, lands aligned, and passes misaligned starts only, the int it is stored in included |
| `ScanContig.SkipFitsIff` | asgn3/vm/vm_page.c:2095-2123 | the skip fits its int from every frame exactly for powers of two up to 2^43 |
| `ScanContig.BoundarySkip` | asgn3/vm/vm_page.c:2125-2129 | the skip, as an int, over a start that crosses a boundary no smaller than the run moves on and passes crossing starts only |
| `ScanContig.AdvancesIff` | asgn3/vm/vm_page.c:2125-2129 | the boundary skip always moves on exactly when the boundary is no smaller than the run |
| `ScanContig.StuckAtZero` | asgn3/vm/vm_page.c:2125-2129 | with a smaller boundary the skip at frame 0 is 0 while the test fails |
| `ScanContig.WalkIsUsable` | asgn3/vm/vm_page.c:2135-2245 | every page of a run that was walked is free or relocatable |
| `ScanContig.UsableIff` | asgn3/vm/vm_page.c:2135-2239 | a usable frame is neither wired nor held nor busy, on a queue, in a relocatable object of the default attribute, or lies in a free block of 2^order pages, and the other way round |
| `ScanContig.WalksIff` | asgn3/vm/vm_page.c:2135-2258 | from a usable head, frames walk exactly as far as all of them are usable |
| `ScanContig.Scan` | asgn3/vm/vm_page.c:2084-2260 | a run returned starts aligned, fits before the end, crosses no boundary and is usable throughout; when only block heads carry an order it is the least such run, and no run means there is none; the scan never ends exactly when the boundary is smaller than the run and some start is aligned and on the boundary, and then stays at the first such |
| `ObjectList.VmObject.InsertAfter` | asgn3/vm/vm_page.c:1264-1305 | list, index and count stay in step; a failed radix insertion leaves everything as it was |
| `ObjectList.VmObject.InsertRadixDone` | asgn3/vm/vm_page.c:1314-1349 | completes an insertion begun in the radix tree |
| `ObjectList.RemovePage` | asgn3/vm/vm_page.c:1360-1392 | exactly the page's index leaves its object; a page of no object is left alone |
| `ObjectList.VmObject.Unlink` | asgn3/vm/vm_page.c:1367-1391 | the radix tree gives back the very page, and the list loses just it |
| `ObjectList.VmObject.Lookup` | asgn3/vm/vm_page.c:1403-1409 | the page listed at that index, if any |
| `ObjectList.VmObject.FindLeast` | asgn3/vm/vm_page.c:1419-1428 | the page of the least index from the given one on, as the index would answer |
| `ObjectList.VmObject.Next` | asgn3/vm/vm_page.c:1436-1448 | the page at the following index exactly when the index has one |
| `ObjectList.VmObject.Prev` | asgn3/vm/vm_page.c:1456-1468 | the page at the preceding index exactly when the index has one |
| `ObjectList.VmObject.Replace` | asgn3/vm/vm_page.c:1476-1513 | the new page stands at the old one's index and place, the count unchanged |
| `ObjectList.VmObject.Rename` | asgn3/vm/vm_page.c:1533-1572 | the page leaves its object and joins the other, or its own, at the new index, or, if memory runs out, nothing has changed; the assertion on the page linked after fails exactly when that is the page itself |
| `ObjectList.VmObject.Predecessor` | asgn3/vm/vm_page.c:1541-1543 | the radix search finds the page to link after |
| `ObjectList.ListIsDetermined` | asgn3/vm/vm_page.c:1264-1572 | the index determines the list, so the contracts above fix both |
| `RunQueue.Runq.constructor` | asgn2/kern/kern_switch.c:265-277 | an empty queue for any word size and count whose product is RQ_NQS |
| `RunQueue.Runq.FindBit` | asgn2/kern/kern_switch.c:296-313 | the least non-empty queue, or -1 when all are empty |
| `RunQueue.Runq.FindBitFrom` | asgn2/kern/kern_switch.c:315-345 | the first non-empty queue in cyclic order from the index, in at most two scans of the words |
| `RunQueue.Runq.ScanFrom` | asgn2/kern/kern_switch.c:321-339 | one scan of the words finds the first non-empty queue from the index to the end |
| `RunQueue.Runq.Add` | asgn2/kern/kern_switch.c:387-423 | the thread joins its queue, at the head if preempted, and the bitmap still agrees with the queues |
| `RunQueue.Runq.RemoveIdx` | asgn2/kern/kern_switch.c:599-619 | the thread leaves its queue, the bitmap agrees, and the index moves on exactly when its queue empties |
| `RunQueue.Runq.Check` | asgn2/kern/kern_switch.c:428-442 | whether any queue has a thread |
| `RunQueue.Runq.Choose` | asgn2/kern/kern_switch.c:527-542 | the head of the least non-empty queue |
| `RunQueue.Runq.ChooseFrom` | asgn2/kern/kern_switch.c:547-565 | the head of the first non-empty queue in cyclic order |
| `RunQueue.Runq.LotteryAdd` | asgn2/kern/kern_switch.c:368-381 | the thread joins the head of queue 0 |
| `RunQueue.Runq.LotteryRemove` | asgn2/kern/kern_switch.c:571-586 | the thread leaves queue 0 |
| `RunQueue.Runq.LotteryChoose` | asgn2/kern/kern_switch.c:449-480 | the thread whose tickets the draw modulo the total falls on, none when queue 0 is empty, and otherwise a crash: the two loops compute `Lottery.DrawOf` for tickets of any sign |
| `Lottery.DrawStops` | asgn2/kern/kern_switch.c:466-478 | with any tickets at all the second loop stops on a thread, whatever the draw |
| `Lottery.CrashIff` | asgn2/kern/kern_switch.c:462-478 | a draw crashes exactly when the tickets add up to nothing, or to less and no prefix of them exceeds the draw |
| `Lottery.NeverCrashesIff` | asgn2/kern/kern_switch.c:462-478 | every draw below the limit of random() has a winner exactly when the total is positive |
| `Lottery.LoneNiceCrashes` | asgn2/kern/kern_switch.c:462-478 | a lone thread of nice -1, or of nice -20, crashes every draw |
| `Lottery.WinningResidues` | asgn2/kern/kern_switch.c:449-480 | a thread wins exactly the residues between the tickets before it and its own |
| `Lottery.LotteryExact` | asgn2/kern/kern_switch.c:449-480 | each thread is selected by exactly as many residues as it has tickets, wherever it stands in the queue |
| `Lottery.LotteryLaw` | asgn2/kern/kern_switch.c:449-480 | of as many draws as a queue of threads has tickets, each thread of a queue without negative nice values wins its nice value and one |
| `Lottery.LotteryLawRaw` | asgn2/kern/kern_switch.c:449-480 | of any number of draws it wins that for every round of tickets, rounded down and rounded up |
| `Lottery.DrawFallsOn` | asgn2/kern/kern_switch.c:465-470 | a draw falls on a thread exactly when its remainder lies among the thread's tickets, each thread having its nice value and one |
| `Lottery.TicketsAre` | asgn2/kern/kern_switch.c:462-464 | the tickets added up are the nice values and one each, whatever their sign |
| `Lottery.RawDrawsFair` | asgn2/kern/kern_switch.c:461-463 | over raw draws below a bound a thread's wins lie between its tickets times the bound over the total rounded down and rounded up |
| `TdqModel.StepKeeps` | asgn2/kern/sched_ule.c:472-592 | every add, remove, choose, yield, sleep, tick and change of priority keeps each queued thread on exactly the queue and slot it names, the transferable count and the load exact, the priority range of each queue, and the calendar indices in step |
| `TdqModel.RunKeeps` | asgn2/kern/sched_ule.c:472-592 | the same in every state of every run |
| `TdqModel.EmptyInv` | asgn2/kern/sched_ule.c:1413-1430 | all of it holds after setup |
| `TdqModel.AddDistance` | asgn2/kern/sched_ule.c:497-517 | an ordinary add lands at its scaled priority's distance from the removal index, or one more (at most 63) when the indices differ |
| `TdqModel.DistanceMonotone` | asgn2/kern/sched_ule.c:497-517 | better priorities land no farther away |
| `TdqModel.DistanceNeverGrows` | asgn2/kern/sched_ule.c:529-554 | a waiting thread's distance from the removal index never grows, whatever step is taken |
| `TdqModel.ChosenIsQueued` | asgn2/kern/sched_ule.c:1372-1408 | what is chosen is queued and meets the assertion on its priority |
| `TdqModel.NoneChosenIff` | asgn2/kern/sched_ule.c:1372-1408 | nothing is chosen exactly when no thread is queued |
| `TdqOrder.ChosenIsFirst` | asgn2/kern/sched_ule.c:1372-1408 | the chosen thread is queued, its turn comes no later than that of any queued thread (real-time queues in order, the calendar from the removal index round, the lottery, idle queues in order), and it heads its queue unless drawn |
| `TdqOrder.AddPlaces` | asgn2/kern/sched_ule.c:472-528 | a thread joins the real-time or idle queue of its priority over four, the calendar slot its share of 64 away, or at once if borrowing or preempted, or the head of the lottery; it goes to the head if preempted and else to the end; every other queue and thread stays |
| `TdqOrder.RemLeaves` | asgn2/kern/sched_ule.c:529-554 | just the thread leaves its queue, the gap closed, every other queue and thread staying |
| `TdqOrder.FirstStandsFirst` | asgn2/kern/sched_ule.c:472-528 | of two threads added in turn to one queue in the ordinary way the first stands before the second |
| `TdqOrder.CalendarReaches` | asgn2/kern/sched_ule.c:2442-2446 | the calendar turns: with the slots before it empty, a slot is reached after as many ticks as it is away |
| `TdqOrder.FullSlotHolds` | asgn2/kern/sched_ule.c:2442-2446 | while somebody waits in the slot of the removal index, only the insert index moves, by one |
| `TdqOrder.PriorityMoves` | asgn2/kern/sched_ule.c:1757-1805 | the priority becomes the new one; a queued thread of a better priority is taken out and put where a borrower of it goes, and any other keeps its place |
| `TdqModel.ReprioritisedKeeps` | asgn2/kern/sched_ule.c:1757-1805 | moving a queued thread to the queue of its new priority keeps the accounting |
| `Tdq.Cpu.InsertSlot` | asgn2/kern/sched_ule.c:497-510 | the slot computed in unsigned chars is the calendar slot |
| `Tdq.Cpu.RunqAdd` | asgn2/kern/sched_ule.c:472-528 | the thread joins the queue and slot of its priority and flags, user threads of the batch range the lottery, and the transferable count follows |
| `Tdq.Cpu.RunqRem` | asgn2/kern/sched_ule.c:529-554 | the thread leaves exactly the queue it names, and the removal index moves on when its slot empties |
| `Tdq.Cpu.ChooseThread` | asgn2/kern/sched_ule.c:1372-1408 | real-time, then calendar, then lottery, then idle; a crash exactly when it comes to the lottery and the draw crashes |
| `Tdq.NiceNeverCrashes` | asgn2/kern/kern_switch.c:462-478 | in a state of the invariant with no negative nice value no draw crashes |
| `Tdq.Cpu.Clock` | asgn2/kern/sched_ule.c:2442-2446 | the calendar tick |
| `Tdq.Cpu.AddThread` | asgn2/kern/sched_ule.c:2556-2571 | a thread arrives and is counted |
| `Tdq.Cpu.RemoveThread` | asgn2/kern/sched_ule.c:2631-2648 | a queued thread leaves and is no longer counted |
| `Tdq.Cpu.ChooseNext` | asgn2/kern/sched_ule.c:2508-2523 | the chosen thread leaves its queue and runs, its load staying; when the lottery crashes nothing has changed |
| `Tdq.Cpu.SwitchOut` | asgn2/kern/sched_ule.c:2039-2097 | the running thread is queued again, or blocks and takes its load with it |
| `Tdq.Cpu.ThreadPriority` | asgn2/kern/sched_ule.c:1757-1805 | a change of priority on this CPU |
| `CpuSearch.Search` | asgn2/kern/sched_ule.c:693-802 | returns the total of 256 times the loads less the bonus, each CPU once, and for either mode a CPU that is -1 exactly when none is eligible and else lies, level by level, in an item no worse than any other with an eligible CPU |
| `CpuSearch.SchedLowest` | asgn2/kern/sched_ule.c:832-846 | -1 exactly when no CPU of the group is in the mask, above the priority and within the limit; else one that is, in whose place at every level nothing weighs less, a group or CPU weighing 256 for each thread less 64 for the preferred CPU, nor does the best CPU of an equal |
| `CpuSearch.SchedHighest` | asgn2/kern/sched_ule.c:850-860 | the same for the highest load, of CPUs with a transferable thread |
| `CpuSearch.LightestInFlat` | asgn2/kern/sched_ule.c:776-787 | in a group without children, 256 times the load, less 64 if preferred, is no greater for the CPU found than for any other allowed one |
| `CpuSearch.HeaviestInFlat` | asgn2/kern/sched_ule.c:789-796 | and the load of the CPU found for the highest is no smaller |
| `CpuSearch.TotalWeighs` | asgn2/kern/sched_ule.c:750-774 | the totals compared are 256 for each thread less 64 for the preferred CPU |
| `Steal.RunqSteal` | asgn2/kern/sched_ule.c:1180-1203 | the first thread in priority order the thief may run |
| `Steal.RunqStealFrom` | asgn2/kern/sched_ule.c:1136-1175 | exactly which candidate is returned, the overwritten first one included |
| `Steal.TdqSteal` | asgn2/kern/sched_ule.c:1209-1221 | real-time, calendar, then idle queues; never the lottery |
| `Steal.StealSound` | asgn2/kern/sched_ule.c:1136-1221 | a stolen thread is queued on its CPU and the thief may run it |
| `Steal.StealNoneIff` | asgn2/kern/sched_ule.c:1136-1221 | nothing is stolen exactly when the thief may run no real-time thread, no idle thread, and no calendar thread past the first one met, or at it when it is the only one |
| `Steal.CalendarMissIff` | asgn2/kern/sched_ule.c:1136-1175 | a calendar thread the thief may run is missed, nothing being found there, exactly when it is the first met, is met once, and the thief may run none of the others queued with it |
| `Steal.CalendarMissWitness` | asgn2/kern/sched_ule.c:1136-1175 | a state of the invariant with two calendar threads of which the thief may run the first, and finds nothing |
| `Steal.LotteryMissWitness` | asgn2/kern/sched_ule.c:1209-1221 | a state of the invariant with a thread on the lottery queue the thief may run, and it finds nothing |
| `StealFirst.StealsFirst` | asgn2/kern/sched_ule.c:1180-1203 | the thread found on a queue is not pinned and has the thief in its CPU set, and no thread on an earlier queue, or before it on its own, is and has |
| `StealFirst.StealsPastFirst` | asgn2/kern/sched_ule.c:1136-1175 | on the calendar it is the first such behind the very first thread met from the removal index on, and failing that the first such on any slot |
| `StealFirst.StealsInTurn` | asgn2/kern/sched_ule.c:1209-1221 | real-time threads first, then the calendar, then idle threads |
| `Balance.MoveKeeps` | asgn2/kern/sched_ule.c:978-1007 | moving a thread keeps the accounting of both CPUs |
| `Balance.MoveCarries` | asgn2/kern/sched_ule.c:978-1007 | a move takes just the thread out of one CPU's queue, and puts it where a newcomer of its priority goes on the other, with its priority, niceness and owner; one load falls and the other rises by one |
| `Balance.BalancedMore` | asgn2/kern/sched_ule.c:950-972 | one more move from a more loaded CPU conserves the queued threads and the total load and raises neither the maximum load nor the sum of squares |
| `Balance.Machine.BalancePair` | asgn2/kern/sched_ule.c:950-1007 | moves the thread the low CPU would steal, exactly when the high CPU is more loaded, has transferable threads and one can be stolen; else nothing changes |
| `Balance.Machine.NextLow` | asgn2/kern/sched_ule.c:882-909 | ends; the CPU that takes a thread is the one sched_lowest prefers below the load of the giver, once those that could take none were passed over; or no less loaded CPU of the mask could, and whether there was none at all is told |
| `Balance.Machine.BalanceGroup` | asgn2/kern/sched_ule.c:862-910 | ends; the new CPUs are the outcome of a series of turns, each at the CPU the search for the highest load prefers as things then stand, among those not yet asked, giver or taker, and to the CPU the search for the lowest load prefers of those that can take; a thread moves whenever some CPU left could take one, and it stops only when nobody left has a thread to give or the last giver was no more loaded than anyone left; each CPU gives at most one thread, takes at most one and never both; queued threads and total load are conserved and neither the maximum load nor the sum of squares grows |
| `Priority.Score` | asgn2/kern/sched_ule.c:1540-1573 | the score is between 0 and 100 for all times and thresholds |
| `Priority.SleeperScoresLowIff` | asgn2/kern/sched_ule.c:1527-1563 | whoever slept longer than it ran scores at most half exactly when its run time is below 51 times a fiftieth of its sleep time, rounded down but at least 1 |
| `PriorityLaws.SleeperScore` | asgn2/kern/sched_ule.c:1540-1573 | a sleeper scores its run time counted in fiftieths of its sleep time |
| `PriorityLaws.RunnerScore` | asgn2/kern/sched_ule.c:1540-1573 | a runner scores half when the threshold is half or less, and else a hundred less its sleep time counted in fiftieths of its run time |
| `Priority.ShortSleeperScoresHigh` | asgn2/kern/sched_ule.c:1561-1563 | a run of 98 and a sleep of 99 score 98 |
| `Priority.ThrottledIff` | asgn2/kern/sched_ule.c:1632-1669 | the history comes back within its maximum exactly when the 32-bit sum did not wrap, or wrapped to something still far too big |
| `Priority.WrappedIsNotThrottled` | asgn2/kern/sched_ule.c:1632-1669 | a history whose 32-bit sum wraps round to 0 is left as it is, far beyond the maximum |
| `Priority.ThrottledKeepsOrder` | asgn2/kern/sched_ule.c:1632-1669 | throttling never reverses which of run and sleep time dominates |
| `PriorityLaws.ThrottlesExtremes` | asgn2/kern/sched_ule.c:1632-1669 | a history below five seconds is left alone; one above ten becomes five seconds of its larger part |
| `PriorityLaws.ThrottlesEvenly` | asgn2/kern/sched_ule.c:1632-1669 | in between both times lose a fifth, or half when the sum is more than a fifth too long |
| `Priority.InheritedIff` | asgn2/kern/sched_ule.c:1677-1692 | a forked thread starts with less than twice the fork limit exactly when the sum of its parent's times is an int |
| `PriorityLaws.InheritsShare` | asgn2/kern/sched_ule.c:1677-1692 | a child gets each of its parent's times counted in units of how many times too long the history is |
| `Priority.LongSleeperHandsOnAll` | asgn2/kern/sched_ule.c:1677-1692 | a sleep time of 2^31 is handed on whole |
| `Priority.UpdatedIff` | asgn2/kern/sched_ule.c:1729-1749 | ticks stay within the span and the span short of its maximum exactly when a running thread is updated in time |
| `PriorityLaws.TicksGrow` | asgn2/kern/sched_ule.c:1729-1749 | while the span fits eleven seconds all ticks are kept and a running thread gains those that went by |
| `PriorityLaws.TicksFade` | asgn2/kern/sched_ule.c:1729-1749 | when it does not, the old ticks are spread over what is left of ten seconds, losing less than a tick of that each, and the span is ten seconds |
| `PriorityLaws.TicksForgotten` | asgn2/kern/sched_ule.c:1729-1749 | after ten seconds the old ticks are forgotten |
| `Priority.LateUpdateOutgrows` | asgn2/kern/sched_ule.c:1729-1749 | a running thread not updated for the target and a tick is charged more than its span |
| `Priority.SpanStaysShort` | asgn2/kern/sched_ule.c:1729-1749 | the span stays short of its maximum whatever the ticks are |
| `Priority.PriTicksInRange` | asgn2/kern/sched_ule.c:147-169 | a bounded count gives at most the whole priority range, and the divisor is never 0 |
| `PriorityLaws.UseCounts` | asgn2/kern/sched_ule.c:147-169 | the share of the range that use takes is the ticks counted in a 32nd of the span, rounded up |
| `Priority.PriorityInRange` | asgn2/kern/sched_ule.c:1580-1625 | both priority assertions hold for every nice value and threshold |
| `Priority.RunnersAreBatch` | asgn2/kern/sched_ule.c:1594-1610 | at the default threshold a thread that ran at least as long as it slept is interactive only by negative nice |
| `PriorityLaws.NicerIsNoBetter` | asgn2/kern/sched_ule.c:1580-1625 | a greater nice value never gives a better priority |
| `PriorityLaws.UseIsNoBetter` | asgn2/kern/sched_ule.c:1580-1625 | nor does more use of the CPU over the same span |
| `PriorityLaws.BatchPriority` | asgn2/kern/sched_ule.c:1612-1621 | a batch priority is 172 and the nice value and the use, at most 31 |
| `PriorityLaws.InteractivePriority` | asgn2/kern/sched_ule.c:1604-1611 | at the default threshold an interactive priority is 120 and the score counted with the nice value |
| `Priority.History.InteractUpdate` | asgn2/kern/sched_ule.c:1632-1669 | the update in place is the throttling function |
| `Priority.History.InteractFork` | asgn2/kern/sched_ule.c:1677-1692 | the fork scaling in place, the sum a signed int |
| `Priority.History.PctcpuUpdate` | asgn2/kern/sched_ule.c:1729-1749 | the update on wrapping tick words is the one on true distances, for bounded and unbounded tick counts |
| `Priority.History.UserPri` | asgn2/kern/sched_ule.c:1580-1625 | the priority, always in one of the two ranges |
| `AofsDisk.FileChanged` | asgn4/aofs.c:241-361 | rewriting blocks of one file and free blocks only keeps a well-formed disk and every other file's chain, size and bytes |
| `AofsDisk.FileRemoved` | asgn4/aofs.c:469-484 | freeing a whole chain removes just that file |
| `AofsDisk.FilesUnique` | asgn4/aofs.c:258-274 | the disk determines its files: no chain has a second head and chains never meet |
| `AofsDisk.WalkIsChain` | asgn4/aofs.c:276-281 | following links from any block of a chain meets exactly the rest of it |
| `AofsDisk.ContentSplice` | asgn4/aofs.c:284-293 | overwriting bytes of one block overwrites the same bytes of the file |
| `AofsBitmap.FindFreeBit` | asgn4/aofs.c:57-69 | the least clear bit, or -1 when there is none |
| `AofsBitmap.SetBit` | asgn4/aofs.c:71-82 | sets that bit and no other, and tells whether it was clear |
| `AofsBitmap.ClearBit` | asgn4/aofs.c:84-95 | clears that bit and no other, and tells whether it was set |
| `AofsBitmap.BitWeighs` | asgn4/aofs.c:50-55 | the bit of a block is the one that weighs 2^(k % 8) in byte k / 8 |
| `Aofs.Image.constructor` | asgn4/aofs.c:97-117 | an image with no files and every block free |
| `Aofs.Image.AllocateBlock` | asgn4/aofs.c:199-223 | the least free block, now used and blank, or -1 exactly when the disk is full |
| `Aofs.Image.DeallocateBlock` | asgn4/aofs.c:225-239 | that block free and blank, its old link returned; negative numbers pass through |
| `Aofs.Image.DeleteChain` | asgn4/aofs.c:276-281 | ends on any disk with links in range, cycles included, and frees exactly the blocks met |
| `Aofs.Image.FindFileHead` | asgn4/aofs.c:258-274 | the head of the file's chain, or -1 exactly when there is no such file |
| `Aofs.Image.CreateFile` | asgn4/aofs.c:241-256 | one free block becomes the head of an empty file, or -1 on a full disk; for a fresh name other files are untouched, and for a name that is taken the result holds no set of files |
| `Aofs.TwoHeads` | asgn4/aofs.c:241-256 | no set of files is held by a disk on which a second head of a name was made |
| `Aofs.Image.DeleteFile` | asgn4/aofs.c:469-484 | exactly the file's chain is freed, or -ENOENT; other files untouched |
| `Aofs.Image.WriteToBlock` | asgn4/aofs.c:284-293 | as many bytes as fit are spliced in at the offset |
| `Aofs.Image.WriteBlocks` | asgn4/aofs.c:322-353 | the loop writes every byte and extends the chain by exactly the blocks needed, or comes to block number -1, exactly when the start lies beyond the chain or blocks are wanting |
| `Aofs.Image.FillBlock` | asgn4/aofs.c:326-352 | a turn fills the block in hand as far as it goes, links the next or a fresh one, and tells when there is none |
| `Aofs.Image.WriteFile` | asgn4/aofs.c:295-361 | a write is a splice at min(offset, size) into the old bytes extended by zeroed blocks; the old chain stays a prefix, exactly the missing blocks are allocated, the size becomes start plus length, and no other file changes; it comes to block number -1 exactly when `MayWrite` fails, up to where it has kept the other files |
| `AofsWrite.WriteAfterCreate` | asgn4/aofs.c:302-306 | creating the file first and then writing is one splice into an empty file |
| `AofsWrite.WriteKeepsSizeIff` | asgn4/aofs.c:308-314 | a write leaves the greater of the old size and its own end exactly when it does not end inside the file |
| `AofsWrite.WriteInside` | asgn4/aofs.c:295-361 | after a write at an offset inside the file or at its end, the bytes from the offset on are those written, every other old byte is as it was, bytes of added blocks are zero, and the size is the offset and the number written |
| `AofsWrite.WriteBeyond` | asgn4/aofs.c:308-313 | after a write at an offset beyond the end the same holds at the old size |
| `AofsWrite.WriteNew` | asgn4/aofs.c:302-313 | a write to a file that was not there makes one of just those bytes, whatever the offset |
| `Aofs.Image.TruncateFile` | asgn4/aofs.c:486-576 | crossing a block boundary downwards keeps the bytes below the size, zeroes the kept block's tail and frees exactly the other blocks; otherwise the old bytes stay and the counted zeroed blocks are chained on; a full disk leaves size and bytes and every free block chained |
| `Aofs.Image.ShrinkChain` | asgn4/aofs.c:514-546 | the chain cut after the kept block |
| `Aofs.Image.GrowChain` | asgn4/aofs.c:547-570 | blocks chained on at the end, one by one |
| `AofsTruncate.CutBytes` | asgn4/aofs.c:514-546 | cutting a chain keeps the bytes up to the cut and zeroes the rest of its block |
| `AofsTruncate.CutSpace` | asgn4/aofs.c:514-546 | and frees exactly the blocks after it |
| `AofsTruncate.TruncateFits` | asgn4/aofs.c:503-509 | the chain fits the new size exactly when it was cut, had a block beyond its whole blocks, or the size is whole blocks |
| `AofsTruncate.ShrinkZeroes` | asgn4/aofs.c:510-520 | bytes beyond a smaller size are zero exactly when a boundary was crossed or they were zero |
| `AofsTruncate.GrowPads` | asgn4/aofs.c:547-570 | bytes up to a larger size are zero exactly when the old chain's were |
| `AofsRuns.StepFits` | asgn4/aofs.c:241-576 | an operation keeps every chain long enough for its file's size exactly when it is not a growing truncate of a chain without spare block |
| `AofsRuns.RunFits` | asgn4/aofs.c:199-576 | so does every run from an empty disk up to the first such truncate |
| `AofsRuns.OneByteTooMany` | asgn4/aofs.c:503-509 | a one-block file grown by a byte has no block for it |
| `AofsRuns.OneByteRun` | asgn4/aofs.c:295-576 | an image on which that happens, with the run from an empty disk that leads to it |
| `AofsRuns.NextWriteIsLost` | asgn4/aofs.c:316-323 | the next write at the end of that file comes to block number -1 |
| `AofsRuns.FitsNeedsRoomOnly` | asgn4/aofs.c:316-335 | while a chain fits its size, a write comes to block number -1 only for want of free blocks |
| `AofsRuns.OldByteComesBack` | asgn4/aofs.c:510-520 | a byte cut off and grown back is the old byte |
| `AofsRuns.OldByteRun` | asgn4/aofs.c:295-576 | an image on which that happens, with the run from an empty disk that leads to it |
| `AofsRuns.Serve` | asgn4/aofs.c:241-576 | what an image does for a request is the step of a run that the request stands for, or nothing when there is no such file or no block for a new one |
| `AofsRuns.Continue` | asgn4/aofs.c:241-576 | whatever is asked of an image, its states go on being a run |
| `Aofs.Image.ReadFile` | asgn4/aofs.c:365-467 | for every size and offset, the buffer and count are exactly those of the copy loop on the file's bytes; the disk keeps its files |
| `Aofs.Image.CopyRange` | asgn4/aofs.c:419-467 | the copying from the first block on, ends of chain included |
| `AofsRead.ReadInOrderIff` | asgn4/aofs.c:365-467 | a range comes out in order for every file and buffer exactly when it meets the stated guard |
| `AofsRead.RightIsInOrder` | asgn4/aofs.c:365-467 | a range that meets the guard comes out in order |
| `AofsRead.WrongIsOutOfOrder` | asgn4/aofs.c:435-460 | for any other range, a file and buffer for which it does not |
| `AofsRead.ReadBack` | asgn4/aofs.c:295-467 | what was written is what a read of a range inside it that meets the guard finds |
| `AofsRead.ReadBackAt` | asgn4/aofs.c:295-467 | what a write inside a file put at its offset is what a read of a range inside that meets the guard finds |
| `AofsRead.StaysWithinIff` | asgn4/aofs.c:395-460 | the copying stays within the bytes asked for exactly when the file ends before the range, or the range is not empty and lies in one block, starts on one, or goes on far enough beyond the chain |
| `AofsRead.OverrunWitness` | asgn4/aofs.c:435-460 | a block's worth of bytes from byte 1 of a file of two blocks needs two bytes more of buffer |
| `AofsRead.RoomIsWritten` | asgn4/aofs.c:429-460 | the reach is exact: its last place is written |
| `AofsRead.BytesReadIs` | asgn4/aofs.c:395-467 | the count is the range cut off at the end of the chain; for an empty range at the start of a block it is the whole rest of the chain |
| `AofsRead.ReadsPastEndIff` | asgn4/aofs.c:395-467 | a read reports more than is left of the file exactly when it asks for more, or is such an empty one, and the chain goes on |
| `AofsRead.EmptyMore` | asgn4/aofs.c:398 | the blocks an empty range at the start of a block is taken to touch: 2^64 - 1 over the block size, as an int |

## Left out

- AOFS: time stamps, ownership fields and access times; the FUSE callbacks, the disk file and its records (`read_block` and `write_block` are array access); directory entries.
- Aofs.Image.WriteFile: stops where the code comes to block number -1, whose record overlaps the superblock; what it does to the bitmap from there on is left out. The read of block -1 after the last block of a write is dead and left out, as are names longer than the field and sizes beyond an int.
- Aofs.Image.WriteBlocks: stops there too.
- Aofs.Image.ReadFile: the buffer has the `Room` bytes the copying reaches, beyond which memory is not modelled; size_t has 64 bits, block counts of other ranges fit an int, and negative offsets are not modelled.
- Aofs.Image.CopyRange: likewise.
- AofsRuns.Continue: asks for a fresh name to create and for `MayWrite`, since beyond these the disk holds no files any more.
- BusyLockRuns.BusyLockSafe: the memory model (steps are sequentially consistent), sleep priorities and timeouts; the page lock is one lock for the page.
- PageDaemon.Domain.Scan: object reference counts, the dead flag, trylock results and hardware dirty bits are arbitrary choices, recorded in `Choices`; the statistics loop and message at the start, the laundry wakeup and the out-of-memory vote at the end are left out; drawing the id and inserting the page are one step.
- PageDaemon.Domain.Requeue: on the laundry queue only, the only queue it is called on.
- Pages of fictitious memory, act_count and per-CPU counters are left out of the queue operations; the laundry thread itself is not modelled.
- Cluster.Object.Gather: pages do not change while the cluster is gathered, except that dirty bits are refreshed; write protection and the flush are left out.
- ScanContig.Scan: a page's state is read once (the retry when its object changes is left out); alignments go up to 2^43, the region and the boundary fit the address space, runs are below 2^31 pages (the code counts them in an int), and the build has no reservations.
- ObjectList.VmObject.LookupGe: the radix tree is a finite map with a search over its keys; vnode holds, busy state and dirty flags of inserted pages are left out.
- RunQueue: runq_choose_fuzz and statistics.
- RunQueue.Runq.LotteryChoose: the draw is a parameter, and the total of tickets fits an int.
- Tdq and TdqModel: run-queue operations are atomic under the queue lock; preemption, IPIs, time slices, tdq_lowpri (a heuristic that samples a random thread) and choosing a CPU for a woken thread are left out; threads are values in a map.
- TdqModel.ReprioritisedKeeps: the thread is queued again on its own CPU; where sched_pickcpu would send it is not modelled.
- Tdq.Cpu.ThreadPriority: likewise.
- Tdq.Cpu.SwitchOut: switching to another CPU through the migration path is left out.
- CpuSearch.Search: the random part of a load is an arbitrary choice, and totals do not overflow an int.
- Balance.Machine.BalanceGroup: no other CPU interferes during one call, and the CPUs fit a cpuset of 256.
- Priority.History: the values of sys/priority.h, which is not in the repository, are those of FreeBSD 11.2; clock rates are between 2 and 190000 (at 1 the fork limit is 0 and the code divides by it; beyond, the scaled constants leave an int); ts_ticks itself is not bounded by a word when a thread is updated late.
- The shell of `asgn1`, benchmarks and stress programs: process and I/O code.
