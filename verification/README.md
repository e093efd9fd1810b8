# A verified model of xv6 (lab2)

This project models the parts of the xv6 kernel and user code under `lab2/` whose
correctness is hard to see, and proves what they are for.

* **Storage.** `log.c` is a redo log with group commit. It is modelled as a step machine,
  in which operations of several processes interleave and a crash may come between any two
  single-block disk writes, and it is proved to refine an atomic store. The methods of
  class `Log` are the code's loops, each proved to be a run of the machine. `bio.c` over
  `memide.c` is a cache with a doubly linked ring, proved to stand for a plain disk, and over
  runs of interleaved calls never to take a buffer from someone who has it.
  `fs.c` is modelled on bytes: the bits of the free map, little-endian words of indirect
  blocks, inodes of 64 bytes; `file.c` splits writes into transactions. Any number of
  processes may have inodes locked, and their steps interleave. `FsKernel` puts this on the
  log, with crashes, and shows what recovery finds: a file system in order, and of a file that
  was being written a whole number of chunks. `mkfs.c` makes the first volume, with its files.
* **Memory.** `vm.c` and `kalloc.c` work on physical frames: the free list runs through
  the first words of free frames, and directories and tables are frames of words. What the
  user reads is stated address by address, and a call fails exactly when there are too few
  frames for it. `umalloc.c` is the allocator of Kernighan and Ritchie, on headers in user
  memory.
* **Scheduling.** The feedback queue of `proc.c`, level by level over whole runs, and the
  lottery.
* **Blocking.** sleep and wakeup of `proc.c`, one theorem for all code that uses them with
  a spinlock, and its instances `pipe.c`, `sleeplock.c` and `begin_op`; what these are for
  (one holder, no operation during a commit, no byte lost) is counted from the steps of runs.
* **Language.** The parser of `sh.c` and the matcher of `grep.c`.

## How it is built

Code that changes things in place is a class or a method with loops. Its contract ties the
new state to a function of the old one, and the theorems are lemmas about these functions.
The files come in layers: a model (`LogMachine`, `FsModel`, `VmModel`, `CacheModel`,
`SchedMachine`, `ShellSyntax`), the proofs about it, and the methods (`Log`, `Fs`, `Vm`,
`Bio`, `Sched`, `Shell`, `Mkfs`). Machines of interleaved steps stand beside them, with their
theorems over whole runs: `LogProofs`, `CacheRuns`, `SchedRuns`, `SchedLevels`, `Waiting`,
`WaitRuns`, `FsRuns`, `FsCrash`, `FsVersions`.
The methods are tied to them: those of `Log` are runs of the log machine, and those of `Fs`
report their steps in the machine of interleaved holders (`FsSteps`, `FsTraces`).

Where a method works under a large invariant, the invariant is *locked*: it is written as
`forall x :: Key(x) ==> ...`, with a predicate `Key` that is always true (module `Sealing`, which
has more of the kind). A proof that needs the contents states `Key(0)`; a method that only hands
the invariant on does not, and stays cheap to verify. The lemmas `OkIs`, `WroteIs`, `EmptiedIs`,
`CopyIs`, `FreedIs`, `FramesConserved`, `ShrunkReads`, `GrownReads` and `CopiedReads` say what the
locked predicates mean.

Ghost parameters of methods (the set `H` of frames in hand, the process slot `p` of a log
operation) name what the running code already holds; they do not exist in the source.

A `panic` is a forbidden exit: where the source can reach one, a precondition excludes it, or
the method returns it as an outcome of its own (a full disk in `Balloc` and what calls it, a full
log in `LogWrite`).

## What is not true of the code

* The log region that `mkfs.c` makes has LOGSIZE blocks, one of them the header. log_write
  tests the size before it takes the lock. Two operations can pass the test together and
  outgrow the region (`LogRegion.Overflows`); it is safe exactly when the region has more than
  LOGSIZE blocks (`LogRegion.RegionSafeIff`).
* For the same reason log_write may refuse an operation that has not spent its reservation,
  again exactly when the region has at most LOGSIZE blocks (`LogRegion.NeverRefusedIff`).
* log_write refuses to rewrite a block that is already logged once the log is full, although
  that needs no room (`LogRegion.AbsorbedWriteRefused`).
* malloc of more than 2^32 - 8 bytes returns a block that is too small
  (`Umalloc.UnitsSuffice`), and one of 2^31 - 15 to 2^32 - 8 bytes calls sbrk with an argument
  that is not positive (`Umalloc.WildIff`).
* The feedback queue does not always run the highest runnable priority
  (`SchedRuns.HighestNotAlwaysRun`); `SchedRuns.HighestRunsIff` says when it does.
* A writer that was killed leaves a full pipe without a wakeup, and a reader may sleep on
  although there is something to read (`Waiting.KilledWriterForgets`, `Waiting.NoLostWakeupIff`).
* mkfs rounds the size of the root directory up to the next block, also when it fills its last
  one exactly. The directory then has a hole: exactly when the number of its entries is a
  multiple of 32 (`MkfsMain.Make`, `MkfsMain.HoleInRoot`).
* A write by filewrite that would pass the largest file is not refused as a whole: the chunks
  before the one that does not fit are written, and the result is -1
  (`FileWrite.OpenFile.Filewrite`, `FileWrite.CutShortIff`, `FileWrite.CutShort`).
* The parser of `sh.c` has a case of its own for `>>`, but both open the file alike: every input
  parses as it would with `>` (`ShellTwins.AppendIsOverwrite`).

## Model

| member | source | states |
|---|---|---|
| `LogMachine.WithHead` | lab2/log.c:84-113 | the header that write_head writes is read back by read_head: the same count and the same block numbers, whatever the block held before |
| `LogMachine.ImageAt` | lab2/log.c:68-82 | the image that recovery would yield, block by block: a block listed in the header comes from its log slot, any other from home |
| `LogMachine.ReservedBounds` | lab2/log.c:125-141 | the log space that outstanding operations may still use lies between 0 and outstanding times MAXOPBLOCKS |
| `LogProofs.BeginRefines` | lab2/log.c:125-141 | an admitted operation keeps the reservation rule: logged blocks plus unused reservations are at most LOGSIZE |
| `LogProofs.CheckRefines` | lab2/log.c:218-221 | the unlocked test of log_write changes nothing that the atomic store can see |
| `LogProofs.WriteKeepsReservation` | lab2/log.c:213-233 | an absorbed or a new block is paid for by its operation's reservation, so lh.n never passes LOGSIZE |
| `LogProofs.WriteRefines` | lab2/log.c:213-233 | log_write keeps the invariant and is one pending write of the atomic store |
| `LogProofs.EndRefines` | lab2/log.c:145-163 | end_op keeps the invariant; only the last operation out starts a commit |
| `LogProofs.LogBlockWriteRefines` | lab2/log.c:176-190 | a write of a log block before the commit point leaves the image alone |
| `LogProofs.HeadWriteRefines` | lab2/log.c:192-198 | the first write_head of commit moves every pending write into the image at once |
| `LogProofs.InstallWriteRefines` | lab2/log.c:68-82 | installing one block leaves the image alone |
| `LogProofs.HeadClearRefines` | lab2/log.c:198-202 | clearing the header leaves the image alone once every block is home |
| `LogProofs.CrashRefines` | lab2/log.c:115-122 | a crash at any moment keeps the image and drops exactly the pending writes |
| `LogProofs.ReadHeadRefines` | lab2/log.c:84-96 | reading the header after a crash leaves the image alone |
| `LogProofs.RecoverWriteRefines` | lab2/log.c:68-82 | a write of recovery leaves the image alone, so recovery may itself be interrupted and started again |
| `LogProofs.RecoverClearRefines` | lab2/log.c:115-122 | the last write of recovery leaves the image alone |
| `LogProofs.Refines` | lab2/log.c:68-233 | forward simulation: every enabled step of the interleaved machine is the same step of an atomic store, and keeps the invariant, as long as the log region holds the log |
| `LogProofs.RunRefines` | lab2/log.c:68-233 | the same for whole runs, with crashes anywhere and any number of times |
| `LogProofs.StoreImage` | lab2/log.c:176-202 | the image of the atomic store is the first image under the committed transactions, in order |
| `LogProofs.Durable` | lab2/log.c:68-122 | at every moment of every run the recovered disk is the first image under a whole number of committed transactions, none lost and none split |
| `LogProofs.ReadsLatest` | lab2/log.c:204-233 | while operations run, a read sees the image under the pending writes |
| `LogProofs.CommittingMeansNoneOutstanding` | lab2/log.c:150-157 | committing implies outstanding == 0, so the panic in end_op is unreachable |
| `LogProofs.RefusedHasWaker` | lab2/log.c:125-141 | a begin_op that has to wait has someone to wake it: a commit under way or another operation that is outstanding; an idle log is empty |
| `LogProofs.OperationNotSplit` | lab2/log.c:124-174 | between the begin_op and the end_op of an operation there is no commit point, unless the machine crashes: its writes go to one transaction |
| `LogProofs.LargeRegionFits` | lab2/log.c:213-233 | a log region of more than LOGSIZE blocks holds the log in every state of every run |
| `LogRegion.Overflows` | lab2/log.c:213-233 | with a region of at most LOGSIZE blocks, a run in which two operations pass the unlocked test and then both append outgrows the region |
| `LogRegion.RegionSafeIff` | lab2/log.c:213-233 | for three or more processes and a disk with LOGSIZE home blocks: the region is large enough in every run if and only if it has more than LOGSIZE blocks |
| `LogRegion.RefusedOnlyWhenSpent` | lab2/log.c:218-219 | with a region of more than LOGSIZE blocks, log_write refuses only when the operation has used its whole reservation |
| `LogRegion.RefusedInSmall` | lab2/log.c:218-219 | with a region of at most LOGSIZE blocks, a run in which an operation is refused before it has spent its reservation |
| `LogRegion.NeverRefusedIff` | lab2/log.c:218-219 | for three or more processes: no operation with reservation left is refused in any run if and only if the region has more than LOGSIZE blocks |
| `LogRegion.AbsorbedWriteRefused` | lab2/log.c:218-219 | it then refuses even a rewrite of a block already logged, which would need no room |
| `Log.ImageKept` | lab2/log.c:115-122 | without a commit point the image stays; recovery is idempotent |
| `Log.CommittedByPrefix` | lab2/log.c:192-202 | of the 2n + 2 disk writes of commit, write number n, counting from 0, is the commit point |
| `Log.CrashAtomic` | lab2/log.c:176-202 | stop commit between any two of its disk writes: recovery yields the whole old image up to the header write, and the whole new one after it |
| `Log.Log.WriteLog` | lab2/log.c:176-190 | the loop is a legal run of the step machine, one machine step for each disk write |
| `Log.Log.InstallTrans` | lab2/log.c:68-82 | likewise, called from commit or from recovery |
| `Log.Log.WriteHead` | lab2/log.c:98-113 | exactly the header block changes on disk, to the count and the numbers of the list |
| `Log.Log.ReadHead` | lab2/log.c:84-96 | the list in memory becomes the list on disk |
| `Log.Log.WriteTransaction` | lab2/log.c:195-197 | the log blocks and the write that commits, as a run of the machine |
| `Log.Log.EraseTransaction` | lab2/log.c:198-200 | the installation and the write that erases the transaction, as a run of the machine |
| `Log.Log.Commit` | lab2/log.c:192-202 | the home blocks become the old image under the whole transaction, by the 2n + 2 writes of the step machine |
| `Log.Log.RecoverFromLog` | lab2/log.c:115-122 | the home blocks become the image that the log stands for, and the log is empty |
| `Log.Log.BeginOp` | lab2/log.c:124-141 | admission exactly when no commit runs and the worst case of one more operation fits; otherwise nothing changes |
| `Log.Log.FindBlock` | lab2/log.c:223-228 | the place of the block in the list, or its end |
| `Log.Log.LogWrite` | lab2/log.c:213-233 | refuses exactly when there is no room, and then changes nothing; otherwise the list gains the block at most once, and the store one pending write |
| `Log.Log.CommitLast` | lab2/log.c:165-173 | the last operation out leaves an empty log and everything at home |
| `Log.Log.EndOp` | lab2/log.c:143-174 | the last operation out commits everything; another only gives its reservation back |
| `LruRing.UnlinkOk` | lab2/bio.c:132-133 | taking a buffer out leaves a doubly linked ring of the others, in the same order |
| `LruRing.PushOk` | lab2/bio.c:50-54 | the four assignments put a buffer first on the ring |
| `CacheProofs.ReferOk` | lab2/bio.c:69-75 | one more reference keeps the invariant |
| `CacheProofs.HitOk` | lab2/bio.c:69-75 | a hit gives the buffer of that block and changes nothing but its count |
| `CacheProofs.RecycleOk` | lab2/bio.c:81-90 | giving an unreferenced clean buffer to another block keeps the invariant, and the disk has the latest contents of that block |
| `CacheProofs.LockOk` | lab2/bio.c:74-90 | a referenced buffer can be locked with the invariant kept |
| `CacheProofs.FillOk` | lab2/memide.c:54-59 | a read makes the buffer show the latest contents of its block |
| `CacheProofs.FlushOk` | lab2/memide.c:54-59 | a write makes the disk show the latest contents of the block |
| `CacheProofs.MarkDirtyOk` | lab2/log.c:228-231 | setting B_DIRTY keeps the invariant |
| `CacheProofs.ChangeOk` | lab2/bio.c:95-116 | a change by the holder of the buffer is the only change of the contents that the cache stands for |
| `CacheProofs.UnreferOk` | lab2/bio.c:118-141 | releasing a buffer that is dirty or as on disk keeps the invariant, with other holders left or not |
| `CacheProofs.ToFrontOk` | lab2/bio.c:130-138 | the last release makes the ring a permutation of all buffers again, ordered by the time of release |
| `CacheProofs.ReleaseOk` | lab2/bio.c:118-141 | both cases of a release: other holders remain and the buffer stays where it is, or it moves to the front |
| `CacheProofs.LastIsOldest` | lab2/bio.c:81-90 | the last eligible buffer on the ring is the one released longest ago |
| `CacheProofs.VictimOk` | lab2/bio.c:78-91 | bget recycles the least recently released buffer that is neither referenced nor dirty |
| `Bio.Lookup` | lab2/bio.c:68-76 | finds the buffer of the block, or shows that no buffer has it |
| `Bio.FindVictim` | lab2/bio.c:78-91 | the first eligible buffer from the tail, or none is eligible |
| `Bio.MoveFirst` | lab2/bio.c:132-137 | the six pointer assignments take a buffer out and put it first |
| `Bio.LinkAll` | lab2/bio.c:45-55 | binit makes a ring of all buffers |
| `CacheProofs.InitialOk` | lab2/bio.c:38-56 | the cache after binit satisfies the invariant and stands for the disk |
| `Bio.Bcache.Hit` | lab2/bio.c:69-75 | bget when the block is cached: the buffer of the block has one user more, and no other buffer changes |
| `Bio.Bcache.Reuse` | lab2/bio.c:81-90 | bget when it is not: the buffer released longest ago had no user, and now has the block and one |
| `Bio.Bcache.Bget` | lab2/bio.c:58-93 | the buffer of the block has one user more; else the buffer released longest ago takes the block; else none, where the kernel panics. The count is the number of users, and a buffer that has one keeps its block and data |
| `Bio.Bcache.Iderw` | lab2/memide.c:35-60 | disk and buffer agree afterwards, and the contents that the cache stands for have not changed |
| `Bio.Bcache.Bread` | lab2/bio.c:95-106 | returns a locked buffer with the latest contents of the block and one user more; fails exactly when the block is not cached and no buffer is eligible |
| `Bio.Bcache.Modify` | lab2/bio.c:95-116 | the holder's change is a change of that one block of the plain disk |
| `Bio.Bcache.Dirty` | lab2/log.c:228-231 | marks the buffer and changes no contents |
| `Bio.Bcache.Bwrite` | lab2/bio.c:108-116 | the disk gets the buffer's contents at that block only |
| `Bio.Bcache.Brelse` | lab2/bio.c:118-141 | one user less, by count; the buffer is unlocked, with the same block and data; the last release puts it first; no other buffer changes |
| `Bio.Bcache.constructor` | lab2/bio.c:38-56 | an empty cache that stands for the disk |
| `CacheRuns.CallEffect` | lab2/bio.c:58-141 | one call: the count of a buffer goes up by one in a bget of it, down by one in a brelse of it, and not otherwise; its block changes only in a bget that finds it unreferenced |
| `CacheRuns.BrelseIsTwo` | lab2/bio.c:120-141 | brelse is two calls, giving up the sleep lock and then the rest, between which others may come in |
| `CacheRuns.RefcntCounts` | lab2/bio.c:66-141 | in every state of every run of interleaved calls the reference count of a buffer is the number of bgets that returned it less the number of brelses |
| `CacheRuns.RecycledOnlyUnused` | lab2/bio.c:78-91 | in every run a buffer changes its block only in a bget that finds it without users |
| `CacheRuns.HeldIsKept` | lab2/bio.c:58-141 | in every run a process has, from its bget to its last brelse, a buffer that holds the block it asked for, whatever others do |
| `CacheRuns.SameBuffer` | lab2/bio.c:68-76 | meanwhile every other bget returns that buffer if and only if it is for that block, so all users of a block meet at one sleep lock |
| `FsBytes.WordBack` | lab2/fs.c:389-394 | a word written into a block is read back, and no other word of it changes |
| `FsBytes.BitBack` | lab2/fs.c:65-68 | setting or clearing a bit by its mask is read back, and no other bit of the block changes |
| `FsModel.InodeBack` | lab2/fs.c:220-236 | iupdate and the read of ilock are inverse, and the other inodes of the block do not change |
| `FsProofs.OtherFile` | lab2/fs.c:372-511 | an operation on one inode leaves every other file the same bytes |
| `FsProofs.ReserveOk` | lab2/fs.c:64-71 | marking a block for which the bit was clear: it was not 0 and not referenced, by an inode in memory or on disk; no file changes |
| `FsProofs.WipeOk` | lab2/fs.c:43-51 | zeroing a block that is marked and not yet referenced changes no file |
| `FsProofs.AllocOk` | lab2/fs.c:56-78 | a newly allocated block is not 0 and was not referenced; the ownership invariant and every file are kept |
| `FsProofs.AttachOk` | lab2/fs.c:378-388 | a zeroed block in place of a missing reference changes no byte of the file |
| `FsProofs.AttachEntryOk` | lab2/fs.c:389-394 | the same for an entry of the indirect block |
| `FsProofs.PokeOk` | lab2/fs.c:498-504 | writing into one block changes exactly those bytes of this file |
| `FsProofs.SyncOk` | lab2/fs.c:220-236 | iupdate makes disk and memory agree and keeps ownership and contents |
| `FsProofs.DetachOk` | lab2/fs.c:414-419 | a direct block that is given up had this inode and slot as its only owner; other files are the same |
| `FsProofs.DetachTreeOk` | lab2/fs.c:421-431 | the same for the indirect block with everything it lists |
| `FsProofs.FreeOk` | lab2/fs.c:80-95 | a block given up was marked, so bfree does not panic, and only its mark changes |
| `FsProofs.MarksAreReferences` | lab2/fs.c:56-95 | the set bits of the free map are exactly the metadata blocks, the blocks in hand and the blocks that inodes reference, where a locked inode counts as it is in memory |
| `FsProofs.NoSharing` | lab2/fs.c:372-400 | no block is referenced twice, counting every locked inode as it is in memory |
| `FsProofs.RelockOk` | lab2/fs.c:286-312 | once the inode is on disk, any inode that no other process has locked can be locked in its place with the whole invariant |
| `FsCost.LogStep` | lab2/fs.c:498-504 | the set of logged blocks grows exactly by the data block, its bitmap block, the indirect block and its bitmap block, each only where it changes |
| `FsCost.ChunkFits` | lab2/file.c:126-145 | a chunk of filewrite at any offset, with every allocation in a different bitmap block, logs at most MAXOPBLOCKS distinct blocks |
| `FsWrite.NewBlockOk` | lab2/fs.c:378-388 | balloc and the store of the reference: one reference is new, no file changes |
| `FsWrite.NewEntryOk` | lab2/fs.c:389-394 | the same in the indirect block |
| `FsWrite.MapDirect` | lab2/fs.c:377-383 | bmap of a direct block logs exactly the block and its bitmap block |
| `FsWrite.MapEntry` | lab2/fs.c:385-397 | bmap of a listed block logs exactly the block, its bitmap block and the indirect block |
| `FsWrite.MapBoth` | lab2/fs.c:385-397 | bmap with a new indirect block: the file's bytes are the same, one reference is new, and the log has exactly the four blocks |
| `FsWrite.ProgressPoke` | lab2/fs.c:498-504 | one turn of the loop of writei, with the exact set of blocks logged so far |
| `FsWrite.StillNoHoles` | lab2/fs.c:481-511 | a write at most at the end of a file without holes leaves a file without holes |
| `FsWrite.BytesInBlock` | lab2/fs.c:469-474 | the bytes readi copies from one block are those of the file at that offset |
| `FsWrite.WrittenInside` | lab2/fs.c:506-511 | a write inside the file allocates nothing, so the inode on disk is still right although iupdate is not called |
| `FsWrite.WrittenPast` | lab2/fs.c:506-511 | a write past the end leaves the inode in memory equal to the one on disk, and no holes |
| `FsWrite.WrittenTwice` | lab2/fs.c:481-511 | two adjacent writes are one write of the joined bytes |
| `FsWrite.WriteiFits` | lab2/file.c:126-145 | the same bound between the states before and after a writei on a file without holes |
| `FsTrunc.PruneStep` | lab2/fs.c:424-427 | one entry of the indirect block is given back, or there is none |
| `FsTrunc.DropSome` | lab2/fs.c:414-419 | one direct block of itrunc: it was marked, and it alone is given back |
| `FsTrunc.DropTree` | lab2/fs.c:428-431 | after its entries, the indirect block itself was still marked and is given back |
| `FsTrunc.TruncatedOk` | lab2/fs.c:407-435 | itrunc clears exactly the marks of the inode's direct, indirect and indirectly listed blocks |
| `FsLocked.OkIs` | lab2/fs.c:56-95 | the invariant of the methods is the ownership invariant |
| `FsRuns.ChangedOk` | lab2/fs.c:372-511 | every step of a holder of an inode keeps the ownership invariant and every other file |
| `FsRuns.ChangedContent` | lab2/fs.c:481-511 | of the steps that do not truncate, only a write of bytes changes the bytes of the file |
| `FsRuns.StepOk` | lab2/fs.c:286-345 | with any number of inodes locked by different processes, each with references not yet on disk: every step of every holder keeps the invariant of the whole |
| `FsRuns.OthersUnseen` | lab2/fs.c:286-345 | a step of one holder leaves the inode and the bytes of every other file as they were, locked or not |
| `FsRuns.RunOk` | lab2/fs.c:286-511 | the invariant holds in every state of every interleaving |
| `FsRuns.MarksAreReferences` | lab2/fs.c:56-95 | in every state of every interleaving a block is marked if and only if it is metadata, referenced, or in the hand of a holder, and never two of these |
| `FsRuns.NeverShared` | lab2/fs.c:372-400 | in every state of every interleaving no block is referenced twice, by one inode or by two, in memory or on disk |
| `FsRuns.QuietDisk` | lab2/fs.c:56-95 | with no inode locked, the marks on disk are exactly the references on disk |
| `FsRuns.DiskStep` | lab2/fs.c:194-213 | ialloc, and the end of iput, keep the invariant of the whole; an inode that is locked is never free on disk |
| `FsRuns.FreeOwnsNone` | lab2/fs.c:331-345 | in every state of every interleaving a free inode has no bytes and owns no block |
| `FsRuns.ContentRun` | lab2/fs.c:481-511 | in every interleaving the bytes of a file are changed by the writes of its own holder alone, in their order |
| `FsRuns.SizeRun` | lab2/fs.c:506-509 | so is its size |
| `FsRuns.UnlockedOk` | lab2/fs.c:286-312 | a volume that is in order with nothing in hand, in which no free inode owns a block, can start such a run |
| `FsSteps.MethodIsRun` | lab2/fs.c:372-511 | what a method of fs.c reports as its steps is a run of this machine, from any state of the whole that the process sees as the old volume to one that it sees as the new one |
| `FsSteps.DestroyIsRun` | lab2/fs.c:331-345 | so is iput of an inode without links: afterwards the inode is free on disk |
| `FsTraces.ClaimIs` | lab2/fs.c:194-213 | so is ialloc: it never takes an inode that is locked |
| `FsKernel.AsWordsInjective` | lab2/log.c:176-190 | blocks of bytes and the blocks of words that the log copies are the same thing |
| `FsKernel.OneBlock` | lab2/fs.c:372-511 | each step of fs.c changes the one block that it gives to log_write, and never a block of the log |
| `FsKernel.CommitOk` | lab2/log.c:192-202 | at the commit point no inode is locked, and what recovery will find is the file system of this moment |
| `FsKernel.KernelStep` | lab2/log.c:40-233 | steps of the file system inside operations, of the log and of recovery, and crashes, keep the file system that the kernel sees and the one that recovery would find in order |
| `FsCrash.KernelRunOk` | lab2/log.c:40-233 | so does every run |
| `FsCrash.StableIsPast` | lab2/log.c:115-122 | what recovery finds is the file system as it was at the last commit |
| `FsCrash.CrashConsistent` | lab2/log.c:115-122 | at every moment of every run of interleaved operations, with crashes anywhere, recovery yields a file system in which marks are references and no block is shared, with nothing locked and nothing in hand |
| `FsCrash.FreeAfterCrash` | lab2/log.c:115-122 | after a crash anywhere and recovery, a free inode has no bytes and owns no block |
| `FsCrash.StartOk` | lab2/log.c:49-62 | a recovered log over a file system in order starts such a run |
| `FsVersions.OwnEffect` | lab2/fs.c:481-511 | whatever runs in between, an operation does to its file what its own steps say |
| `FsVersions.FileAfterCrash` | lab2/log.c:115-122 | the file that recovery finds is the one that a whole number of its operations have made, those complete at the last commit |
| `FsVersions.ProgramWrites` | lab2/file.c:140-149 | the hypothesis of that follows from the steps of the operations alone |
| `FsVersions.WholeOperations` | lab2/file.c:140-149 | so for operations of any kind that do not truncate: old or new, never a part of one |
| `FsChunks.WriteiIsOperation` | lab2/fs.c:481-511 | the steps of writei are such an operation: they overwrite the version that they find at the offset |
| `FsChunks.MethodIsOperation` | lab2/fs.c:481-511 | the steps that the method Writei reports are such an operation, whatever other processes do between them |
| `FsChunks.FilewriteAfterCrash` | lab2/file.c:116-156 | a crash at any moment of a filewrite: recovery finds the old file overwritten by a whole number of chunks, those complete at the last commit, in a file system in order |
| `FsLocked.WroteIs` | lab2/fs.c:481-511 | after writei the file is the old one with bytes [off, off + n) replaced, disk and memory agree on the inode, and every other file is the same |
| `FsLocked.EmptiedIs` | lab2/fs.c:407-435 | after itrunc the file is empty on disk too, and exactly the inode's blocks have lost their mark |
| `FsLocked.CostFits` | lab2/file.c:126-145 | the logged set of a chunk is small enough for one operation |
| `FsTight.BoundIsTight` | lab2/file.c:126-145 | the bound is met: a volume made from an empty disk, and the steps of one chunk written to it with the blocks that a first-fit balloc finds, log exactly MAXOPBLOCKS blocks; over a hole, one more |
| `FsFill.Fill` | lab2/fs.c:56-78 | the volume for it, made from an empty disk by allocations, with chosen blocks left free |
| `Fs.FileSystem.FindClear` | lab2/fs.c:65-67 | the first clear bit, or the limit |
| `Fs.FileSystem.FindFree` | lab2/fs.c:62-76 | the first unmarked block of the disk, or all are marked |
| `Fs.FileSystem.Balloc` | lab2/fs.c:56-78 | marks and zeroes the first free block; panics exactly when there is none |
| `Fs.FileSystem.Bfree` | lab2/fs.c:80-95 | clears one mark, which was set |
| `Fs.FileSystem.Iupdate` | lab2/fs.c:220-236 | the inode's 64 bytes on disk become the inode in memory |
| `FsLayout.InodeLayout` | lab2/fs.h:28-42 | inode i is the 64 bytes from 64 (i % 8) of block inodestart + i / 8, field by field and byte by byte; no other block and no other inode changes |
| `FsLayout.MarkLayout` | lab2/fs.h:44-48 | the mark of block 4096 q + 8 r + k is bit k of byte r of block bmapstart + q; no other block changes |
| `Fs.FileSystem.GiveBlock` | lab2/fs.c:378-382 | a missing direct or indirect reference gets a new block, or the disk is full and nothing changes |
| `Fs.FileSystem.GiveEntry` | lab2/fs.c:391-394 | a missing entry of the indirect block does |
| `Fs.FileSystem.LoadIndirect` | lab2/fs.c:386-389 | the indirect block, made if missing; no file changes |
| `Fs.FileSystem.BmapIndirect` | lab2/fs.c:385-397 | bmap past the direct blocks, with the exact set of logged blocks |
| `Fs.FileSystem.Bmap` | lab2/fs.c:372-400 | the block of the file, made if it was missing, with the steps that make it; no byte of any file changes; an existing block changes nothing at all |
| `Fs.FileSystem.FreeDirect` | lab2/fs.c:414-419 | the direct blocks are given back, and nothing else |
| `Fs.FileSystem.FreeIndirect` | lab2/fs.c:421-431 | so are the indirect block and all it lists |
| `Fs.FileSystem.Itrunc` | lab2/fs.c:407-435 | the file is empty, and exactly its blocks are free; the steps that it reports lead from the old volume to the new one in the machine of interleaved holders |
| `Fs.FileSystem.Iput` | lab2/fs.c:331-345 | an inode is freed exactly when it has no links and no other reference; then it has no blocks and type 0 on disk |
| `Fs.Ialloc` | lab2/fs.c:194-213 | takes the first free inode from 1 on, or there is none |
| `Fs.BadRange` | lab2/fs.c:464-465 | the test in 32-bit arithmetic means: past the end, or the end does not fit 32 bits |
| `Fs.FileSystem.constructor` | lab2/fs.c:286-312 | ilock on a volume that mkfs or earlier operations have left |
| `Fs.FileSystem.ReadLoop` | lab2/fs.c:469-474 | the loop of readi returns exactly the bytes of the range |
| `Fs.FileSystem.Readi` | lab2/fs.c:452-476 | returns the stored bytes, cut at the end of the file, across direct and indirect blocks; allocates and logs nothing |
| `Fs.FileSystem.WriteLoop` | lab2/fs.c:498-504 | writes every byte to its block and logs exactly the cost |
| `Fs.FileSystem.SetSize` | lab2/fs.c:506-509 | the size in memory and on disk become the new one |
| `Fs.FileSystem.Writei` | lab2/fs.c:481-511 | refuses exactly the bad ranges and then changes nothing; otherwise replaces exactly bytes [off, off + n), and reports the steps of the machine that do it; or panics with a full disk, and then says how many bytes were written before |
| `FileWrite.ReachAtStop` | lab2/file.c:135-153 | how far a write gets that would pass the largest file |
| `FileWrite.SentOn` | lab2/file.c:139-153 | a chunk more after the chunks before it is one longer write |
| `FileWrite.OpenFile.Operation` | lab2/file.c:140-149 | one transaction: all of the chunk or nothing, and no more than MAXOPBLOCKS logged blocks |
| `FileWrite.OpenFile.Filewrite` | lab2/file.c:116-156 | the bytes written, the offset and the result for every size and offset, also when the file would grow too large; every transaction fits the log; n bytes take n / 1536 operations, rounded up |
| `FileWrite.CutShortIff` | lab2/file.c:126-153 | a write is cut short after some of its chunks if and only if it would pass the largest file and its first chunk would not |
| `FileWrite.CutShort` | lab2/file.c:126-153 | such a write |
| `MkfsModel.BlankOk` | lab2/mkfs.c:110-115 | the disk with which mkfs begins is in order: no file, and only metadata taken |
| `MkfsModel.SeenAlloc` | lab2/mkfs.c:271-286 | taking the block numbered freeblock is an allocation of the file system |
| `Mkfs.BlankTidy` | lab2/mkfs.c:110-115 | the zeroed disk with its superblock is a file system without files, every inode on disk and no holes |
| `Mkfs.FreeMap` | lab2/mkfs.c:244-250 | the loop of balloc: the first block of the free map, with exactly the bits below used set |
| `Mkfs.Image.constructor` | lab2/mkfs.c:93-115 | the image with no file |
| `Mkfs.Image.Ialloc` | lab2/mkfs.c:223-235 | the next inode, of the type, with one link and no blocks; no other inode changes |
| `Mkfs.Image.GiveBlock` | lab2/mkfs.c:271-279 | a missing reference of the inode gets the next block; it fails only when there is none |
| `Mkfs.Image.GiveEntry` | lab2/mkfs.c:280-284 | a missing entry of the indirect block does |
| `Mkfs.Image.FindBlock` | lab2/mkfs.c:271-286 | the block of the file, made if it is missing; no byte of any file changes |
| `Mkfs.Image.AppendLoop` | lab2/mkfs.c:268-294 | the loop writes every byte to its block |
| `Mkfs.NonePastEnd` | lab2/mkfs.c:268-296 | appending makes no block past the new end of the file |
| `Mkfs.Image.Iappend` | lab2/mkfs.c:255-297 | the file is longer by exactly these bytes, and every other file is the same; all inodes are on disk and every file has exactly the blocks that its size needs; it fails only when the file gets too large or the image has no more blocks |
| `Mkfs.Image.FixRoot` | lab2/mkfs.c:158-163 | the size of the root directory is rounded up past its end; it has no hole afterwards if and only if the size was not a whole number of blocks; its bytes are the same |
| `Mkfs.RoundedHoles` | lab2/mkfs.c:158-163 | a file with exactly the blocks that its size needs, and its size then rounded up past the end: no hole if and only if the size was not a whole number of blocks |
| `Mkfs.Image.Balloc` | lab2/mkfs.c:237-251 | the image written is a volume that satisfies the ownership invariant, unless more blocks are taken than one block of the free map can hold |
| `MkfsMain.MakeRoot` | lab2/mkfs.c:117-128 | the root directory with its two entries, unless the image has too few blocks |
| `MkfsMain.Dirent` | lab2/mkfs.c:145-150 | an entry is the inode number, low byte first, and 14 bytes of name padded with zeros |
| `MkfsMain.Copy` | lab2/mkfs.c:152-153 | the new file holds exactly what was read, and no other file changes |
| `MkfsMain.AddFile` | lab2/mkfs.c:145-153 | a new inode with the contents of the argument, and one entry with its number and name at the end of the root directory |
| `MkfsMain.AddFiles` | lab2/mkfs.c:130-156 | the same for all arguments, in order; it fails only when a file or the root directory is too large or the image has too few blocks |
| `MkfsMain.Finish` | lab2/mkfs.c:158-165 | the image is a volume in order with these files; the root is a directory, the others are files, each with one link, and no other inode is used |
| `MkfsMain.Make` | lab2/mkfs.c:75-168 | the whole of mkfs: it succeeds on every list of files that are not too large, with enough blocks; the image is a volume in order; the root directory has a hole if and only if the number of its entries is a multiple of 32 |
| `MkfsMain.LeftRoot` | lab2/mkfs.c:117-163 | in that image the root directory begins with the entries of all files, in order |
| `MkfsMain.LeftFile` | lab2/mkfs.c:145-153 | and every file has the bytes of its argument |
| `MkfsMain.HoleInRoot` | lab2/mkfs.c:158-163 | an image with thirty files whose root directory has a hole |
| `MkfsMain.CompleteStarts` | lab2/mkfs.c:165-165 | the image is a state from which the runs of the file system start |
| `VmProofs.TakeOk` | lab2/kalloc.c:82-95 | taking the first free frame keeps every frame in exactly one place, and every mapping |
| `VmProofs.GiveOk` | lab2/kalloc.c:59-77 | giving a frame back keeps every frame in exactly one place, and every mapping |
| `VmProofs.FillOk` | lab2/vm.c:48-49 | filling a frame in hand changes no mapping of any directory |
| `VmProofs.AddDirOk` | lab2/vm.c:122-124 | a zeroed frame becomes an empty directory, and no other changes |
| `VmProofs.AddTableOk` | lab2/vm.c:44-53 | a new, zeroed table changes no mapping |
| `VmProofs.MapUserOk` | lab2/vm.c:68-78 | mapping a page changes one entry of one directory, and the page belongs to that entry alone |
| `VmProofs.MapKernelOk` | lab2/vm.c:68-78 | so does an entry of the kernel half |
| `VmProofs.UnmapOk` | lab2/vm.c:269-276 | unmapping a page changes one entry, and the page belongs to the caller |
| `VmProofs.DisbandOk` | lab2/vm.c:291-297 | a directory without user pages can be taken apart: its frames are in hand and belong to nothing else |
| `VmProofs.OtherPage` | lab2/vm.c:219-298 | an operation on one directory changes no byte of a user page of another |
| `VmProofs.OtherSpace` | lab2/vm.c:219-298 | an operation on one directory changes no entry of another |
| `VmLocked.AbsentTable` | lab2/vm.c:267-268 | where a table is missing, no page up to the next table is mapped |
| `VmLocked.GrowingUndone` | lab2/vm.c:232-245 | growth by any number of pages followed by deallocuvm of the range restores every user mapping |
| `VmSpaces.Boot` | lab2/kalloc.c:46-53 | the memory that kinit starts from is in order |
| `VmSpaces.NoTrace` | lab2/vm.c:117-136 | a directory that is made and freed again leaves every frame in the role it had |
| `VmSpaces.FreedIs` | lab2/vm.c:281-298 | after freevm the directory, its tables and its user pages are on the free list, once each; other frames are untouched |
| `VmSpaces.FramesConserved` | lab2/vm.c:219-279 | free frames and frames of the space are together the same set before and after; no frame is left in the hands of the code; other spaces are the same |
| `VmSpaces.CopyIs` | lab2/vm.c:313-345 | every page below sz has the parent's bytes and flags in a frame that the parent does not map; the parent is unchanged; the rest is the kernel map |
| `Vm.Memory.Kalloc` | lab2/kalloc.c:82-95 | the first frame of the list, or none exactly when the list is empty |
| `Vm.Memory.Kfree` | lab2/kalloc.c:59-77 | the frame is first on the list, linked through its own first word, and the rest of it is 1 bytes |
| `Vm.Memory.Freerange` | lab2/kalloc.c:46-53 | the frames of the range are on the list, last one first |
| `Vm.Memory.Walkpgdir` | lab2/vm.c:35-55 | the table of the page; making it takes one frame and changes no mapping; there is none exactly when it was missing and either none was asked for or no frame is free |
| `Vm.Memory.NewTablePage` | lab2/vm.c:44-53 | a new table for the slot, from one frame; or nothing changes, exactly when no frame is free |
| `Vm.Memory.MapPage` | lab2/vm.c:68-78 | exactly one entry changes; or nothing, and the table of the page was missing with no frame free |
| `Vm.Memory.SetPte` | lab2/vm.c:71-74 | the entry of the page is written, and neither the directory nor the free list changes |
| `Vm.Memory.MapRange` | lab2/vm.c:68-79 | the pages of the range are mapped to consecutive frames and nothing else changes, and the missing tables are the only frames taken; on failure nothing outside the range has, and there were fewer frames than missing tables |
| `Vm.Memory.Mappages` | lab2/vm.c:57-80 | the same for addresses that need not be aligned |
| `Vm.Memory.DropPage` | lab2/vm.c:265-277 | the jump over a missing table skips no page that is present |
| `Vm.Memory.Deallocuvm` | lab2/vm.c:251-279 | exactly the pages that begin from newsz up to oldsz are gone; every other page is mapped as before to the same contents |
| `Vm.Memory.Allocuvm` | lab2/vm.c:219-249 | exactly the pages that begin from oldsz up to newsz are new, zeroed and writable; on failure every user mapping is as before and no frame is lost. It fails if and only if there are fewer free frames than new pages and missing tables |
| `Vm.Memory.GrowAll` | lab2/vm.c:232-248 | the loop: all new pages, or none and too few frames |
| `Vm.Memory.GrowPage` | lab2/vm.c:233-247 | one turn of it: a new page, or everything undone and too few frames for the whole loop |
| `Vm.Memory.Freevm` | lab2/vm.c:281-298 | nothing belongs to the directory any more, and nothing of others has changed |
| `Vm.Memory.FreeTables` | lab2/vm.c:291-296 | the loop gives back every table, each once |
| `Vm.Memory.Setupkvm` | lab2/vm.c:105-136 | a directory with exactly the mappings of kmap, in 65 frames; or, exactly when fewer than 65 are free, every frame back in the role it had |
| `Vm.Memory.MapLine` | lab2/vm.c:130-134 | one line of kmap more; or every frame back in the role it had, and there were fewer than 65 frames |
| `Vm.Memory.CopyPage` | lab2/vm.c:325-338 | one page more of the copy; or every frame back in the role it had, and there were too few frames for the whole copy |
| `Vm.Memory.Copyuvm` | lab2/vm.c:313-345 | a copy of every page that begins below sz and of no other user page, with the parent unchanged; or every frame back in the role it had, exactly when there are fewer free frames than 65, the pages and their tables |
| `VmSizes.PageUpIs` | lab2/vm.c:232-233 | PGROUNDUP: a page is at or after it if and only if it begins at or after the address |
| `VmSizes.PageDecides` | lab2/vm.c:47-53 | directory entries let everything through: the user may read or write an address if and only if the entry of its page says so |
| `VmSizes.ShrunkReads` | lab2/vm.c:255-279 | by address: below newsz the user reads the same words with the same rights; from newsz up to oldsz nothing can be reached, but for the rest of the page of newsz - 1 |
| `VmSizes.GrownReads` | lab2/vm.c:221-249 | by address: below oldsz everything reads as before; from there to newsz an address reads zero and may be written, or lies in the page of oldsz - 1 and has its rights |
| `VmSizes.GrownCovers` | lab2/vm.c:221-249 | so every address from oldsz up to newsz can be reached, given that the page of oldsz - 1 can where oldsz is not the end of a page |
| `VmSizes.CopiedReads` | lab2/vm.c:315-345 | by address: below sz the child reads what the parent reads, with the parent's rights; the parent's rights are as before; the kernel's half is closed to the user |
| `VmSizes.KernelReads` | lab2/vm.c:105-115 | by address: physical memory stands at KERNBASE, devices at their own addresses, all for the kernel alone, and only the kernel text is not writable |
| `VmFrames.SpanSize` | lab2/vm.c:44-53 | n pages from 0 on have n / 1024 tables, rounded up |
| `VmFrames.NeedsMore` | lab2/vm.c:68-79 | what a part of a range lacks, after the part before has taken its frames, is what the whole lacks |
| `VmSpaces.KernelCount` | lab2/vm.c:105-115 | kmap has 64 tables, none of them in the user's half |
| `VmSpaces.KernelFails` | lab2/vm.c:117-136 | setupkvm that finds no frame for a table had fewer than 65 |
| `VmSpaces.CopyingTakes` | lab2/vm.c:315-345 | a copy has taken 65 frames, one for each page, and one for each table of these pages |
| `VmSpaces.CopyingFails` | lab2/vm.c:325-338 | a copy that finds no frame for a page or its table had fewer |
| `Blocks.MergeOk` | lab2/umalloc.c:33-35 | joining two adjacent blocks keeps blocks disjoint and every unit in one block |
| `Blocks.SplitOk` | lab2/umalloc.c:78-82 | splitting a block does too |
| `Blocks.GrowOk` | lab2/umalloc.c:46-61 | so does new memory from sbrk |
| `Blocks.InsertOk` | lab2/umalloc.c:33-38 | a freed block put after its predecessor, joined with its successor if they touch, keeps the ring ordered |
| `Blocks.JoinOk` | lab2/umalloc.c:39-42 | joining with the predecessor makes the ring fully coalesced again |
| `Blocks.RemoveOk` | lab2/umalloc.c:76-77 | a ring without one block is still ordered and coalesced |
| `Blocks.ShrinkOk` | lab2/umalloc.c:78-82 | so is a ring with one block cut |
| `FreeList.InsertedOk` | lab2/umalloc.c:33-38 | the first half of free, on the headers in memory |
| `FreeList.SettledOk` | lab2/umalloc.c:39-42 | the second half of free, on the headers in memory |
| `FreeList.FreedOk` | lab2/umalloc.c:24-44 | after both halves of free the ring is one address-ordered cycle of disjoint, fully coalesced blocks |
| `FreeList.FreeOk` | lab2/umalloc.c:24-44 | the whole heap after free: exactly this block is no longer live, and its room is near freep |
| `FreeList.UnlinkedOk` | lab2/umalloc.c:75-77 | taking a whole block off the ring keeps that |
| `FreeList.TrimmedOk` | lab2/umalloc.c:78-82 | so does taking the tail of a block |
| `FreeList.TakeAllOk` | lab2/umalloc.c:75-85 | an exact fit becomes live as it is, and nothing else becomes live |
| `FreeList.TakeEndOk` | lab2/umalloc.c:75-85 | the tail of a larger block becomes live with the units asked for, and nothing else does |
| `FreeList.CoreOk` | lab2/umalloc.c:53-59 | memory from sbrk is a new live block that overlaps none |
| `FreeList.ExtendedOk` | lab2/umalloc.c:46-61 | after free of that block the live blocks are the old ones, with n more units under management |
| `FreeList.WalkStep` | lab2/umalloc.c:74-88 | each step of the scan comes closer to freep |
| `UnitCount.UnitsConserved` | lab2/umalloc.c:24-90 | free units plus live units are the units obtained from sbrk |
| `UnitCount.CoreCounted` | lab2/umalloc.c:46-61 | morecore of n units adds n to that number |
| `UnitCount.LiveApart` | lab2/umalloc.c:63-90 | a live block overlaps no other block |
| `Umalloc.UnitsSuffice` | lab2/umalloc.c:69-69 | the units asked for hold nbytes if and only if nbytes <= 2^32 - 8: above, the sum wraps |
| `Umalloc.WildIff` | lab2/umalloc.c:52-54 | morecore calls sbrk with an argument that is not positive, as an int, if and only if 2^31 - 15 <= nbytes <= 2^32 - 8 |
| `Umalloc.FindPlace` | lab2/umalloc.c:30-32 | the search of free ends after at most one turn, at the free block after which the block belongs |
| `Umalloc.Heap.constructor` | lab2/umalloc.c:18-22 | a heap with nothing live and no units |
| `Umalloc.Heap.Sbrk` | lab2/umalloc.c:53-55 | the old break with the memory above it; or -1, no change, and one more refusal on record |
| `Umalloc.Heap.Free` | lab2/umalloc.c:24-44 | exactly this block stops being live; the ring stays ordered, disjoint and coalesced; freep is the free block after which it belongs |
| `Umalloc.Heap.Morecore` | lab2/umalloc.c:46-61 | one call of sbrk, for at least 32768 bytes; new units reach the ring without touching a live block; or sbrk has refused and nothing changes |
| `Umalloc.Heap.Take` | lab2/umalloc.c:75-84 | hands out a block of exactly the units asked for, disjoint from all live ones: the end of the node, which leaves the ring if nothing is left of it; no other node changes |
| `FirstFit.CutWhole` | lab2/umalloc.c:75-77 | an exact fit leaves the ring, and no other node changes |
| `FirstFit.CutTail` | lab2/umalloc.c:78-82 | of a larger node the end is cut, and no other node changes |
| `FirstFit.StopsAtFirst` | lab2/umalloc.c:74-75 | the node at which the scan stops is the first after freep that is large enough |
| `FirstFit.PassesOn` | lab2/umalloc.c:74-88 | a node that is too small is passed, and once the scan is back at freep no node of the ring is large enough |
| `Umalloc.Heap.Scan` | lab2/umalloc.c:74-89 | the loop ends. If a free block is large enough, the first one after freep is cut and sbrk is not called; else sbrk is called once, and the result is null if and only if it refuses |
| `Umalloc.Heap.Malloc` | lab2/umalloc.c:63-90 | a block that is new, disjoint from all live ones and large enough if and only if nbytes <= 2^32 - 8. If a free block is large enough it is the first such block after freep, or its end, and the break does not move; else sbrk is called once, and the result is null if and only if it refuses; or, exactly from 2^31 - 15 to 2^32 - 8 bytes, the call of sbrk is one that is not modelled |
| `SchedProofs.StepKeepsInv` | lab2/proc.c:479-552 | every step of every CPU and of the rest of the kernel keeps the invariant |
| `SchedProofs.RunInv` | lab2/proc.c:479-552 | the invariant holds in every state of every run |
| `SchedProofs.BootInv` | lab2/proc.c:180-186 | an empty table with its CPUs between passes, as after boot, satisfies the invariant |
| `SchedProofs.BudgetsInRange` | lab2/proc.c:144-150 | in every state of every run priorities are 0 to MAXPRIORITY, live budgets 1 to DEFAULT_BUDGET, and live processes have a ticket |
| `SchedProofs.PromotionsApart` | lab2/proc.c:537-542 | a promotion comes at least TICKS_TO_PROMOTE ticks after the last |
| `SchedProofs.PromotionTimes` | lab2/proc.c:537-542 | any two promotions of a run are at least TICKS_TO_PROMOTE ticks apart |
| `SchedProofs.GivenUpIsEmpty` | lab2/proc.c:545-548 | a level is given up only when nobody at it can run |
| `SchedRuns.HigherGivenUp` | lab2/proc.c:493-549 | in every run, a CPU that is at a level has given up every higher level in this same pass |
| `SchedRuns.EmptyOnceGivenUp` | lab2/proc.c:545-548 | in every run nobody can run at a level that has just been given up |
| `SchedRuns.ReadyStep` | lab2/proc.c:479-552 | one step: whoever can run at a level arrived there by this step, or was there and did not leave; which steps these are is told by the step and the table alone |
| `SchedRuns.ReadyIffCame` | lab2/proc.c:479-552 | of a level that was empty at some step of a run, exactly those can run later that have arrived since and not left |
| `SchedRuns.FirstDispatchHighest` | lab2/proc.c:486-512 | in every run the first dispatch of a pass takes the highest runnable priority |
| `SchedRuns.HighestRunsIff` | lab2/proc.c:493-549 | in every run a dispatch takes the highest runnable priority if and only if, for each higher level, whoever was woken, forked, moved, promoted or given back to it after this CPU gave it up has left it again |
| `SchedRuns.HighestNotAlwaysRun` | lab2/proc.c:493-549 | a run from boot in which a process of lower priority is dispatched while a higher one is runnable |
| `SchedRuns.BudgetIs` | lab2/proc.c:513-535 | in every run the budget falls, between refills, by the ticks that the process ran, over any number of turns |
| `SchedRuns.DemotesIff` | lab2/proc.c:513-542 | which steps demote a process |
| `SchedRuns.DemotionIff` | lab2/proc.c:513-542 | in every run a step demotes a process if and only if it ends a turn of it, its turns since the last refill come to the whole budget, there is a lower level, and no promotion in the same step makes up for it |
| `SchedRuns.DemotionNeedsBudget` | lab2/proc.c:513-535 | so a demotion comes only after DEFAULT_BUDGET ticks since the last refill, however they were split over dispatches |
| `SchedLevels.LevelStep` | lab2/proc.c:463-477 | one step, in numbers: a slot goes down one level when it used up its budget, up one when it is promoted below the top, and is set outright only by allocproc and setpriority |
| `SchedLevels.CountStep` | lab2/proc.c:479-552 | one step, in numbers: its ticks, its dispatches, its tickets, its state and its pid |
| `SchedLevels.LevelIs` | lab2/proc.c:463-542 | over any part of any run the level of a slot goes down by the budgets it used up and up by the promotions that lifted it, and in no other way unless it is set outright |
| `SchedLevels.PromotionsLift` | lab2/proc.c:463-477 | so n promotions lift a slot by at most n levels |
| `SchedLevels.PromotionsTake` | lab2/proc.c:537-542 | in every run n promotions take at least 50 (n - 1) ticks |
| `SchedLevels.ClimbTakes` | lab2/proc.c:463-542 | so a slot that no one lifts by hand takes at least 50 ticks from the lowest level to the highest |
| `SchedLevels.TicksAre` | lab2/proc.c:511-515 | in every run the ticks of a slot are the sum of its turns: none is charged twice, none is lost |
| `SchedLevels.TurnLasts` | lab2/proc.c:505-515 | in every run a turn is charged from its dispatch to its return, to the slot that was dispatched |
| `Sched.PTable.SetPriority` | lab2/proc.c:28-53 | the first slot with the pid gets the priority and a budget of 5; a bad priority or pid changes nothing |
| `Sched.PTable.AdjustPriority` | lab2/proc.c:463-477 | every slot that is no zombie and below level 2 goes up by exactly one level, with a budget of 5; every other slot is as it was |
| `Sched.PTable.NextAtLevel` | lab2/proc.c:497-504 | the next runnable slot of the level, with none skipped |
| `Sched.PTable.AfterSwitch` | lab2/proc.c:513-542 | the time is charged to the slot; a used up budget takes it down one level, if there is one; when it is time, every slot that is no zombie and below level 2 goes up by exactly one |
| `Sched.PTable.AllocProc` | lab2/proc.c:130-151 | the first unused slot, at level 2 with a budget of 5, one ticket and no dispatches, or none |
| `Sched.VisitsReach` | lab2/proc.c:497-504 | the scan is a run of the machine's steps |
| `Lottery.CountTickets` | lab2/proc.c:670-682 | the counting scan, which is exact if and only if the sum fits an int |
| `Lottery.PickSlot` | lab2/proc.c:698-711 | the selecting scan picks a slot if and only if the ticket is at most the total, and then the one whose tickets hold it |
| `Lottery.ExactlyOnePick` | lab2/proc.c:690-711 | every ticket of 1 to total picks exactly one runnable process |
| `Lottery.Proportional` | lab2/proc.c:690-711 | the number of tickets that pick a process is the number it holds |
| `MonitorProofs.StepKeepsInv` | lab2/proc.c:808-865 | for all code that pays its wakeups before it lets go of its lock: no step of any interleaving loses a wakeup |
| `MonitorProofs.BodyStepKeepsInv` | lab2/proc.c:808-865 | steps of the code that holds its lock: it may owe wakeups only while it does |
| `MonitorProofs.WakeStepKeepsInv` | lab2/proc.c:838-865 | wakeup marks a sleeper only under ptable.lock, and misses none |
| `MonitorProofs.PlainStepKeepsInv` | lab2/proc.c:808-836 | the hand-over of locks in sleep leaves no gap in which a wakeup is lost |
| `MonitorProofs.RunKeepsInv` | lab2/proc.c:808-865 | the same for whole runs |
| `MonitorProofs.SleeperIsRight` | lab2/proc.c:808-865 | with the lock free, whoever sleeps has reason to |
| `Waiting.SleepLockDisciplined` | lab2/sleeplock.c:22-42 | acquiresleep and releasesleep satisfy the hypothesis of the theorem |
| `Waiting.LogDisciplined` | lab2/log.c:124-174 | so do begin_op and end_op |
| `Waiting.PipeDisciplined` | lab2/pipe.c:59-121 | so do pipewrite, piperead and pipeclose, at every point but the exit of a killed writer from a full pipe |
| `Waiting.PipeRunKeeps` | lab2/pipe.c:59-121 | in every state of every run, with kills, in which no killed writer leaves a full pipe on which a reader sleeps: all sleepers are right or their wakeup is under way, and an end of the pipe is open as long as someone refers to it |
| `Waiting.SleepLockNoLostWakeup` | lab2/sleeplock.c:22-42 | a process asleep on a sleep lock sleeps on a lock that is held |
| `WaitRuns.MovesAreSteps` | lab2/proc.c:800-868 | the labelled moves of the run theorems are exactly the steps of the monitor |
| `WaitRuns.OneHolder` | lab2/sleeplock.c:22-42 | mutual exclusion: in every state of every run at most one process has left acquiresleep and not given the lock up, and the lock is marked locked if and only if there is one |
| `Waiting.BeginOpNoLostWakeup` | lab2/log.c:124-174 | a process asleep in begin_op has to wait; LogProofs.RefusedHasWaker says who will wake it |
| `WaitRuns.LogCounts` | lab2/log.c:124-174 | in every state of every run outstanding is the number of operations begun and not ended, at most one process commits, and none is under way while it does |
| `WaitRuns.AdmittedIff` | lab2/log.c:124-141 | in every run begin_op lets an operation in if and only if nobody commits and the log has room for 10 blocks of it and of each operation under way |
| `Waiting.PipeNoLostWakeup` | lab2/pipe.c:59-121 | in such runs a reader sleeps only on an empty pipe that can still be written, a writer only on a full one that can still be read, so never both |
| `WaitRuns.BytesConserved` | lab2/pipe.c:76-121 | in every run, kills included, the pipe holds the bytes it held at first and those that writers put, less those that readers took |
| `WaitRuns.StopsShort` | lab2/pipe.c:76-121 | a writer stops short only when the pipe is full and it is killed or nobody can read; a reader sleeps if and only if the pipe is empty and can be written and it is not killed |
| `Waiting.KillKeepsInv` | lab2/proc.c:870-889 | kill by itself loses no wakeup |
| `Waiting.PipeStepKeepsInv` | lab2/pipe.c:78-98 | every step but that exit keeps all sleepers right |
| `Waiting.NoLostWakeupIff` | lab2/pipe.c:78-98 | for every run from a state in order: all sleepers are right in every state of it and one step further, if and only if in no step of it a killed writer leaves a full pipe on which a reader sleeps |
| `Waiting.KilledWriterForgets` | lab2/pipe.c:78-98 | a run, from a new pipe, in which a killed writer leaves a reader asleep on a full pipe |
| `PipeBuffer.Pipe.TestsMean` | lab2/pipe.c:85-114 | the two tests on wrapping counters mean full and empty |
| `PipeBuffer.Pipe.Put` | lab2/pipe.c:93-93 | the byte is stored behind all others, also where the counter wraps |
| `PipeBuffer.Pipe.Get` | lab2/pipe.c:116-116 | the oldest byte not yet delivered |
| `PipeBuffer.Pipe.WriteSome` | lab2/pipe.c:84-94 | bytes go in in order until all are in or the buffer is full |
| `PipeBuffer.Pipe.ReadSome` | lab2/pipe.c:113-117 | as many bytes as there are, up to n, in the order stored |
| `PipeBuffer.CounterWraps` | lab2/pipe.c:93-116 | a counter that wraps at 2^32 names the same slots, because 512 divides 2^32 |
| `PipeBuffer.SlotsDiffer` | lab2/pipe.c:93-93 | the slot of a new byte is none of those still to be read |
| `PipeBuffer.Pipe.constructor` | lab2/pipe.c:22-57 | a new pipe is empty and open at both ends |
| `ShellSpans.ParseScanned` | lab2/sh.c:327-342 | every word of a parsed command is a whole word of the input, and no command has MAXARGS words or more |
| `ShellSpans.EndsAreWordEnds` | lab2/sh.c:449-493 | the places that nulterminate writes to are ends of words and inside no word |
| `ShellSpans.WordsSurvive` | lab2/sh.c:448-493 | after nulterminate every argv and file string is exactly its token |
| `ShellTwins.AppendIsOverwrite` | lab2/sh.c:375-398 | for every input: with the second character of a >> blanked out the parser gives the same tree with the same words, or the same panic |
| `ShellTwins.BlankIsSpace` | lab2/sh.c:262-307 | for every input: a tab, carriage return, newline or vertical tab anywhere gives the same tree with the same words, or the same panic, as a space there |
| `ShellPrint.TokenAt` | lab2/sh.c:265-308 | a printed token is read back, whatever follows it |
| `ShellSyntax.GetToken` | lab2/sh.c:265-308 | a token lies in the input, and the cursor moves on unless the input is at its end |
| `ShellPrint.PeekAt` | lab2/sh.c:310-320 | peek tells whether the next printed token starts with one of the characters |
| `ShellRoundTrip.RedirsBack` | lab2/sh.c:374-397 | parseredirs reads back a printed list of redirections |
| `ShellRoundTrip.ArgsBack` | lab2/sh.c:426-446 | the loop of parseexec reads back words and the redirections after them |
| `ShellRoundTrip.BlockBack` | lab2/sh.c:399-413 | a printed block with its redirections is read back, through parseblock |
| `ShellRoundTrip.ExecBack` | lab2/sh.c:415-446 | parseexec reads back a printed command and stops behind it |
| `ShellRoundTrip.PipeBack` | lab2/sh.c:361-372 | so does parsepipe |
| `ShellRoundTrip.LineBack` | lab2/sh.c:344-359 | parseline reads back a printed line and stops behind it |
| `ShellRoundTrip.RoundTrip` | lab2/sh.c:327-446 | for every well-formed tree: printing it and parsing that gives the tree, with all input consumed |
| `ShellRoundTrip.Reprint` | lab2/sh.c:327-446 | every input that parses has a printed form that parses to the same tree |
| `Shell.NextToken` | lab2/sh.c:265-308 | the scanner's loops compute the token function |
| `Shell.Look` | lab2/sh.c:310-320 | so does peek, which also moves the cursor |
| `Shell.ReadRedirs` | lab2/sh.c:374-397 | the loop of parseredirs computes the redirections, with its panic |
| `Shell.ReadArgs` | lab2/sh.c:426-446 | so does the loop of parseexec, with both its panics |
| `Shell.ReadExec` | lab2/sh.c:415-446 | so does parseexec |
| `Shell.ReadBlock` | lab2/sh.c:399-413 | so does parseblock, with its panics |
| `Shell.ReadPipe` | lab2/sh.c:361-372 | so does parsepipe |
| `Shell.ReadLine` | lab2/sh.c:344-359 | so does parseline |
| `Shell.NulTerminate` | lab2/sh.c:448-493 | NUL at the end of every word, and no other character changes |
| `Shell.ParseBuffer` | lab2/sh.c:327-342 | parsecmd in place: the parser's result, and every word of it a C string in the buffer |
| `Grep.SplitFirst` | lab2/grep.c:84-106 | matching splits at the first atom, both ways |
| `Grep.EmptyMatches` | lab2/grep.c:86-91 | an empty pattern matches, and a closing dollar sign matches only at the end |
| `Grep.PlainHere` | lab2/grep.c:84-96 | a pattern without operators matches at a place if and only if it is a prefix there |
| `Grep.MatchHere` | lab2/grep.c:84-96 | true if and only if some prefix of the text is in the language of the pattern |
| `Grep.MatchStar` | lab2/grep.c:98-106 | true if and only if some run of the character is followed by a match of the rest |
| `Grep.Match` | lab2/grep.c:72-82 | true if and only if the text has a match: at its start after a caret, else anywhere |
| `Grep.PlainIsSubstring` | lab2/grep.c:72-106 | a pattern without operators matches if and only if it is a substring |
| `Grep.StarMeans` | lab2/grep.c:98-106 | on the text of the pattern: a character and a star match any number of it, as many as the rest allows |
| `Grep.CharMeans` | lab2/grep.c:84-96 | on the text of the pattern: a dot or another character matches one, and then the rest |
| `Grep.DollarMeans` | lab2/grep.c:90-91 | on the text of the pattern: a final dollar matches the end of the text only |
| `Grep.PlainAnchored` | lab2/grep.c:72-96 | a pattern without other operators, with a final dollar, matches if and only if it is a suffix; after a caret, a prefix; with both, the whole text |

## Left out

- Hardware code (`ide.c`, `lapic.c`, `ioapic.c`, `uart.c`, `kbd.c`, `mp.c`, `bootmain.c`, seginit and switchuvm in `vm.c`): port I/O and assembly; `memide.c` is the disk.
- swtch, sched and trap frames: a dispatch is one step that comes back with some time elapsed and a new process state.
- rand and cmostime in `proc.c`: the drawn ticket is any number from 1 to the total.
- The out-of-range path of setpriority returns with ptable.lock held: only its result is modelled.
- Wrap-around of the tick counter: time is an unbounded number in the scheduler model.
- Directories (`sysfile.c`, dirlink, namex) and the inode cache (iget, reference counts): they would add members on top of readi and writei without harder claims. Link counts change by steps of the machine, but nothing is said of their values.
- The device branches of readi and writei, and the pipe branch of filewrite.
- The buffer loop of grep, runcmd and exec, console output, printf, and the small user programs: input and output.
- The copies under `assignment3/`, which repeat these files, and `lab1/`.
- Bio.Bcache.Bread: a caller that would have to wait for another holder of the buffer is excluded; waiting itself is in the sleep lock model.
- Bio.Bcache.Brelse: a buffer that was changed must have been marked by log_write or written by bwrite before, as all callers in the kernel do; losing a change that was not is not described.
- Fs.FileSystem.Readi: for files without holes, which is what writei and itrunc leave; over a hole the code would allocate blocks while reading.
- Fs.FileSystem.ReadLoop: for files without holes, as Readi.
- FsRuns.NeverShared: a reference that itrunc frees counts as gone before bfree, where the code stores 0 in it right after; in between, another process may already have been given the block, and the holder does not look at the reference again.
- FsKernel.KernelStep: inodes are locked inside operations only; readers that lock an inode outside of one, and change nothing, are not in this machine.
- FsChunks.FilewriteAfterCrash: counts every operation on the file as one of the filewrite, so nobody else has the file open during it; WholeOperations is for any mix of operations.
- Mkfs.Image.Ialloc: there is an inode left, where the code would write past the inode blocks; so Make asks for as many inodes as it will use.
- FsSteps.MethodIsRun: for itrunc the steps are those of the machine, in which references are given up before their blocks are freed; the volumes before and after are those of the code.
- FsSteps.DestroyIsRun: the last iupdate of iput and the end of the in-memory inode are one step; the code holds the lock a little longer and does not look at the inode again.
- Vm.Memory.Deallocuvm: for oldsz up to KERNBASE, which is what its callers pass.
- Vm.Memory.Copyuvm: for a parent whose pages below sz are all present; the code panics otherwise.
- Lottery.PickSlot: the table is the one that was counted, and its tickets fit an int.
- The methods of class `FileSystem` are one process between ilock and iunlock; interleavings of several are in FsRuns and FsKernel, on the steps of these methods. `vm.c` and `kalloc.c` are modelled one call at a time: kalloc and kfree run under kmem.lock, and a page directory belongs to one process.
- inituvm, loaduvm, clearpteu, copyout and the user-mode half of exec.
- Vm.Memory.MapRange: as Mappages.
- Vm.Memory.Mappages: covers kernel ranges and single user pages, which is what its callers map; a range of several user pages is not covered.
- Vm.Memory.DropPage: clears the entry before it gives the frame back, where the code does it in the other order; the state after both is the same.
- Log.Log.LogWrite: assumes that the operation stays within MAXOPBLOCKS, which FileWrite.OpenFile.Operation proves for writes of files; truncation and directory operations are not counted.
- Umalloc.Heap.Malloc: says nothing of what follows a call of sbrk with an argument that is not positive.
- PipeBuffer.Pipe.WriteSome: one stay under the lock; the interleaving of stays is in Waiting.
