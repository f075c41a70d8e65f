# MadFS in Dafny

MadFS keeps one file as a copy-on-write log in persistent memory. A writer puts
its data into newly allocated blocks and publishes them by a 64-bit transaction
entry, which it stores by compare-and-swap into the first empty slot of a linked
list of transaction blocks. Small extents fit the entry itself; larger ones, and
those that end inside the last block of the file, are a chain of log entries in
log blocks. Readers, writers and recovery replay the list into a block table
that maps the file's blocks (virtual blocks) to logical blocks.

This project models the parts of MadFS where these pieces meet and proves that
together they behave like a byte array that is written one operation at a time,
that no block is lost or used twice, and that a crash loses at most the end of
the log.

| module | models |
|---|---|
| `Layout`, `ByteFile` | sizes and the size arithmetic of a write; the byte array that everything is compared with |
| `Occ`, `OccSafety`, `OccTrace`, `OccReads`, `OccProgress` | the optimistic commit protocol for one-block reads and writes: any number of threads and processes, one shared-memory action a step, the copy byte by byte; what each call does |
| `TxLog`, `TxLogSafety`, `TxLogProgress` | the slot list: racing appends, racing links, spare blocks; it implements the log that `Occ` assumes |
| `Crash`, `CrashSafety`, `CrashSync`, `CrashLines` | `fsync` and the committers' flushes against power failures |
| `Entry`, `Replay`, `LogChain`, `CommitEntry` | entry encodings, log entries in memory, what they mean, and the entry a write commits |
| `BlkTable`, `Incremental`, `Seqlock` | the block table, its replay in instalments, and calls of `update`, with and without the lock |
| `Alloc`, `Recovery`, `Rebuild` | bitmap, free lists, and the bitmap's reconstruction, also after a collection |
| `MemTable`, `FileMem` | where blocks are in memory: the address cache, and runs filled through the address of their first block |
| `Compaction`, `NewList`, `NewHistory` | garbage collection of the history: what is emitted, the blocks it is stored in, and what tables opened later make of it |
| `Pins`, `Recycling`, `PinSafety`, `PinExact` | which blocks a collection may free, the orphan list of those it may not, and runs of collections |
| `Conflict` | catching up with transactions that were committed first |
| `FileData`, `FileSeq`, `FileLog`, `FileCrossing` | `pwrite` and `pread`, one at a time; the same with the log entries in memory; three writes that go wrong |
| `OffsetRing`, `OffsetTrace`, `OffsetWindow` | the shared file offset and its ring of tickets, which is in use only with the option `strict_offset_serial`; its default is off (src/config.h.in:115) |

Objects whose methods update fields are classes (`BlockAllocator`, `BitmapMgr`,
`LogEntryAllocator`, `BlkTable`, `SeqFile`, `LoggedFile`, `MemTable`), loops are loops, and
protocols between threads are state machines: an `Action` datatype, `Enabled`,
`Do`, and theorems about every state of every run. Shared memory is sequentially
consistent.

## Where the code does not do what it promises

Each of these has an input, as a lemma or a method that ends in the wrong state,
and the exact condition.

- A run of blocks is filled through the address of its first block. That is right
  wherever the mapping's pieces are exactly if the run lies in one piece
  (`ContiguousIff`). Runs cut from a bitmap word do (`WordInOnePiece`), grouped
  runs of superseded blocks may not; freeing keeps the listed runs so exactly if
  these do (`PushAllPieced`), and a listed run that does not is handed out as it
  is (`TakeListed`). Three writes to a new file show it: two succeed, the third
  does not (`CrossingExample`), and some block of the run then keeps its old
  contents (`CrossingLeaves`).
- A read is cut at the end of the file as its snapshot saw it, but returns the
  bytes of a later moment. It agrees with that moment exactly if it was not cut
  or the file has not grown in between (`AtomicIff`); otherwise it can return
  what the file never held (`TornRead`).
- Compaction maps holes to blocks: it preserves a file that was written exactly
  if every block but the first has been written (`CompactionOfWrites`,
  `SparseFileBreaks`).
- After a collection, a replay from the meta block stops in the last block of the
  new list, which is not padded, and so does not come to the old tail block, where
  everyone who had the file open goes on appending. A table opened later agrees
  with theirs exactly if what has been written there since leaves every block
  where it was (`OpenedAfterIff`), which writes to new blocks never do
  (`OpenedAfterWrites`). Once its own writes have filled that block, it applies
  the old tail block's entries on top of them (`ReplayGoesOn`), which changes
  nothing exactly if no block was written by both (`ReplayedLateIff`,
  `ReplayedLateWrites`, `LateExample`).
- For the same reason a bitmap that is rebuilt after a collection marks exactly
  what the new history uses: the old tail block, and every block that only
  entries behind it use, is handed out again (`RebuildAndTake`,
  `TailIsHandedOut`).
- And a collector that has opened the file anew takes the last block of the new
  list for the tail. Its scan passes over pins that do not precede that block, so
  it frees an orphan of an earlier collection although a thread has it pinned. No
  thread ever follows a link into a freed block exactly if, at every collection,
  the orphans that some thread comes to precede the tail (`NeverDanglingIff`,
  `SafeIff`, `FreedWhilePinned`, `PinnedOrphan`).
- If the new entries fill the last block of the new list, the dummy entry that is
  meant to pad it overwrites its link, which then leads to block 1 (`CreateList`);
  that is so exactly if their number is a multiple of 510 (`FullListExample`). If
  they do not, a replay sees nothing but them exactly if the slot behind the last
  one is empty or in the last cache line, the only one that is zeroed
  (`ReplaySeesIff`).
- A block that a collection keeps for a reader is lost, on no orphan list and
  never freed, exactly if it is of the old list and the last orphan before it was
  freed (`KeptIsListedIff`, `LosesIff`, `LostBlock`).
- A transaction block that is linked but still empty is not marked when the
  bitmap is rebuilt. It is handed out again exactly if it is the last one and no
  entry uses it (`RecoverAndAlloc`, `LinkedButFree`).
- Garbage collection follows a null pointer exactly if some thread has pinned
  the meta block, block 0, as every thread does that starts there (`ScanPinned`,
  `PinnedMeta`).
- A read at the end of the file gives back its ticket without waiting, and can
  overwrite a release that somebody still waits for. With such reads somebody can
  always go on exactly if at most 15 tickets are issued from the oldest
  unreleased one on (`WindowIff`, `SlowRun`, `LostForever`).
- The conflict image is right exactly if both extents start at the same block or
  do not meet (`RightIff`, `WrongImage`); one-block extents always are
  (`OneBlockIsComparable`).
- Catching up overestimates the file size exactly if it meets an entry for the
  first 64 blocks with bytes left over (`WrappingWrite`). Otherwise it is right
  exactly if the file has not grown, or some entry that ends where the file now
  ends has a count that is no multiple of 64, and too small if not (`Scan`,
  `ShortScan`).
- Freeing an image of superseded blocks writes past the free lists exactly if
  a run of consecutive blocks in it is longer than 64 (`FreeImage`,
  `LongImageIsNot`).
- A run given back to the bitmap arrives completely exactly if it does not reach
  into the next word (`ReturnedIff`, `TailStaysMarked`).
- The free lists are not emptied when they are given back, as at the end of a
  collection, and are given back again on destruction. That takes no block from
  anyone exactly if none of these blocks has been allocated since
  (`GivenBackAgain`, `HandedOutTwice`).

## Model

| member | source | states |
|---|---|---|
| `OccSafety.Serializability` | src/tx/write_unaligned.h:48-136 | In every state of every interleaving of one-block writes and reads, contents and length of the file that the log describes are those of the committed writes applied in commit order to a byte array, although source blocks may be freed and overwritten during a copy. Which writes these are is said by the next two rows. |
| `OccTrace.WriteTakesEffectOnce` | src/tx/write_unaligned.h:75-135 | A write that has returned was added to the committed writes by exactly one of its steps, between the first and the last, with the offset and the bytes of its call, however many races it lost. |
| `OccTrace.EffectWasAsked` | src/tx/write_unaligned.h:101-107 | Nothing else is added to them: every addition is the first one of a write that has begun and not returned, and is what its call asked for. |
| `OccSafety.ExactlyOneOwner` | src/tx/write_unaligned.h:69-135 | At all times each block is exactly one of: free, destination of one thread, mapped at one place, waiting to be freed by the one thread that superseded it. |
| `OccSafety.ReadBytes` | src/tx/read.h:24-144 | The bytes of a finished one-block read are those of the byte array after some number of commits, not fewer than at its snapshot; their number was cut at the end of the file at the snapshot. |
| `OccTrace.ReadSees` | src/tx/read.h:35-144 | In terms of the call: the bytes asked for, where neither that point nor the snapshot is before the commits that there were when the call began, nor after the read is done. |
| `OccTrace.ReadEnds` | src/tx/read.h:78-144 | A read does not return without that. |
| `OccSafety.AtomicIff` | src/tx/read.h:41-49 | The read is what the byte array returns at that point exactly if it was not cut at the snapshot, or the file has not grown in between. |
| `OccReads.TornRead` | src/tx/read.h:41-49 | For every two contents, the second longer and starting with another byte: a run in which a read returns as many bytes as the first had, but those of the second, which no read at any moment would have returned. |
| `OccProgress.LockFree` | src/tx/write_unaligned.h:75-130 | From its snapshot on, an operation takes at most two copies and a scan, in steps of its own, plus one more copy and one more entry for every commit of another thread that succeeds in between; until then it always has a step to take. |
| `OccProgress.OwnStepLowers` | src/tx/write_unaligned.h:75-130 | Every step of the thread itself ends the operation or lowers its rank, which counts the steps that are left if nobody else commits. |
| `OccSafety.StepInv` | src/tx/write_unaligned.h:48-136 | Every step of every thread and of every block table keeps the protocol's invariant. |
| `OccSafety.CommitStep` | src/cursor/tx_entry.h:105-117 | A successful compare-and-swap keeps it: the new block becomes the mapped one, the old one the committer's to free, and all other threads' copies stay valid or are known to be outdated. |
| `OccSafety.ScanEntryStep` | src/tx/tx.h:97-153 | Catching up by one entry keeps it: source block and size follow the log. |
| `OccSafety.CopyByteStep` | src/tx/write_unaligned.h:78-97 | Copying one byte keeps it, whatever the source block holds by then. |
| `OccSafety.CommitSize` | src/tx/write.h:100-115 | The committed entry, rechecked or not, gives the file the length of the byte array after the write; the committer knows the file's size at that moment, and leaves over what a write to such a file leaves over. |
| `OccSafety.RunSizes` | src/blk_table.h:208-235 | Every prefix of the log gives the length of the same prefix of the writes. |
| `TxLogSafety.Simulation` | src/cursor/tx_entry.h:50-154 | Each step of the racing slot list is a step of an append-only log with one position per thread. |
| `TxLogSafety.AppendOnly` | src/cursor/tx_entry.h:139-154 | Between any two states of a run the log and the chain only grow at their ends, and a filled slot, a set link and a sequence number never change. |
| `TxLogSafety.AppendStep` | src/cursor/tx_entry.h:139-154 | The compare-and-swap of a slot succeeds exactly at the end of the log, which it extends by one entry; elsewhere it finds the entry at its position. |
| `TxLogSafety.LinkStep` | src/alloc/tx_block.h:56-67 | A race for a link has one winner; the chain gains the winner's block or none, the log does not change, and winner and losers go on at the first slot of the block that was linked. |
| `TxLogSafety.EveryBlockHasPlace` | src/alloc/tx_block.h:56-102 | No transaction block is lost: in every state of every run each is exactly one of not taken yet, in the chain, or kept by one thread. |
| `TxLogSafety.TakeStep` | src/alloc/tx_block.h:75-91 | Preparing a new or spare block keeps the chain's invariant: the block is zeroed, numbered and not linked. |
| `TxLogProgress.NeverStuck` | src/cursor/tx_entry.h:60-154 | As long as there are blocks, a thread always has a step to take: it moves on towards the end of the log, or it is there and its entry is appended. |
| `TxLogProgress.MoveLowers` | src/cursor/tx_entry.h:60-94 | Each such move lowers a rank of at most three steps for every entry that is left, and two more. |
| `TxLogProgress.OthersDelay` | src/cursor/tx_entry.h:139-154 | Only an append of another thread raises it, by three. |
| `TxLogSafety.SpareIsUnlinked` | src/alloc/tx_block.h:98-102 | A spare block is all zeros and no link of the chain leads to it. |
| `TxLogSafety.OrderIsPosition` | src/cursor/tx_entry.h:223-229 | The order of cursors is the order of log positions. |
| `TxLogSafety.StepInv` | src/cursor/tx_entry.h:50-94 | Every step keeps the invariant: filled slots are a gap-free prefix of the chain, sequence numbers count its links, only the last block has empty slots. |
| `TxLogSafety.OverOk` | src/cursor/tx_entry.h:60-90 | Leaving the overflow state along a link does not change the log position. |
| `CrashSafety.CrashPrefix` | src/file/sync.cpp:4-18 | Every crash image of every reachable state, each unflushed slot and link old or new on its own, recovers a prefix of the committed log that contains every entry before the cursor of every `fsync` that has ever returned and before the recorded tail. |
| `CrashSync.FsyncSurvives` | src/file/sync.cpp:4-18 | In terms of the call: once it is done, every crash image of every later state has the entries before the cursor that it was called with. |
| `CrashSync.FsyncIsDurable` | src/file/sync.cpp:4-18 | Recovery then reads, in order, everything that had been committed in any state up to the call, if the cursor of the call was not before it. |
| `CrashSync.AppendIsLogged` | src/cursor/tx_entry.h:105-117 | During all this, an append at the end of the log extends the log by its entry, and any other changes nothing. |
| `CrashSync.FsyncCompletes` | src/file/sync.cpp:7-17 | A call that has returned was done, and has recorded its tail. |
| `CrashSync.RecordsTail` | src/file/sync.cpp:8-16 | The recorded tail is the cursor of the call, or the slot before it if that is behind the last slot of its block. |
| `CrashSync.FsyncEnds` | src/cursor/tx_entry.h:156-183 | A call always has a step to take, and takes at most one for every entry and every link between the recorded tail and its cursor, and three more. |
| `CrashSafety.StoreTailStep` | src/file/sync.cpp:13-16 | The tail that is stored, with an overflowed index stepped back to the last slot, is a completely flushed position. |
| `CrashSafety.FlushSlotStep` | src/cursor/tx_entry.h:156-183 | Flushing one slot keeps the invariant: everything between the recorded tail and the flush is persistent. |
| `CrashSafety.FlushLinkStep` | src/block/tx.h:94-98 | So does flushing the link of a block that is left behind. |
| `CrashSafety.CStepInv` | src/cursor/tx_entry.h:105-137 | Every step, also of appends and links during a flush and of flushes by committers, keeps it. |
| `CrashLines.NothingBehindGap` | src/cursor/tx_entry.h:105-117 | If committers flush before each new cache line and the stores of one line reach memory in order, recovery reads every entry that the crash image has: none stays behind an empty slot, to come back later. |
| `CrashLines.LineStep` | src/entry.h:240-245 | Every step keeps the invariant: all entries but those of the line that was begun last are persistent. |
| `Entry.RoundTrip` | src/entry.h:112-172 | Reading back a stored transaction entry gives the entry exactly if its fields fit, which is what `can_inline` checks. |
| `Replay.ReplayAgain` | src/blk_table.h:186-235 | Applying the last transactions of a history once more on top of it changes neither mapping nor size. |
| `Replay.LookupConcat` | src/blk_table.h:121-132 | Replaying in two parts is replaying the whole. |
| `LogChain.LogEntryAllocator.Append` | src/alloc/log_entry.h:34-62 | For every length, starting offset and list of chunks, the chain in memory spells the extent cut into entries; blocks in use and the used part of the current block are untouched; the chain starts in the rest of the current block if there is room for an entry, and otherwise in a block that was free; its blocks are then in use. |
| `LogChain.LogEntryAllocator.AllocChain` | src/alloc/log_entry.h:72-127 | The chain's counts and links are laid out for the whole extent, each entry inside its block. |
| `LogChain.LogEntryAllocator.FullEntry` | src/alloc/log_entry.h:106-121 | An entry with a successor fills its block, so that the next one is always in a new block. |
| `LogChain.LogEntryAllocator.Discard` | src/alloc/log_entry.h:137-154 | A discarded chain gives back each of its blocks once, except a first block that other entries share. |
| `LogChain.LogEntryAllocator.UpdateLeftover` | src/cursor/log.h:94-101 | Changes the leftover of the chain's last entry and nothing else of the chain. |
| `LogChain.PiecesMeaning` | src/blk_table.h:186-212 | The entries map block `v + k` to `lidxs[k / 64] + k % 64` for exactly the `k` below the length, and end the file where the extent ends. |
| `LogChain.CountsFit` | src/alloc/log_entry.h:93-109 | Every entry's count fits 16 bits and its chunks fit its block. |
| `LogChain.ChainKept` | src/alloc/log_entry.h:72-127 | Chains appended earlier stay as they are. |
| `CommitEntry.FileSizeLaw` | src/tx/write.h:72-115 | Whatever sizes a writer saw, and whether its entry is inline, indirect or rechecked, replaying it gives the larger of the file's size and the write's end, and maps exactly its blocks. |
| `CommitEntry.RecheckedIsFresh` | src/tx/write.h:100-115 | However often an entry was rechecked, it is the one that would be prepared with the size seen last. |
| `CommitEntry.LeftoverRewritten` | src/tx/write.h:114-114 | Rewriting the leftover gives the log entries that would have been appended with it. |
| `Layout.SizeLaw` | src/tx/write.h:72-79 | The arithmetic of that law, for one preparation. |
| `BlkTable.BlkTable.UpdateUnsafe` | src/blk_table.h:103-145 | Brings the table from the replay of the entries before its cursor to the replay of all entries, across blocks, overflowed cursors and table growth; with a bitmap, marks exactly the blocks in use. |
| `BlkTable.BlkTable.ApplyIndirect` | src/blk_table.h:186-212 | Applies a chain of log entries as one transaction and marks its blocks. |
| `BlkTable.BlkTable.ApplyEntry` | src/blk_table.h:194-206 | One entry of a chain changes its own blocks and no others, with all writes inside the table. |
| `BlkTable.BlkTable.ApplyInline` | src/blk_table.h:218-235 | An inline entry changes its blocks and no others, and raises the size to its end. |
| `BlkTable.BlkTable.GrowToFit` | src/blk_table.h:175-178 | The table reaches past the wanted index, new cells are unmapped, and a table that is long enough stays. |
| `BlkTable.HandleOverflow` | src/cursor/tx_entry.h:60-90 | The position stays; it fails exactly at the end of the log with no next block. |
| `BlkTable.ChainRoundTrip` | src/blk_table.h:186-212 | Applying what `Append` wrote maps the extent, and nothing else, to its chunks. |
| `Incremental.StaysUpTo` | src/blk_table.h:103-115 | While the log grows, a table stays the replay of the entries before its cursor. |
| `Incremental.AnyInstalments` | src/blk_table.h:121-132 | Tables brought up to date at the same state agree, in whatever instalments they replayed the log. |
| `Incremental.HistoryGrows` | src/blk_table.h:103-145 | The transactions that the log stands for only gain members at the end. |
| `Incremental.SameMeaning` | src/cursor/log.h:68-86 | Following a chain in memory has one result. |
| `Seqlock.UpdateReturns` | src/blk_table.h:81-87 | What a call of `update` returns, with or without the lock, is the file state of a moment during the call as a whole: table and size were the replay of exactly the entries before its cursor. It has every entry that was committed before the call. |
| `Seqlock.UpdateEnds` | src/blk_table.h:81-87 | A call does not return without that. |
| `Seqlock.NoLockNeeded` | src/blk_table.h:160-173 | A call does not take the lock if the table is up to date and, until it returns, nobody takes the lock and nothing is committed. |
| `Seqlock.UpdaterNeverStuck` | src/blk_table.h:119-142 | The holder of the lock always has a step to take that brings it nearer to the end of the log and to its release; a cell that it writes is then that of the entry that it replays. |
| `Seqlock.LogIsCommitted` | src/blk_table.h:121-132 | The log that is replayed is what was committed, in order. |
| `Seqlock.NeverBehind` | src/blk_table.h:75-79 | From then on every cell of the table is that of a replay of at least those entries. |
| `Seqlock.StepInv` | src/blk_table.h:116-142 | Every step of the updater and of the other callers keeps the version lock's invariant. |
| `Alloc.BlockAllocator.Alloc` | src/alloc/block.h:35-122 | Free lists and bitmap hold every block as often as before, apart from the blocks handed out; a long enough listed run is always used, and one of the right length as a whole; exactly the bitmap words that were passed are used up; failure means that no later word has a free block; listed runs and the result stay in one piece of the mapping each. |
| `Alloc.BlockAllocator.AllocFromBitmap` | src/alloc/block.h:62-122 | The retry loop ends, with a run or with all later words used up. |
| `Alloc.BlockAllocator.CutWord` | src/alloc/block.h:72-115 | For every word the clear bits are exactly the result and the listed runs, the result is the lowest run that is long enough, and all these runs are in one piece of the mapping. |
| `Alloc.NextRun` | src/alloc/block.h:76-87 | Finds the next maximal run of clear bits. |
| `Alloc.BlockAllocator.FreeImage` | src/alloc/block.h:138-170 | Each nonzero block of the image enters the lists exactly once, in runs of consecutive blocks; it fails exactly if a run is longer than 64. |
| `Alloc.BlockAllocator.FreeRun` | src/alloc/block.h:127-132 | The lists gain the run, and block 0 is ignored. |
| `Alloc.BlockAllocator.TakeListed` | src/alloc/block.h:38-46 | Every listed run comes out again as a whole: repeated allocations of its length return it. |
| `Alloc.BlockAllocator.HandsOut` | src/alloc/block.h:35-122 | Allocating block by block hands out exactly the free blocks before it fails. |
| `Alloc.BlockAllocator.ReturnFreeList` | src/alloc/block.h:175-179 | The bitmap gains exactly the blocks of listed runs that lie in the word of their run's first block. |
| `Alloc.RunsExpand` | src/alloc/block.h:138-170 | The runs of an image, written out in order, are its nonzero blocks. |
| `Alloc.ShortImageIsListable` | src/alloc/block.h:159-168 | Images of at most 64 blocks have a list for every run. |
| `Alloc.LongImageIsNot` | src/alloc/block.h:159-168 | 65 consecutive blocks do not. |
| `Alloc.PushAllCount` | src/alloc/block.h:138-170 | Pushing runs adds each of their blocks to the lists once. |
| `Alloc.PushAllPieced` | src/alloc/block.h:138-170 | After freeing, every listed run is in one piece of the mapping exactly if every one was before and every run of the image is. |
| `Alloc.WordInOnePiece` | src/alloc/block.h:72-115 | A run inside one bitmap word is in one piece of the mapping. |
| `Alloc.NeverTwice` | src/alloc/block.h:35-122 | If no block was held twice, none is after an allocation, and what is handed out is held nowhere. |
| `Alloc.ReturnedIff` | src/bitmap.h:186-193 | A run is returned completely exactly if it stays inside its first word. |
| `Alloc.GivenBackAgain` | src/alloc/block.h:175-179 | Lists that are given back twice: after the first time their blocks are free twice, and the second time changes nothing exactly if they are all still free in the bitmap. |
| `Alloc.HandedOutTwice` | src/alloc/block.h:35-179 | A run: a list is given back, a second thread gets its block, the list is given back again, and a third thread gets the same block. |
| `Alloc.FreeAndReturn` | src/alloc/block.h:138-179 | Consecutive blocks freed together and given back: the bitmap gains their part in the first word and nothing else. |
| `Alloc.TailStaysMarked` | src/alloc/block.h:138-179 | Ten blocks, six of which stay marked although nobody holds them. |
| `Alloc.BitmapMgr.TryAlloc` | src/bitmap.h:167-177 | Takes the first word with a free block from the hint on, as a whole. |
| `Alloc.BitmapMgr.FreeBits` | src/bitmap.h:65-72 | Clears exactly the bits of the run inside one word. |
| `Alloc.BitmapMgr.SetAllocated` | src/bitmap.h:121-125 | Marks one block and no other. |
| `Recovery.Recover` | src/file/file.cpp:27-43 | An empty bitmap becomes one that marks exactly block 0, the mapped blocks, the log blocks of all chains and the transaction blocks that hold an entry, as far as the replay comes; table and size are that replay. |
| `Recovery.RecoverAndTake` | src/file/file.cpp:27-43 | After recovery a block can be handed out exactly if it is none of these. |
| `Recovery.NeverHandedOut` | src/alloc/block.h:35-179 | Whatever any number of threads allocate, free and give back to the bitmap later, a marked block is not handed out before it is freed itself. |
| `Recovery.RecoverAndAlloc` | src/file/file.cpp:27-43 | Of the blocks that the replay passes, that is so exactly for the last one, if it is not the meta block, holds no entry and is used by none. |
| `Recovery.LinkedButFree` | src/alloc/tx_block.h:56-91 | A run of one-block writes that fills the meta block and links a second one ends in such a log. |
| `Rebuild.RebuildAndTake` | src/gc.h:150-178 | After a collection and a rebuild of the bitmap, a block can be handed out exactly if it is not block 0, not of the new list, and neither a log block nor a mapped block of the new history. |
| `Rebuild.CollectedIsLog` | src/blk_table.h:120-132 | What the replay of a collected file passes is the meta block and the new list, whatever the last link is. |
| `Rebuild.TailIsHandedOut` | src/gc.h:150-178 | A file of one block: neither the old tail block nor the block of a later write behind it is marked. |
| `Compaction.CompactionIff` | src/gc.h:98-150 | The emitted history, all of it in entries that can be stored, has the table's mapping and size exactly if the file is not empty and has no hole behind its first block. |
| `Compaction.CompactionOfWrites` | src/gc.h:98-150 | For the table of any history of writes that is exactly if every block of the file but the first has been written. |
| `Compaction.MappedIffWritten` | src/blk_table.h:186-235 | A block is mapped exactly if some write covered it. |
| `Compaction.Compact` | src/gc.h:98-150 | The loop emits the history that the other members of this module are about. |
| `Compaction.EmitMaps` | src/gc.h:106-130 | Without holes, what is emitted from an open extent on maps every later block as the table does and every extent is at most 63 long. |
| `Compaction.EmitJoins` | src/gc.h:106-116 | Without holes, each extent starts behind the one before it, and continues it only if that has 63 blocks. |
| `Compaction.HoleSplits` | src/gc.h:106-116 | With a hole, one may continue a shorter one. |
| `Compaction.EmitSize` | src/gc.h:133-148 | The last entry gives back the size. |
| `Compaction.EmitExtent` | src/gc.h:106-130 | With holes, a hole is mapped as part of the extent before it. |
| `Compaction.SparseFileBreaks` | src/gc.h:109-113 | A file with a hole that compaction changes. |
| `Compaction.EmptyFileGrows` | src/gc.h:133-140 | The loop makes a file of a block of an empty one; a collection does not start for an empty file. |
| `Compaction.CompactedHistory` | src/gc.h:156-158 | A replay of the new history, of the old tail block's entries once more and of everything later would give what the old history gives; no replay from the meta block is of that kind, see `NewHistory.ReplaySeesIff`. |
| `Compaction.HistoryBounded` | src/gc.h:105-106 | Nothing is mapped past the end of the file, so the loop sees the whole table. |
| `NewList.CreateList` | src/gc.h:90-178 | Slot by slot: the new blocks hold the entries in order, then what they held before, except for zeros in the last cache line; each leads to the next one, the last one to the old tail block, or to block 1 if the entries fill it; the list is given up exactly if the old one is not longer, by the sequence number of the block that was linked last. |
| `NewList.StoreEntries` | src/gc.h:91-150 | The loop that stores the entries takes a new block exactly when one is full and an entry is left. |
| `NewList.Pad` | src/gc.h:152-155 | The padding loop pads nothing; behind a full block it sets the link to 1, the low half of the dummy entry, and leaves for block 1. |
| `NewList.ReplayOfList` | src/blk_table.h:120-132 | A replay from the meta block sees the dummy entries, the new ones, and then the rest of the last block, or, if that is full, what its link leads to. |
| `NewHistory.ReplaySeesIff` | src/gc.h:152-158 | It sees the new entries and no others exactly if the slot behind them is in the last cache line or was empty before, whatever the old tail block holds. |
| `NewHistory.CollectedReplay` | src/gc.h:90-178 | Then, and if nothing has been written since, a table opened after the collection has the mapping and the size of the one that was collected. |
| `NewHistory.OpenedAfterIff` | src/gc.h:156-158 | It agrees with the tables of those who go on in the old tail block exactly if what has been written there since leaves every block where it was. |
| `NewHistory.OpenedAfterWrites` | src/gc.h:156-158 | For writes to blocks other than those mapped before, that is exactly if there are none. |
| `NewHistory.AppendToList` | src/cursor/tx_entry.h:105-154 | A commit of a table opened later goes into the slot behind the new entries. |
| `NewHistory.ReplayGoesOn` | src/blk_table.h:120-132 | When such commits have filled the block, a replay goes on with the old tail block. |
| `NewHistory.ReplayedLateIff` | src/gc.h:156-158 | Applying the old tail block's entries so late changes nothing exactly if every block that both have written is where the collection had it. |
| `NewHistory.ReplayedLateWrites` | src/gc.h:156-158 | For writes to blocks other than those mapped before, that is exactly if no block was written by both. |
| `NewHistory.LateExample` | src/gc.h:156-158 | A file of one block whose new contents are undone that way. |
| `NewHistory.FullListExample` | src/gc.h:106-155 | A file of 510 scattered blocks fills the last block of its new list. |
| `NewHistory.DummiesMeanNothing` | src/block/meta.h:215-219 | The meta block's dummy entries change neither mapping nor size. |
| `Pins.ScanPinned` | src/gc.h:187-207 | Computes exactly the blocks before the tail that can be reached from a pin, a set closed under links; it ends because sequence numbers increase, and fails exactly if block 0 is pinned. |
| `Pins.PinnedMeta` | src/cursor/tx_block.h:37-45 | A thread in the meta block and a list of two blocks before the tail: the scan fails. |
| `Recycling.Recycle` | src/gc.h:209-253 | Of the old list and the orphans exactly the blocks are freed, each once, that the scan has not found: those that no pin leads to by blocks that all precede the tail. The orphan list, link by link, is then the kept orphans in order and, only if there was no orphan or the last one is kept, the kept blocks of the old list; all other links stay. |
| `Recycling.RecycleInto` | src/gc.h:209-263 | With the allocator: its free lists gain each of these blocks once, and nothing else. |
| `Recycling.FreeOrphans` | src/gc.h:215-226 | The walk unlinks and frees exactly the orphans that are not pinned, and ends on the last one, freed or not. |
| `Recycling.Hang` | src/gc.h:243-250 | The kept blocks are hung one behind the other on the block where that walk ended. |
| `Recycling.KeptIsListedIff` | src/gc.h:215-250 | Every kept block is on the orphan list exactly if there was no orphan, the last one is kept, or nothing of the old list is kept. |
| `Recycling.ListedUnique` | src/block/tx.h:29-32 | The links determine the orphan list. |
| `Recycling.LostBlock` | src/gc.h:215-250 | An orphan that nobody has pinned and an old list whose second block is pinned: that block is kept and on no list. |
| `Pins.ClosedReaches` | src/cursor/tx_block.h:37-45 | Following links from a member of a closed set never leaves it before the tail. |
| `PinExact.NeverDanglingIff` | src/gc.h:187-250 | In a run of link, pin and collection steps, following links from a pin leads only to blocks that exist, in every state, exactly if at every collection the orphans that some thread comes to precede the tail. |
| `PinExact.SafeIff` | src/gc.h:187-226 | One collection removes no block that some thread comes to exactly if that is so. |
| `PinExact.FreedWhilePinned` | src/gc.h:187-226 | A run of two collections, the second of which frees a block that a thread has pinned. |
| `PinExact.PinnedOrphan` | src/gc.h:209-226 | The recycling of that second collection. |
| `PinSafety.ReachedIff` | src/gc.h:187-207 | The scan finds exactly the blocks before the tail that some thread comes to. |
| `PinSafety.LaterTailCovers` | src/gc.h:31-45 | The condition holds if the tail is not before that of any earlier collection. |
| `PinSafety.NeverDangling` | src/gc.h:209-250 | In every state of every run whose collections meet that condition, following links from a pin leads only to blocks that exist. |
| `PinSafety.SameView` | src/gc.h:151-250 | Such a collection leaves every block that a thread can reach from its pin as it was. |
| `PinSafety.CollectStep` | src/gc.h:151-250 | It keeps the order of things: links lead to larger sequence numbers, every block that someone can come to is in the chain, on the orphan list or lost, and the links of the orphan list spell it. |
| `PinSafety.RecycleIsStep` | src/gc.h:209-253 | What `Recycle` returns makes a collection step, whatever the tail; blocks that leave the world are the freed ones and lost ones that no thread comes to. |
| `PinSafety.LosesIff` | src/gc.h:215-250 | In every state in that order, a collection loses a block exactly if the scan has not found the last orphan and has found some block of the old list. |
| `PinSafety.ReadyToRecycle` | src/gc.h:151-158 | When the new list is linked in, what the scan of pins, the walk along the orphans and the recycling rely on holds, also after earlier collections. |
| `PinSafety.FromTxLog` | src/cursor/tx_block.h:75-91 | The chain that the slot list keeps is in that order, so runs of collections can start from it. |
| `Conflict.RightIff` | src/tx/tx.h:171-189 | The conflict image is what the other transaction mapped exactly for extents that start at the same block or do not meet. |
| `Conflict.WrongImage` | src/tx/tx.h:171-189 | Three blocks and an extent that starts at the second: the image names the wrong block. |
| `Conflict.ConflictImage` | src/tx/tx.h:171-189 | The loop computes the image that `RightIff` is about, with 32-bit indices. |
| `Conflict.Scan` | src/tx/tx.h:97-153 | The size after catching up is the largest of the old one and those read off the entries. It is at most the true one exactly if no entry wraps, and then the true one exactly if the file has not grown or an entry that ends it has a count that is no multiple of 64. |
| `Conflict.ShortScan` | src/tx/tx.h:131-137 | A file of 64 blocks written at once, whose size is not noticed. |
| `Conflict.ScanTx` | src/tx/tx.h:104-139 | For one transaction: never too large unless it wraps, and exact for inline entries and for chains whose last count is no multiple of 64. |
| `Conflict.EstimateIs` | src/tx/tx.h:131-137 | What the code reads off a log entry: its end, 64 blocks less for multiples of 64, or a number near 2^64. |
| `Conflict.WrappingWrite` | src/tx/tx.h:131-137 | A write that makes such an entry. |
| `Conflict.OneBlockIsComparable` | src/tx/tx.h:171-189 | One-block extents never give a wrong image. |
| `FileSeq.SeqFile.Pwrite` | src/file/write.cpp:6-30 | A successful write changes the file as it changes a byte array, for every offset and length and every placement of the mapping; bytes past the end inside mapped blocks are zero; errors leave it unchanged. Memory is overrun only if a listed run leaves its piece or a superseded run is longer than 64. If the lists hold a run for every chunk, these are taken from the top, and the write succeeds exactly if each can be filled through its first block and no superseded run is longer than 64; its transaction and the new lists are then determined. A successful write keeps listed runs in one piece each exactly if the superseded ones are. Space runs out only if no word from the last one used on has a free block; shorter listed runs may remain. |
| `FileSeq.SeqFile.Pread` | src/file/read.cpp:6-15 | A read returns what the byte array holds, cut at its end. |
| `FileSeq.SeqFile.CopyBlocks` | src/tx/read.h:51-76 | The coalescing copy loop is right wherever the blocks are in memory. |
| `FileSeq.SeqFile.AllocChunks` | src/tx/write.h:48-55 | The destination's blocks were free, are all different and are not mapped, and its chunks are in one piece each if the listed runs were; lists that hold a run for every chunk are used as they are. |
| `FileSeq.SeqFile.Commit` | src/tx/write_aligned.h:41-93 | Committing the filled blocks and recycling the superseded ones keeps mapped and free blocks apart. |
| `FileSeq.SeqFile.Fill` | src/file/write.cpp:12-29 | All three kinds of transactions, copying chunk by chunk through the address of the chunk's first block, give the destination's blocks the bytes that the file is to have there, and change no other block. |
| `FileSeq.CommitMeaning` | src/tx/write.h:81-98 | The prepared entry, inline or indirect, maps the write's blocks and no others and gives the file its new size. |
| `FileSeq.RecycleStep` | src/tx/write_unaligned.h:290-295 | What becomes free is not mapped and was not free before. |
| `FileCrossing.CrossingExample` | src/tx/write.h:48-59 | Three writes to a new file: 512 blocks, ten of them again, and ten more. The first two succeed, the third one overruns its piece, wherever it goes. |
| `FileCrossing.FirstFile` | src/alloc/block.h:35-46 | There is such a file: no other blocks are free than those the lists hold. |
| `FileCrossing.WholeTops` | src/alloc/block.h:38-46 | A write of whole chunks takes the listed runs of 64 blocks from the top. |
| `FileLog.LoggedFile.Pwrite` | src/tx/write_aligned.h:14-93 | With the log entries taken from the same allocator: data blocks, log blocks and free blocks stay apart, the file changes as a byte array does or not at all, and the log entries of all transactions so far stay in memory as they were written. A writer that has seen a new transaction block shares no log block with earlier transactions. |
| `FileLog.LoggedFile.Replayable` | src/blk_table.h:186-212 | So the slots and log entries in memory stand for exactly the history that the file represents. |
| `FileLog.LoggedFile.AppendLog` | src/alloc/log_entry.h:34-127 | A chain takes free blocks and the rest of the current log block, never a block of the destination or of the file. |
| `FileLog.CommitApart` | src/tx/write_unaligned.h:290-295 | Superseded blocks that become free are not log blocks. |
| `FileMem.FilledBlocks` | src/tx/write_aligned.h:24-29 | If every chunk is contiguous in memory, filling the chunks fills exactly the blocks of the extent. |
| `FileMem.CrossingLeaves` | src/tx/write_aligned.h:24-29 | Of a run that leaves its piece, in some placement, a block keeps its contents whatever is copied. |
| `FileData.FillMulti` | src/tx/write_unaligned.h:161-248 | The destination, chunk by chunk in memory, holds the old part of the first block, the buffer and the old part of the last block; memory outside it is unchanged. |
| `FileData.FillFull` | src/tx/write_unaligned.h:174-200 | The full blocks get their part of the buffer, and nothing else changes. |
| `FileData.FullPart` | src/tx/write_unaligned.h:178-198 | No copy of full blocks leaves its chunk, and together they leave no gap. |
| `FileData.FillSingle` | src/tx/write_unaligned.h:72-97 | The destination holds the buffer between the left and the right part of the replaced block; memory outside it is unchanged. |
| `FileData.FillAligned` | src/tx/write_aligned.h:17-31 | The destination holds the buffer, and memory outside it is unchanged. |
| `ByteFile.ReadBack` | src/file/write.cpp:6-30 | The reference file: what is written is read back, gaps are zeros, the rest stays. |
| `OffsetRing.TicketOrder` | src/offset.h:56-119 | Without reads at the end of the file, with any number of operations in flight: writes commit in the order of their tickets, the ranges recorded for them tile the file, and somebody can always go on. |
| `OffsetTrace.CallGets` | src/offset.h:56-67 | The range of a call starts where the offset was, behind all that earlier calls asked for, and is as long as the call asked for. |
| `OffsetTrace.OffsetIsTotal` | src/offset.h:56-67 | The offset has moved by the sum of what was asked for, and every call has got the next ticket. |
| `OffsetTrace.CommitsInCallOrder` | src/tx/tx.h:75-80 | In terms of the calls: of two writes, the one that commits first was called first, and all bytes that it asked for are before those of the other. |
| `OffsetTrace.OnlyCommitsAreLogged` | src/tx/tx.h:75-80 | The log of commits has as many members as writes have been committed. |
| `OffsetTrace.PassesOnce` | src/offset.h:74-119 | A call that has returned, and was not a read at the end of the file, has committed or validated exactly once. |
| `OffsetRing.ReleaseIsKept` | src/offset.h:74-85 | A slot keeps a ticket until the next one has seen it. |
| `OffsetRing.CommitsInFileOrder` | src/tx/tx.h:75-80 | Writes commit in the order of the ranges recorded for them, which never overlap. |
| `OffsetRing.LiveIff` | src/tx/read.h:40-44 | Without a bound on the tickets in flight, somebody can always go on in all runs exactly if no read starts at the end of the file. |
| `OffsetWindow.WindowIff` | src/offset.h:74-119 | With such reads, somebody can always go on exactly if at most 15 tickets are issued from the oldest unreleased one on. |
| `OffsetWindow.StaysLive` | src/offset.h:74-119 | Then the oldest operation in flight can always go on. |
| `OffsetRing.LostForever` | src/offset.h:112-119 | A ticket whose predecessor's release was overwritten never gets on. |
| `OffsetRing.StepInv` | src/offset.h:74-119 | Every step keeps the ring's invariant: the slots hold the latest tickets of a released prefix. |
| `MemTable.MemTable.LidxToAddr` | src/mem_table.h:100-125 | The address returned for a block shows that block of the file, which has grown past it, after any sequence of lookups; pieces stay where they are. |
| `MemTable.MemTable.GrowToFit` | src/mem_table.h:136-150 | The file reaches past the whole piece that is mapped next, and no further; a block that the meta block knows of needs nothing. |
| `MemTable.MemTable.constructor` | src/mem_table.h:57-80 | A file that is empty or no multiple of the growth unit is extended to the next one, which the meta block then knows; the whole file is the first piece. |
| `MemTable.ChunkOf` | src/mem_table.h:105-121 | Piece and place of a block are right because the first piece is a multiple of the growth unit. |
| `MemTable.ContiguousIff` | src/mem_table.h:100-121 | The blocks of a run follow each other in memory, wherever the pieces are mapped, exactly if the run ends in the first piece or lies in one later piece. |

## Left out

- BlkTable.BlkTable.UpdateUnsafe: a bitmap is passed only when the replay starts at the beginning of the log, as at recovery; an allocator that links a new block during the replay is the `Take` and `Link` steps of `TxLog`.
- FileSeq.SeqFile.Pwrite: the room for the first log entry is a parameter, which `LoggedFile.Pwrite` takes from its log; nothing is promised about the file after `Overrun`, where the source has overwritten other memory; a full bitmap, which ends the process in the source, is the error `NoSpace`.
- FileLog.LoggedFile.Pwrite: when there is no space for the log entries, the destination's blocks are neither used nor given back, as in the source, where the process ends.
- Concurrent multi-block transactions: their conflict image and size are not always right (`RightIff`, `Scan`), and the redo of several blocks copies from an outdated source, so `Occ` has one-block transactions only.
- Waiting for the spin lock of the block table, before the snapshot: `LockFree` starts after it.
- Seqlock.UpdateReturns: an update that stops at once, behind a full last block without a successor, moves the version as any other does; in the source it does not.
- Conflict.ScanTx: an inline entry with no blocks is taken to be the dummy entry, which starts at block 0.
- NewList.CreateList: the blocks of a list that is given up are not given back.
- PinSafety.CollectStep: the new list leads to the old tail block, which is so if its last block is not full (`CreateList`).
- NewHistory.OpenedAfterWrites: a write that takes a block which an earlier one has freed, at the very place where the collection had it, is not to a new block; `OpenedAfterIff` covers it.
- NewHistory.ReplayedLateWrites: nor here; `ReplayedLateIff` covers it.
- Recycling.Recycle: log blocks freed together with a transaction block are not in the result.
- Reads through the shared offset that start behind the end of the file, where the count is subtracted below zero, and seeking; the count of a read is the one after its cut at the end of the file.
- Weak memory orders, and persistence of data blocks and log entries, which are flushed before the commit; runs that go on after a crash, where the meta block can have its link before its last entries.
- Conversion of ordinary files, memory-mapped access, `stat`, shared-memory files, thread liveness, locks other than the default one, and interposition on the C library: no state of this model.
- Clocks and the kernel: where the pieces of a file are mapped is a parameter.
