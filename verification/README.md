# xv6-riscv with an RCU process list: a verified model

A Dafny model of the hard parts of this kernel and of three of its user programs,
with proofs about every run and every input.

| area | modules | main results |
|---|---|---|
| redo log, crash recovery | `Blocks`, `RedoLog`, `CrashRuns`, `Log`, `LogRuns`, `FsCrash`, `FsRuns` | after any crash point of any run, recovery leaves all home blocks, and so all files, as before or as after the committing group; exactly when commit() finds its buffers |
| log space | `Reservation`, `Log` | with operations within their budget a new block always fits exactly when the log area has 31 blocks; exactly when an absorbed write panics |
| buffer cache | `Bio` | one buffer per block, counts equal holders and pins, the LRU ring stays a permutation, what is seen never changes by caching |
| files | `Bitmap`, `FsModel`, `FsTrunc`, `Fs` | writes and reads are splice and slice of one byte sequence, blocks have one owner; filewrite writes exactly as far as bytes and file size allow, every transaction within 10 blocks |
| page tables | `Sv39`, `Kalloc`, `Vm`, `Uvm`, `UvmFree`, `UvmRuns` | the three-level tree refines a flat map; map, unmap, grow, copy and free with exact rollback; pages are free once or owned once |
| RCU | `Rcu`, `RcuProgress`, `RcuTraversal`, `RcuFree`, `RcuList` | no interleaving takes a reader to a reclaimed node; a grace period can end exactly when every other CPU idles or has switched, and every removed node can be reclaimed from every state of every run; walks miss no node that stays; exactly when freeing without the grace period is safe; each store shows the old or the new list |
| disk driver, pipe | `Virtio`, `Pipe` | descriptor ownership with an asynchronous device and wrapping rings; FIFO order over any run with wrapping counters |
| link counts | `LinkCount`, `Links`, `LinkRuns` | nlink equals the entries naming the inode across link, unlink, create and reclamation, exactly when nothing is created in a removed directory |
| first states | `Fresh` | an empty formatted disk and a lone root directory meet the invariants |
| user programs | `FreeBlocks`, `Umalloc`, `Regex`, `Grep`, `ShParse`, `ShRound`, `ShGrammar`, `Sh` | the K&R heap, the regular-expression matcher and line reader; the shell parser accepts exactly the lines of a grammar, each with its one meaning |

The form follows the source: code that changes state in place is a class or a method with
loops, proved against values; protocols shared with other CPUs or a device are step
relations or sequences of atomic calls. `panic()` is an outcome that the contracts
describe, not a precondition.

## What the proofs found

- `commit()` panics exactly when blocks are logged, every buffer is pinned or held by somebody, and
  the log header or one of the log blocks it needs is not cached (`Log.Log.Commit`). Without readers
  that is exactly a log of 30 blocks, because NBUF = LOGSIZE = 30 (`Log.Log.CanCommitAlone`);
  `Reservation.Fill` reaches such a log with three operations, each within its budget. `fileread()`
  and `filestat()` hold buffers outside operations, so fewer logged blocks can do:
  `LogRuns.ReaderStopsCommit` is a run with 29.
- `log_write()` refuses a block that is new to the log, for operations within their budgets, exactly
  when the log area has no more than LOGSIZE = 30 blocks, one of them the header
  (`Reservation.NewFitsIff`, `Reservation.SmallPanics`).
- `log_write()` tests for a full log before it looks for the block, so in a larger area rewriting a
  block already logged panics exactly when 30 blocks are logged (`Reservation.RunPanicIff`,
  `Reservation.AbsorptionCanPanic`).
- `morecore()` passes a byte count to `sbrk(int)`: the bytes obtained stay those recorded exactly when
  a new region has less than 2^31 bytes (`Umalloc.Heap.Malloc`, `Umalloc.SbrkExact`,
  `Umalloc.SbrkTruncates`).
- `piperead()` removes a byte it does not deliver exactly when the accessible bytes run out before both
  the bytes asked for and the bytes available (`Pipe.Pipe.Read`, `Pipe.LosingRun`). What readers get is
  the bytes written, in order, exactly when that has never happened (`Pipe.FifoIff`).
- When `uvmcopy()` runs out of memory, undoing panics exactly when one of the pages copied so far has no
  permission bit (`Uvm.UvmCopy`, `Uvm.CopyBack`; `UvmRuns.BareCopy` is a run). No caller in the kernel
  makes such a user page: `uvminit()` and `uvmalloc()` map with W, X, R and U (kernel/vm.c:211,
  kernel/vm.c:234), `uvmclear()` takes U away (kernel/vm.c:330-338), and `uvmcopy()` copies the flags.
- `kfree()` of a page that is free already is accepted and leaves it on the free list twice; in every
  other case the list stays exact (`Kalloc.Memory.Kfree`).
- A link or a new file in a directory that has been removed but is still in use spoils the link counts;
  in a linked directory it never does (`Links.Volume.Link`, `Links.Volume.Create`,
  `LinkRuns.RemovedParent`).
- `grep` prints nothing from the first line of 1023 bytes or more on, nor from the first line with a
  NUL on, whatever the reads (`Grep.GrepFile`, `Grep.ReadableAll`).
- Freeing a removed process node without the grace period keeps every later run safe exactly when no
  pointer held in an open read section leads to it (`RcuFree.FreeSafeIff`), and `yield()` can free one
  to which a reader's pointer leads (`Rcu.EarlyFreeUnsafe`).

## Model

| member | source | states |
|---|---|---|
| `RedoLog.HeadRoundTrip` | kernel/log.c:86-113 | the block numbers written into the header block are read back from it, in order |
| `RedoLog.ApplyConcat` | kernel/log.c:178-203 | single-block writes compose: a run of writes split anywhere gives the same disk |
| `RedoLog.CommitPhases` | kernel/log.c:193-203 | commit's writes are the log blocks, the header, the home blocks, the empty header, in that order and nothing else |
| `RedoLog.CommittedDurable` | kernel/log.c:193-203 | from the header write on, what recovery would produce is the old home blocks with all logged blocks replaced |
| `RedoLog.CommitAtomic` | kernel/log.c:178-203 | after any prefix of commit's writes recovery yields all old home blocks (up to the header write) or all new ones |
| `RedoLog.RecoveryComplete` | kernel/log.c:116-123 | recovery run to its end gives exactly the durable home blocks and an empty log |
| `RedoLog.RecoveryAtomic` | kernel/log.c:68-123 | a crash after any prefix of recovery's writes leaves the durable home blocks what they were |
| `RedoLog.RecoveredAgain` | kernel/log.c:68-123 | recovering after an interrupted recovery gives the same home blocks as recovering once |
| `CrashRuns.RebootKeepsDurable` | kernel/log.c:68-123 | any number of recoveries cut short anywhere, then one that ends: the durable blocks, an empty log |
| `CrashRuns.CommitStep` | kernel/log.c:193-203 | one commit cut short anywhere and recovered is no commit or the whole commit |
| `CrashRuns.RunMeaning` | kernel/log.c:68-203 | over every run of commits and crashes, also inside recovery, the home blocks are those of a sequence of whole groups |
| `Reservation.StepWithin` | kernel/log.c:126-235 | begin, write and end keep the reservation; a fair write panics exactly when the log area is full, or 30 blocks are logged and its block is among them; end_op()'s own panic is not reached |
| `Reservation.RunWithin` | kernel/log.c:126-235 | the reservation, distinct logged blocks and the size bound hold in every state of every run of any number of operations |
| `Reservation.RunPanicIff` | kernel/log.c:126-235 | from boot, after any run, a step within budget panics exactly when it writes into a full log area or rewrites a logged block of a full header |
| `Reservation.Fill` | kernel/log.c:126-235 | a run of three operations within budget that fills the log |
| `Reservation.AbsorptionCanPanic` | kernel/log.c:220-228 | a reachable state in which a write within budget, to a block already logged, panics |
| `Reservation.SmallPanics` | kernel/log.c:220-221 | for every log area of at most 30 blocks a run of three operations within budget in which a new block is refused |
| `Reservation.NewFitsIff` | kernel/log.c:126-235 | no run refuses a new block to an operation within its budget, exactly when the log area has more than LOGSIZE blocks |
| `Bio.MoveToFront` | kernel/bio.c:124-132 | unlinking and relinking a buffer makes the ring the same order with that buffer first, both ways round |
| `Bio.RecycleSafe` | kernel/bio.c:75-85 | giving an unreferenced buffer to another block changes what no block is seen to hold |
| `Bio.RefDropped` | kernel/bio.c:120-150 | one reference less changes nothing seen, and loses a change exactly when it was the last to a changed, unwritten buffer |
| `Bio.Bcache.constructor` | kernel/bio.c:36-53 | the ring starts as a permutation of all 30 buffers, none holding a block |
| `Bio.Bcache.FindCached` | kernel/bio.c:63-72 | the walk finds the buffer of the block exactly when some buffer has it |
| `Bio.Bcache.FindUnused` | kernel/bio.c:74-78 | the walk from the tail finds the least recently used buffer without references, or there is none |
| `Bio.Bcache.Bget` | kernel/bio.c:58-90 | panics exactly when the block is not cached and every buffer is referenced; otherwise its only buffer gains a holder and every block is seen as before |
| `Bio.Bcache.Bread` | kernel/bio.c:92-103 | the buffer holds what the file system last saw in the block, cached or on disk |
| `Bio.Bcache.Fill` | kernel/log.c:184-185 | a holder's change is seen at once for that block and for no other |
| `Bio.Bcache.Bwrite` | kernel/bio.c:106-112 | exactly one disk write, of this block; nothing seen changes |
| `Bio.Bcache.Store` | kernel/log.c:76-78 | copying into a held buffer and writing it: disk and view of that block agree, the others keep theirs |
| `Bio.Bcache.Brelse` | kernel/bio.c:116-137 | what is seen stays; the cache stays coherent exactly unless a changed, unwritten buffer loses its last reference; without references a buffer becomes the most recently used |
| `Bio.Bcache.Bpin` | kernel/bio.c:139-144 | a pin counts as a reference, so the buffer cannot be recycled |
| `Bio.Bcache.Bunpin` | kernel/bio.c:146-151 | the same for a pin |
| `Log.SomeUnpinned` | kernel/log.c:178-190 | with fewer logged blocks than buffers some buffer is neither held nor pinned |
| `Log.AllPinned` | kernel/log.c:178-190 | with as many logged blocks as buffers every buffer is pinned |
| `Log.FormatHead` | kernel/log.c:102-113 | the loop writes count and block numbers of the header as specified |
| `Log.ParseHead` | kernel/log.c:86-97 | the loop reads back exactly the list the header encodes |
| `Log.Log.BeginOp` | kernel/log.c:126-142 | admits exactly when no commit runs and the logged blocks with 10 for each open operation and this one fit 30; admission keeps the whole invariant, refused callers change nothing |
| `Log.Log.LeaveOp` | kernel/log.c:146-165 | the commit is left to the operation after which none is open |
| `Log.Log.CommitAndReopen` | kernel/log.c:166-175 | fails exactly when commit() finds no buffer; otherwise the log is empty, operations may begin again, and every block on disk is what the cache showed |
| `Log.Log.EndOp` | kernel/log.c:146-175 | the last operation to leave commits the group or panics exactly as commit() does; any other just leaves; the invariant is kept |
| `Log.Log.ValidLoggable` | kernel/log.c:146-203 | the invariant that every call keeps is all that commit() needs |
| `Log.Log.Search` | kernel/log.c:225-228 | finds a logged block exactly when it is logged |
| `Log.Log.LogWrite` | kernel/log.c:214-235 | panics exactly when the log area is full, or 30 blocks are logged and this is one of them; otherwise the block is listed once and its buffer pinned once |
| `Log.Log.Update` | kernel/log.c:205-235 | a transaction's change is seen at once, and either pinned for the commit or refused exactly as by log_write() |
| `Log.Log.Read` | kernel/bio.c:92-103 | a read by anybody, in an operation or not, keeps the log's invariant; it panics exactly when the block is not cached and every buffer is in use |
| `Log.Log.Release` | kernel/bio.c:116-137 | a release by anybody keeps the log's invariant |
| `Log.Log.CanCommitAlone` | kernel/log.c:178-203 | without readers a log can be committed exactly when it is shorter than the cache |
| `Log.Log.CannotCommit` | kernel/log.c:178-203 | with every buffer in use, a log or header block that is not cached stops the commit |
| `Log.Log.WriteLog` | kernel/log.c:178-190 | copies what the cache shows for each logged block to its log block, in order; stops exactly at the first log block that is not cached when every buffer is in use; others' holds stay |
| `Log.Log.WriteHead` | kernel/log.c:102-113 | one write, the header of the current list; fails exactly when the header is not cached and every buffer is in use |
| `Log.Log.InstallTrans` | kernel/log.c:68-83 | writes each logged block home, in order, and unpins it, whoever else holds buffers |
| `Log.Log.Commit` | kernel/log.c:193-203 | succeeds exactly when it needs no buffer, a buffer is free, or all blocks it needs are cached; the disk passes through exactly the planned writes, all of them or a part before the header; every block is seen as before, and on success is on disk as seen |
| `Log.Log.CommitCrashPoint` | kernel/log.c:193-203 | stopping after any write of commit, by a crash or by its panic, recovery gives all blocks as on disk before or all as the cache showed them |
| `Log.Log.ReadHead` | kernel/log.c:86-97 | the in-memory list becomes the one on disk |
| `Log.Log.RecoverFromLog` | kernel/log.c:116-123 | on a fresh cache: exactly the recovery writes, ending with the durable home blocks and an empty log |
| `LogRuns.Boot` | kernel/log.c:53-66 | from whatever a crash left, initlog() gives the invariant, an empty log and the durable blocks |
| `LogRuns.AllInUse` | kernel/bio.c:74-89 | 29 distinct pinned blocks and one more held buffer are all 30 buffers |
| `LogRuns.ReaderStopsCommit` | kernel/file.c:107-130 | a run from boot in which three operations within budget log 29 blocks, a reader holds one buffer, and the last end_op() panics |
| `Bitmap.SetBit` | kernel/fs.c:72-76 | sets that bit of the bitmap block and leaves every other bit |
| `Bitmap.ClearBit` | kernel/fs.c:96-100 | clears that bit and leaves every other bit |
| `FsModel.InodeRoundTrip` | kernel/fs.c:221-237 | an inode written by iupdate is read back, and every other inode of the block is untouched |
| `FsModel.AttachedSound` | kernel/fs.c:377-405 | hanging a fresh block into an empty slot keeps every block owned once, marked, and every file whole |
| `FsModel.AttachedExtends` | kernel/fs.c:377-405 | it changes no byte any file shows |
| `FsModel.DataSound` | kernel/fs.c:494-506 | writing a file's own data block keeps ownership and the maps of all files |
| `FsModel.SliceOfSplice` | kernel/fs.c:455-517 | reading back what was written gives the bytes written |
| `FsModel.ContentSplice` | kernel/fs.c:486-517 | blockwise stores with the new size are a splice of the flat contents |
| `Fs.Fs.FindFree` | kernel/fs.c:64-86 | the lowest free block, or none is free |
| `Fs.Fs.Balloc` | kernel/fs.c:64-86 | takes the lowest free block, marks and zeroes it, changes nothing else; panics exactly when the disk is full |
| `Fs.Fs.Bmap` | kernel/fs.c:377-405 | the block mapped at that index, allocated when missing with every file's bytes unchanged; bounds the bitmap and index blocks it logs |
| `Fs.Fs.Iupdate` | kernel/fs.c:221-237 | memory and disk agree on every inode; no file's bytes or blocks change |
| `Fs.Fs.Writei` | kernel/fs.c:486-517 | refused exactly for the three checks; otherwise the contents are spliced with the accessible bytes, kind and links of the inode and every other file are unchanged, and three blocks' worth logs at most 10 blocks; panics only with the disk full and a block missing |
| `Fs.Fs.Readi` | kernel/fs.c:455-481 | the slice of the contents, or -1 when the destination is too small; allocates nothing |
| `Fs.SpanBound` | kernel/file.c:149-174 | a write of three blocks' worth touches at most four file blocks |
| `Fs.Fs.BudgetSum` | kernel/file.c:149-174 | four data, four bitmap, one index and one inode block bound each transaction by MAXOPBLOCKS |
| `Fs.FurthestAll` | kernel/file.c:149-179 | with all bytes accessible and the end within the largest file, the furthest point is the end |
| `Fs.StoppedFurthest` | kernel/file.c:149-174 | a short round ends at the furthest point: the next block or the next round does not fit |
| `Fs.Fs.FileWrite` | kernel/file.c:134-180 | writes as far as the accessible bytes and the largest file allow: all of it when both do, otherwise up to the last block or transaction boundary before; the bytes reported are the bytes spliced, every transaction logs at most 10 blocks, and it panics only with the disk full and a block missing |
| `Fs.Fs.Bfree` | kernel/fs.c:89-103 | panics exactly for a free block; otherwise exactly that bit is cleared |
| `FsTrunc.FreedExactly` | kernel/fs.c:409-437 | freeing every slot of an inode frees its blocks and no other |
| `FsTrunc.TruncatedSound` | kernel/fs.c:409-437 | afterwards ownership and all other files are intact |
| `Fs.Fs.Itrunc` | kernel/fs.c:409-437 | exactly the inode's blocks become free, the free-block panic is not reached, other files keep their bytes |
| `FsCrash.ListsLoggable` | kernel/fs.c:486-517 | what a file-system transaction logs is on the disk and outside the log |
| `FsCrash.FilesCrashAtomic` | kernel/log.c:178-203 | for every crash point of the commit of a transaction's logged blocks every file, read through its on-disk inode, is as before or as after the transaction |
| `FsRuns.Transaction` | kernel/log.c:178-203 | for a transaction that fits the log there is a header list for which that holds at every crash point, for every file |
| `FsRuns.WriteCrash` | kernel/fs.c:486-517 | a writei() transaction, its commit stopped after any write, and a reboot: every file is old, or the file is the splice and every other file old |
| `FsRuns.TruncCrash` | kernel/fs.c:409-437 | the same for itrunc(): the file is whole or empty |
| `Fresh.FormattedDisk` | kernel/fs.h:8-52 | an empty formatted disk of any layout meets the ownership, on-disk inode and empty-log conditions the proofs start from |
| `Sv39.PteRoundTrip` | kernel/riscv.h:336-341 | an entry gives back the page and flags it was made from |
| `Sv39.OrIsSum` | kernel/vm.c:150 | address and flag bits of an entry do not overlap |
| `Sv39.TreeTranslate` | kernel/vm.c:80-98 | in an unshared tree the walk ends at the leaf table of the page number |
| `Sv39.GrowTranslate` | kernel/vm.c:86-95 | hanging a zeroed table into an empty entry changes no translation of any table |
| `Sv39.LeafTranslate` | kernel/vm.c:144-156 | a store to one leaf entry changes the translation of that page of that table alone |
| `Kalloc.Memory.constructor` | kernel/kalloc.c:26-40 | every page from the kernel's end to PHYSTOP is on the free list exactly once |
| `Kalloc.Memory.FreeRange` | kernel/kalloc.c:33-40 | frees each whole page of the range and only those |
| `Kalloc.Memory.Kfree` | kernel/kalloc.c:46-63 | panics exactly outside RAM; otherwise the page heads the list, which still names every free page once exactly when the page was not free already |
| `Kalloc.Memory.Kalloc` | kernel/kalloc.c:68-82 | 0 exactly when no page is free; otherwise one page leaves the list and nothing else changes |
| `Vm.SlotSame` | kernel/riscv.h:343-346 | two addresses have the same slot exactly when they share a page of the same table |
| `Vm.Descend` | kernel/vm.c:86-95 | one level of the walk: an existing table, a new one, or no free page; no translation changes |
| `Vm.Walk` | kernel/vm.c:80-98 | the slot of the page's entry; missing without allocation exactly when there is no leaf table; every translation kept |
| `Vm.MapPages` | kernel/vm.c:137-157 | map extension: the pages of the range, unmapped before, map to consecutive frames, all else is unchanged, each failure has its reason, and a page takes at most two tables |
| `Uvm.UvmUnmap` | kernel/vm.c:162-184 | map removal: succeeds exactly when every page of the range is removable; frees exactly its frames when asked |
| `Uvm.UvmDealloc` | kernel/vm.c:247-259 | shrinking removes exactly the pages between the two sizes |
| `Uvm.RolledBack` | kernel/vm.c:217-241 | growing and removing the same range restores every translation and every page handed out |
| `Uvm.UvmAlloc` | kernel/vm.c:217-241 | zeroed user pages on frames that were free, or, out of memory, everything as before; that happens only with at most three free pages for each page asked for; panics only at a mapped or too high page |
| `Uvm.UvmCopy` | kernel/vm.c:297-325 | the child has the parent's bytes and flags on frames that were free; short of memory after n pages, which takes at most 3(n+1) free pages at the start, everything is as before, or it panics exactly when one of those n pages has no permission bit; any other panic is at a page absent in the parent or present in the child |
| `Uvm.CopyApart` | kernel/vm.c:297-325 | no frame of the child is one of the parent's |
| `Uvm.CopyBack` | kernel/vm.c:322-324 | the undo succeeds exactly when every copied page has a permission bit, and then restores everything |
| `UvmFree.UvmCreate` | kernel/vm.c:188-197 | a new table that maps nothing; 0 exactly when no page is free |
| `UvmFree.FreeWalk` | kernel/vm.c:263-280 | with no leaf mapped, every table of the subtree is freed once, bottom up, and no other table changes; the leaf panic is not reached |
| `UvmFree.UvmFree` | kernel/vm.c:283-289 | all frames and tables of the address space are free, all other translations and owned pages untouched |
| `UvmFree.WalkAddr` | kernel/vm.c:103-122 | the frame exactly when the page is mapped for users |
| `UvmRuns.BootValid` | kernel/kalloc.c:26-40 | after kinit() the memory invariant holds |
| `UvmRuns.FreeCount` | kernel/kalloc.c:33-40 | a booted machine of n pages has n free pages |
| `UvmRuns.BareCopy` | kernel/vm.c:297-325 | a run from boot in which every page can be copied and uvmcopy() panics, out of memory, at a page without a permission bit |
| `Rcu.ChainReplace` | kernel/list_proc.c:200-222 | storing a node that already has the successor into the predecessor replaces one position |
| `Rcu.ChainCut` | kernel/list_proc.c:246-266 | storing the successor into the predecessor removes one position |
| `Rcu.DropKeeps` | kernel/list_proc.c:27-80 | reclaiming a removed node that no open section may reach keeps the whole invariant |
| `Rcu.StepInv` | kernel/list_proc.c:17-272 | every load, store, lock, sample, poll and free of any CPU keeps the invariant |
| `Rcu.RunInv` | kernel/list_proc.c:17-272 | the invariant holds in every state of every interleaving |
| `Rcu.ReclamationSafe` | kernel/list_proc.c:17-272 | in no state of no run does a reader hold, or can it step to, a reclaimed node |
| `RcuProgress.GraceEnds` | kernel/list_proc.c:54-80 | when every other CPU idles or has switched since its sample, the waiter alone ends the grace period and reclaims the node, and nothing else changes |
| `RcuProgress.GraceWaits` | kernel/list_proc.c:54-80 | while one CPU has not, the waiter by itself waits, however often it polls |
| `RcuProgress.GraceIff` | kernel/list_proc.c:27-80 | the waiter alone can reclaim exactly when every other CPU idles or has switched |
| `RcuProgress.SyncRun` | kernel/list_proc.c:27-80 | from every waiting state some continuation ends the grace period with the list as it was |
| `RcuProgress.RunHeld` | kernel/list_proc.c:43-79 | in every state of every run the writers' lock is free or held by a CPU that will release it |
| `RcuProgress.Reclaimable` | kernel/list_proc.c:17-272 | from every state of every run, every node removed and not yet reclaimed can still be reclaimed: no interleaving is stuck |
| `RcuProgress.UpdateRun` | kernel/list_proc.c:188-231 | a run that replaces a node: the list differs at that place alone and the old node is reclaimed |
| `RcuProgress.DeleteRun` | kernel/list_proc.c:233-272 | a run that removes a node: the list without it, and its memory reclaimed |
| `RcuProgress.AddRun` | kernel/list_proc.c:129-145 | one CPU alone adds a node in front |
| `RcuProgress.ReadRun` | kernel/list_proc.c:122-127 | one CPU alone walks the list and holds exactly its nodes |
| `RcuFree.AlikeStep` | kernel/list_proc.c:17-272 | no step depends on the history variable of the proof |
| `RcuFree.UnreachableSafe` | kernel/list_proc.c:27-80 | freeing at once a removed node that no held pointer leads to leaves every later run safe |
| `RcuFree.ReachableUnsafe` | kernel/list_proc.c:27-80 | freeing at once a removed node that a held pointer leads to: some run takes that reader to reclaimed memory |
| `RcuFree.FreeSafeIff` | kernel/list_proc.c:27-80 | freeing without waiting keeps every later run safe exactly when no pointer held in an open section leads to the node |
| `Rcu.EarlyFreeUnsafe` | kernel/proc.c:779-790 | a run after which freeing at once leaves a reader on reclaimed memory |
| `RcuTraversal.ReachKept` | kernel/list_proc.c:188-272 | no step cuts a reader, even on a removed node, off from a node that stays listed |
| `RcuTraversal.WalkComplete` | kernel/list_proc.c:122-127 | a walk inside one section visits every node that is listed throughout |
| `RcuTraversal.HeldListed` | kernel/list_proc.c:17-25 | every node a reader holds was listed at some moment of its own section |
| `RcuList.ChainUnique` | kernel/list_proc.c:122-127 | a traversal from a pointer is determined by the stores |
| `RcuList.List.Add` | kernel/list_proc.c:129-145 | the node is in front; readers see the old list after the first store and the new after the second |
| `RcuList.List.Update` | kernel/list_proc.c:188-231 | after each store a traversal gives the old or the new list, one position differs, the replaced node is returned and still leads to the end |
| `RcuList.List.DelFromProc` | kernel/list_proc.c:233-272 | the first node of the process leaves in one store, is returned, and still leads to the end |
| `RcuList.List.Del` | kernel/list_proc.c:147-186 | that very node leaves if it is listed; panics exactly on the empty list |
| `Virtio.WindowBound` | kernel/virtio_disk.c:256-261 | the requests not yet consumed never fill a ring |
| `Virtio.Disk.AllocDesc` | kernel/virtio_disk.c:144-154 | the lowest free descriptor, or none is free |
| `Virtio.Disk.FreeDesc` | kernel/virtio_disk.c:157-170 | panics exactly out of range or when free already |
| `Virtio.Disk.Alloc3Desc` | kernel/virtio_disk.c:188-201 | three different free descriptors, or, with fewer than three free, all as before |
| `Virtio.Disk.Start` | kernel/virtio_disk.c:203-268 | proceeds exactly when three descriptors are free; then a new chain of three, disjoint from all others, is posted and its buffer flagged; otherwise nothing changes |
| `Virtio.Disk.Fetch` | kernel/virtio_disk.c:256-265 | the device sees a request exactly when one is posted, the oldest, with its three descriptors intact, also after the 16-bit index wraps |
| `Virtio.Disk.Complete` | kernel/virtio_disk.c:299-303 | the device may finish fetched requests in any order and with any status; every invariant is kept |
| `Virtio.Disk.IntrOne` | kernel/virtio_disk.c:301-312 | panics exactly when the device reported a nonzero status for the oldest unhandled completion; otherwise clears exactly its buffer's flag |
| `Virtio.Disk.Intr` | kernel/virtio_disk.c:282-315 | the completions are handled in order, each clearing its own buffer's flag and no other: all of them, exactly when every status is 0, or those before the first that is not |
| `Virtio.Disk.FreeChain` | kernel/virtio_disk.c:173-185 | frees exactly the three descriptors of the chain; no descriptor is freed twice |
| `Virtio.Disk.Finish` | kernel/virtio_disk.c:270-278 | a finished request frees its own chain and leaves all others |
| `Pipe.Occupancy` | kernel/pipe.c:88 | the tests on wrapped counters are the tests on the true counts |
| `Pipe.FifoIff` | kernel/pipe.c:76-130 | the bytes delivered are the bytes removed, in order, exactly when none was lost |
| `Pipe.Pipe.Fifo` | kernel/pipe.c:76-130 | in every state of every run of reads and writes the bytes delivered are those written so far and removed, in order, without the lost ones |
| `Pipe.Pipe.Write` | kernel/pipe.c:76-103 | appends, in order, exactly as many bytes as there are, are accessible and fit; each reason to stop has its exact condition |
| `Pipe.Pipe.Read` | kernel/pipe.c:105-130 | waits or gives up exactly on an empty pipe with a writer; otherwise delivers the oldest bytes, in order, exactly as many as asked for, storable and there; one more is lost exactly when the storable ones run out first |
| `Pipe.LosingRun` | kernel/pipe.c:105-130 | a run that loses a byte |
| `LinkCount.RefsUpdate` | kernel/sysfile.c:119-284 | changing one inode changes the link counts only by what its own entries name |
| `Links.EmptyCount` | kernel/sysfile.c:169-182 | an empty linked directory is named by its parent once and by nothing else: its count is 1 |
| `Links.ParentLinks` | kernel/sysfile.c:222-225 | the parent of a linked directory has at least two links |
| `Links.NamedSound` | kernel/sysfile.c:137-152 | one more entry for a file and one more link keep tree and counts |
| `Links.UnnamedSound` | kernel/sysfile.c:218-230 | one entry and one link less keep tree and counts |
| `Links.DroppedSound` | kernel/sysfile.c:218-230 | removing an empty directory keeps tree and counts, although its own entries stop counting |
| `Links.MadeSound` | kernel/sysfile.c:262-279 | a new directory with its dots keeps tree and counts |
| `Links.ReclaimedSound` | kernel/fs.c:332-353 | an inode with count 0 is named by no linked directory, so freeing it leaves nothing dangling |
| `Links.Volume.DirLookup` | kernel/fs.c:529-553 | the first used entry of that name, exactly when the name is present |
| `Links.Volume.IsDirEmpty` | kernel/sysfile.c:169-182 | true exactly when no entry after the dots is used |
| `Links.Volume.DirLink` | kernel/fs.c:556-582 | fails exactly when the name is present; otherwise the first empty slot or the end gets the entry |
| `Links.Volume.IAlloc` | kernel/fs.c:195-216 | the lowest free inode, or 0 exactly when none is free |
| `Links.NamedUnsound` | kernel/sysfile.c:119-166 | a name in a removed directory does not count, but the file's link count goes up |
| `Links.MadeUnsound` | kernel/sysfile.c:262-279 | a subdirectory made in a removed directory links it again although no directory names it |
| `Links.Volume.Link` | kernel/sysfile.c:119-166 | succeeds exactly for a file and a new name in an existing parent; every failure restores the table; tree and counts stay exact exactly when a successful call's parent was linked |
| `Links.Volume.Unlink` | kernel/sysfile.c:184-239 | fails exactly for a missing parent, a dot name, an absent name, or a directory that is not empty, and then changes nothing; the nlink panic is not reached; a removed directory was empty and ends with no link; counts are exact afterwards |
| `Links.Volume.MakeNode` | kernel/sysfile.c:259-279 | the new inode, its dots and its name, as one change of the table; tree and counts stay exact exactly when the parent was linked |
| `Links.Volume.Create` | kernel/sysfile.c:241-284 | for a present name, that inode exactly when a file is asked for and it is a file or device, else failure; for an absent name, the lowest free inode with one link and its entries, or a panic exactly when none is free; tree and counts stay exact exactly when a new inode's parent was linked |
| `Links.Volume.Reclaim` | kernel/fs.c:332-353 | freeing an inode without links keeps tree and counts |
| `LinkRuns.RemovedParent` | kernel/sysfile.c:241-284 | a run in which a file created in a removed directory has a link that no linked directory holds |
| `Fresh.RootSound` | kernel/sysfile.c:262-279 | a root directory alone, with its dots and one link, meets tree and counts |
| `FreeBlocks.PutShape` | user/umalloc.c:32-42 | inserting with coalescing keeps address order and leaves no two blocks adjacent |
| `FreeBlocks.PutHolds` | user/umalloc.c:32-42 | the free units afterwards are those before and the block's |
| `FreeBlocks.TakeHolds` | user/umalloc.c:75-83 | carving leaves free exactly the units not handed out |
| `Umalloc.PutLinked` | user/umalloc.c:32-42 | the pointer stores of free() build exactly the coalesced circular list |
| `Umalloc.StopsThere` | user/umalloc.c:29-31 | free()'s search stops at the insertion point and nowhere else on the circle |
| `Umalloc.FreeSound` | user/umalloc.c:24-43 | order, circularity, disjointness from live blocks and unit conservation survive a free |
| `Umalloc.TakeSound` | user/umalloc.c:75-83 | they survive an allocation |
| `Umalloc.SbrkExact` | user/umalloc.c:52-54 | sbrk() is asked for the region recorded exactly below 2^31 bytes |
| `Umalloc.SbrkTruncates` | user/umalloc.c:52-54 | a request for which it is asked to shrink instead |
| `Umalloc.Heap.Locate` | user/umalloc.c:29-31 | the search ends, from any starting block, at the block before the freed one |
| `Umalloc.Heap.Free` | user/umalloc.c:24-43 | the block's units become free, every other live block stays, free plus live units equal those obtained |
| `Umalloc.Heap.MoreCore` | user/umalloc.c:46-60 | the new region becomes free units, within one block, and the kernel is asked for its truncated size; a refusal changes nothing |
| `Umalloc.Heap.Search` | user/umalloc.c:73-89 | one turn of the circle finds the first large enough block after the last place used, or there is none |
| `Umalloc.Heap.Malloc` | user/umalloc.c:63-90 | nil exactly when nothing fits and sbrk refuses; otherwise the tail of the first fit, with the search to go on from the block before, or units newly obtained; disjoint from every live block; bytes obtained and units recorded stay equal exactly when a new region is below 2^31 bytes |
| `Regex.LangHead` | user/grep.c:82-94 | a word of a pattern splits into a word of its first atom and one of the rest |
| `Regex.MatchHere` | user/grep.c:83-94 | true exactly when a prefix of the text (all of it under a final $) is a word of the pattern |
| `Regex.MatchStar` | user/grep.c:97-104 | true exactly when after some run of the character the rest of the pattern begins |
| `Regex.Match` | user/grep.c:70-80 | true exactly when a substring is a word, a prefix under ^, a suffix under a final $ |
| `Grep.ReadableAll` | user/grep.c:17 | the whole input is read exactly when no line has more than 1022 bytes |
| `Grep.PrintLines` | user/grep.c:20-28 | prints exactly the complete matching lines in the buffer before its first NUL, in order |
| `Grep.GrepFile` | user/grep.c:10-34 | for every way the reads split any input, the output is the matching lines, before the first NUL, of what fits the buffer |
| `ShRound.LineRound` | user/sh.c:344-446 | a printed tree anywhere in a text, followed by the end or a closing parenthesis, parses back to itself |
| `ShRound.ParsePrint` | user/sh.c:327-446 | parsing the fully parenthesised printing of any tree returns that tree |
| `ShGrammar.SpellsLexemes` | user/sh.c:265-319 | a text that spells a sequence of lexemes, with any spacing, is cut into exactly those |
| `ShGrammar.LexemesSpell` | user/sh.c:265-319 | and every text spells the lexemes it is cut into |
| `ShGrammar.ArgsComplete` | user/sh.c:415-446 | words and redirections in any order with at most nine words, give all words and all redirections, each in order |
| `ShGrammar.ArgsSound` | user/sh.c:415-446 | what parseexec() takes in are words and redirections whose texts, in order, are its result |
| `ShGrammar.LineAccepted` | user/sh.c:327-446 | every line of the grammar, however spaced and with no parentheses but its own, parses to its meaning |
| `ShGrammar.AcceptedLine` | user/sh.c:327-446 | what parses is the text of a line of the grammar, and the tree is its meaning |
| `ShGrammar.ParseIff` | user/sh.c:327-446 | parsecmd() gives a tree exactly for the texts that mean it |
| `ShGrammar.OneMeaning` | user/sh.c:327-446 | no text means two trees, and the syntax error is for exactly the texts that mean none |
| `ShParse.ArgsOk` | user/sh.c:415-446 | every argument and file name recorded is a whole word, and there are at most nine arguments |
| `ShParse.TokenAt` | user/sh.c:265-308 | a word token has no delimiter inside and a delimiter or the end right after it |
| `Sh.GetToken` | user/sh.c:265-308 | the loops compute the token at the cursor |
| `Sh.PeekAt` | user/sh.c:310-319 | the loop computes the test and the moved cursor |
| `Sh.ParseRedirs` | user/sh.c:374-397 | the loop collects the redirections in order, or fails where the grammar does |
| `Sh.ParseArgs` | user/sh.c:430-443 | the loop collects the arguments and redirections that the grammar's lines have there (`ShGrammar.ArgsComplete`, `ShGrammar.ArgsSound`), or fails |
| `Sh.RunLine` | user/sh.c:344-359 | terminates on every input with the grammar's result |
| `Sh.NulTerminate` | user/sh.c:449-493 | writes a NUL after each word of the command and nowhere else |
| `Sh.WordsEnded` | user/sh.c:449-493 | the zeros replace only delimiters, and each word read as a C string is exactly its token |
| `Sh.Parse` | user/sh.c:327-342 | a tree that the whole input means, or a syntax error when it means none, with the buffer terminated in place |

## Left out

- Log.Log.Commit: readers hold the same buffers throughout one commit; the rounds it is made of are each proved for whatever is held then. Waiting for a buffer that a reader has locked is not modelled.
- LogRuns.Boot: takes a cache that nobody uses yet, as the first process's fsinit() has it.
- Fs.Fs.Writei: the user copy of a chunk is all or nothing, given by the accessible prefix of the source bytes; blocks are changed as the cache shows them, and running out of buffers inside a transaction is left to `Bio` and `Log`.
- Links.Volume.Link: a failing write of a directory entry (disk full, file too large) is a panic in the code and is not modelled here; nlink is unbounded.
- Links.Volume.Create: inherits the same restriction, and major and minor numbers are not kept.
- Umalloc.Heap.Malloc: takes sbrk() to grant addresses above every region recorded before; the 32-bit size field is unbounded.
- Uvm.UvmAlloc: process sizes are unbounded integers, so PGROUNDUP near 2^64 does not wrap.
- RcuList.List.Update: the list is not empty, because the code follows the head before testing it; the same holds for DelFromProc.
- FsRuns.TruncCrash: speaks of truncations whose logged blocks fit the log; how many bitmap blocks one touches is not bounded here.
- Rcu.StepInv: takes as premises that a CPU in a read section neither idles, switches context nor takes a lock, and that stores are seen in order; the callers in kernel/proc.c that depart from this are not modelled.
- Sh.ParseArgs: the code wraps a command it goes on filling; the model keeps arguments and redirections apart and combines them at the end.
- Sleeping locks, interrupts, the scheduler and process life cycle (kernel/proc.c, kernel/spinlock.c) are not modelled beyond the premises above.
- copyin, copyout and copyinstr (kernel/vm.c): user bytes are parameters of the operations that use them.
- Path names (namex, skipelem in kernel/fs.c): directories and inodes are given to link, unlink and create.
- The in-memory inode table (iget, ilock, iput's reference counts): only its freeing of an inode without links.
- kernel/kmalloc.c and kernel/slab.c: other allocators.
- Devices, traps, assembly, printf and the console: hardware or thin plumbing.
- mkfs: not part of this model; `Fresh` builds an empty disk and a lone root that meet the invariants.
