# Proofs about xv6

A Dafny model of the parts of xv6 whose correctness is hard to see by reading: the crash-safe storage
stack, the user-level heap, page tables, the life of processes and the sleep/wakeup protocol, pipes, the
shell's parser, and the container scheduler of the second tree. `dafny verify dfyconfig.toml` checks all of it.

Each C file has a file of specification functions and lemmas on plain values and, where the C code updates
things in place, a class whose methods do the same steps and are proved against those functions. What the
functions themselves mean is said once more without them: the contracts give block numbers, words and fields
as numbers, and three files hold reference definitions that the code does not use, of the disk's layout, of
the processor's view of memory and of the shell's grammar.

- **Storage.** `logspec.dfy` says what a header block means, which blocks a commit writes in which order, and
  what recovery makes of the disk after any prefix of those writes, itself cut short any number of times.
  `logprotocol.dfy` is the whole logging system as a state machine: processes in `begin_op`, `bread`,
  `log_write`, `brelse`, `end_op`, the single block writes of a commit and of recovery, evictions and crashes,
  in every interleaving; `logsafety.dfy` proves its invariant and what follows for every run, and
  `logspace.dfy` when the log can overflow. `bio.dfy` is the buffer cache with its list relinked in place, and
  `log.dfy` the log's code over it. `logrefines.dfy` joins the two: every method of the code is a step of the
  state machine, and every block it writes in a commit or in recovery is one, so what is proved of all runs
  holds of the code. A disk is a sequence of blocks, and writing one block is atomic, as in
  `xv6/memide.c:38-60`.
- **Files.** `bytes.dfy` holds the other two views of a block, bytes and bits; `fsspec.dfy` and `fsops.dfy`
  who owns each block, the free map, and what a file contains; `fs.dfy` the code of block allocation, the
  direct and indirect block map, truncation, reading and writing; `file.dfy` the chunks of `filewrite`. A
  `FileSystem` works on the logical values of blocks, which `bread` returns by the transparency proved in
  `bio.dfy`. `diskformat.dfy` reads the disk in blocks, words, bytes and bits, as a program that inspects it
  would, and `fsformat.dfy` proves that the code leaves there what it should. `fscrash.dfy` puts the two
  halves together: what the transactions of the file system make of the disk that recovery leaves, wherever a
  run of the logging system crashes.
- **Heap.** `umalloc.dfy` is the allocator with its circular list. Memory is two maps from header addresses to
  header words, and addresses count units of `sizeof(Header)`.
- **Memory.** `vmspec.dfy`, `vmops.dfy`, `kalloc.dfy` and `vm.dfy` are two-level page tables over the frame
  list. Entries are the machine's words; a frame number stands for the kernel address of the frame. `mmu.dfy`
  is the two-level walk of the processor, and `vmsees.dfy` what it finds after each of the operations;
  `vmframes.dfy` counts the frames they take, and so tells when they fail.
- **Processes.** `procspec.dfy` and `procsafety.dfy` are runs of fork, exit, wait, sleep, wakeup and kill, and of
  the sleep of recv and the wakeup of sending, with one step for everything done under `ptable.lock`;
  `proc.dfy` has the scans over the table in place.
  `sleeplock.dfy` is acquiresleep, sleep, wakeup and releasesleep with one step for each lock operation.
  `pipespec.dfy` and `pipe.dfy` are the pipe as a queue and as a ring with wrapping counters.
- **Shell.** `shspec.dfy` is the parser as functions of a position in the line, `shprint.dfy` the printer and the
  proof that parsing undoes it, `shterm.dfy` what every parse looks like and what NUL termination does to the
  line, and `sh.dfy` the parser that moves a cursor over a buffer and builds the command in memory, with the
  argument arrays filled in place. `shgrammar.dfy` is the grammar, in characters and with white space, and
  what each line means; `shaccepts.dfy` proves that the parser accepts exactly its lines. `shminimal.dfy`
  proves that no line has fewer parentheses than the print of the command it parses to.
- **Container scheduler.** `schedspec.dfy` and `sched.dfy`.

Five places where the code does not do what one would expect are stated exactly:

- `mkfs` makes the log LOGSIZE blocks long, one fewer than the reservations of `begin_op` need
  (`LogSpace.ReservationsFitIff`); and in a large enough log a write within the rules panics if and only if the
  header is full (`LogSpace.LogWritePanicsIff`), although it then needs no space: its block is in the header
  already. An operation with any of its reservation left never meets that panic; a run that does is
  `LogSpace.FullLogAbsorbs`.
- A killed writer leaves `pipewrite` without waking readers (`PipeSpec.StepKeepsReadersIff`).
- `kill` looks at free slots as well (`ProcSafety.MarkedIff`), and `allocproc` does not clear the flag that
  `kill` sets there, so that a child is born killed (`ProcSafety.BornKilled`).
- The size arithmetic of `malloc` wraps for requests close to 2^32 (`Umalloc.NunitsSuffice`), and from 2^31
  bytes on `sbrk` is asked for no memory, or to shrink the process (`Umalloc.SbrkAsksIff`).
- A failed `allocuvm` unmaps the whole range it was to add, so also pages of it that were mapped before
  (`Vm.Space.AllocUvm`); its callers ask only for pages above the size of the process.

## Model

| member | source | states |
|---|---|---|
| LogSpec.EncodeHead | xv6/log.c:102-113 | write_head leaves n in word 0 of the header block and the block numbers in words 1 to n; it decodes to the in-memory header, and the rest of the block is untouched |
| LogSpec.InstallAt | xv6/log.c:70-82 | installing copies log block start + i + 1 to the home of the i-th logged block and changes no other block |
| LogSpec.RecoverAt | xv6/log.c:116-122 | recovery puts every logged block in place, keeps every other home block, and empties the header |
| LogSpec.RecoveredBlocks | xv6/log.c:69-122 | the disk after recovery in numbers: if the header block says n and b1 to bn, block bi is what block start + i was, word 0 of the header is 0, every other word of the header and every other block is as before |
| LogSpec.RecoveryRestarts | xv6/log.c:116-122 | a recovery cut short after any of its block writes and run again recovers the same contents |
| LogSpec.AnyNumberOfRestarts | xv6/log.c:116-122 | so does any number of recoveries that crash in turn |
| LogSpec.Tx.TraceShape | xv6/log.c:178-202 | the shape of the disk after every prefix of a commit's block writes |
| LogSpec.Tx.MidRecovers | xv6/log.c:178-202 | what recovery makes of each such disk: no logged block up to the header write, all of them after it |
| LogSpec.Tx.CommitIsAtomic | xv6/log.c:193-202 | a crash after k block writes of commit recovers exactly the contents before the transaction if k is at most the number of blocks, and else exactly those after it |
| LogSpec.Tx.CommitSurvivesCrashes | xv6/log.c:69-122 | ... however many crashing recoveries follow |
| LogSpec.Tx.CommittedRecords | xv6/log.c:193-202 | at the end of a commit the header on disk is empty and every home block on disk has its logical value |
| LogSpec.Tx.WritesAre | xv6/log.c:178-202 | the block writes of a commit in numbers, each as the change it makes to the disk: first the logical value of the k-th logged block to block start + k + 1, then n and the block numbers to the header block, then block start + k + 1 to the k-th logged block, then 0 to word 0 of the header |
| LogSpec.Tx.CommittedBlocks | xv6/log.c:193-202 | after a commit, block start + i + 1 and the home of the i-th logged block both hold its logical value, and word 0 of the header is 0 |
| LogSpec.Tx.InstallRestores | xv6/log.c:70-82 | installing from the slots gives every home block the value the cache had for it |
| LogSafety.StepKeeps | xv6/log.c:125-233 | every step of every process, every block write and every crash keeps the invariant of the logging system |
| LogSafety.EveryRunIsCrashSafe | xv6/log.c:125-202 | over every run, recovering the disk of any state gives exactly the updates up to the last commit point, and each operation's updates are all before it or all after it |
| LogSafety.QuietMeansDurable | xv6/log.c:146-174 | with no operation and no commit under way, every change would survive a crash |
| LogSafety.LogSpaceReserved | xv6/log.c:125-141 | in every reachable state the header's blocks and what running operations may still add fit in LOGSIZE, and the header's blocks are distinct |
| LogSafety.CommitRunsAlone | xv6/log.c:146-174 | a commit runs only while no operation does, and between commits the header on disk is empty |
| LogSafety.LoggedBlocksStayPinned | xv6/log.c:213-233 | until it is installed, also between the header write and then, a logged block stays in the cache and cannot be evicted; its home on disk is as before the commit, and as at the last commit point up to the header write |
| LogSafety.CrashRecoversCommitted | xv6/log.c:116-122 | what a crash in any state satisfying the invariant recovers |
| LogSpace.AppendNeverPanics | xv6/log.c:214-222 | if the log has more than LOGSIZE blocks, no append within a reservation panics |
| LogSpace.SmallLogPanics | xv6/log.c:214-222 | for every smaller log on a disk with room for as many blocks outside it, a run of three operations that reaches an append within its reservation that panics |
| LogSpace.ReservationsFitIff | xv6/log.c:126-141 | reservations never overflow the log if and only if it has more than LOGSIZE blocks, which xv6/mkfs.c:25 does not give it |
| LogSpace.LogWritePanicsIff | xv6/log.c:214-233 | in such a log a write within the rules panics if and only if the header is full, and then its block is in the header already and no running operation has any of its reservation left |
| LogSpace.FullLogAbsorbs | xv6/log.c:214-233 | some run reaches that panic |
| Bio.RecycleKeeps | xv6/bio.c:80-91 | recycling a free, clean buffer changes no block's logical value and gives no block two buffers |
| Bio.LoadKeeps | xv6/bio.c:97-107 | filling a buffer from disk keeps the cache right |
| Bio.ModifyKeeps | xv6/bio.c:7-21 | changing a held buffer's data changes the logical value of its block and of no other |
| Bio.WriteKeeps | xv6/memide.c:39-60 | writing a buffer out changes no logical value |
| Bio.UnlockKeeps | xv6/bio.c:121-141 | letting go of a buffer that was logged or written keeps the cache right |
| Bio.MovedOrder | xv6/bio.c:130-138 | moving a buffer to the front keeps the list in order of last release |
| Bio.MovedMembers | xv6/bio.c:130-138 | ... and keeps every buffer on it |
| Bio.Bcache.constructor | xv6/bio.c:39-57 | binit makes a ring through head of every buffer once, last in storage first, with nothing cached |
| Bio.Bcache.Lookup | xv6/bio.c:69-76 | finds the buffer of a block if and only if there is one |
| Bio.Bcache.Victim | xv6/bio.c:80-92 | the buffer found is free, the last free one in the ring, and the least recently released of the free ones; none is found only if none is free |
| Bio.Bcache.Bget | xv6/bio.c:62-93 | returns the block's buffer, to be waited for exactly if it is locked, or recycles the least recently released free one, or panics exactly when there is neither |
| Bio.Bcache.Bread | xv6/bio.c:97-107 | returns the logical value of the block, locked, with one more reference, and changes no logical value; a recycled buffer is the least recently released free one; if the buffer is locked by someone else, only takes a reference and is to wait |
| Bio.Bcache.Granted | xv6/sleeplock.c:23-33 | when the wait is over, the buffer has the logical value of the block, locked by the one who waited |
| Bio.Bcache.Bwrite | xv6/bio.c:110-116 | one atomic write of the block, after which the buffer is clean |
| Bio.Bcache.Brelse | xv6/bio.c:121-141 | one reference less and unlocked; the last release moves the buffer to the place behind head and stamps it; no contents change |
| Bio.Bcache.InsertFront | xv6/bio.c:46-56 | linking a buffer in behind head keeps next and prev inverse |
| Bio.Bcache.Unlink | xv6/bio.c:131-132 | unlinking keeps next and prev inverse |
| Log.Log.WriteLog | xv6/log.c:178-190 | copies the logical value of every logged block i to block start + i + 1, one write each; a panic cuts it short only when no buffer can be recycled |
| Log.Log.InstallTrans | xv6/log.c:70-82 | copies block start + i + 1 to the home of every logged block i, one write each; a panic cuts it short only when no buffer can be recycled |
| Log.Log.WriteHead | xv6/log.c:102-113 | one write of the header block, with n in word 0 and the block numbers behind it |
| Log.Log.ReadHead | xv6/log.c:86-97 | the header in memory becomes the one on disk: n is word 0, and the block numbers are the words behind it |
| Log.Log.RecoverFromLog | xv6/log.c:116-122 | leaves the disk that recovery is specified to leave, by the writes it is specified to make: each block that the header block names holds what its log block held, all others but word 0 of the header are as before; and the log is ready for operations; it fails only when no buffer can be recycled |
| Log.Log.Commit | xv6/log.c:193-202 | every disk on the way recovers to all of the transaction or none of it; at the end log block start + i + 1 and the i-th logged block hold its logical value and word 0 of the header is 0, the header is empty, every logical value and every held block as before, and nothing is left unrecorded; a panic cuts it short only when no buffer can be recycled |
| Log.Log.TryBeginOp | xv6/log.c:126-141 | admits a caller exactly if no commit runs and n + (outstanding + 1) * 10 <= 30 |
| Log.Log.Record | xv6/log.c:223-229 | the block is in the header once, at its old place or at the end |
| Log.Log.LogWrite | xv6/log.c:214-233 | records the block once and pins its buffer; panics exactly when the guards say so; the header still has every changed block that nobody holds |
| Log.Log.Rewrite | xv6/fs.c:43-51 | one change to a block by bread, log_write and brelse: its logical value changes, the disk does not, and the block is recorded; fails only when no buffer can be recycled, the header is full or no operation runs |
| Log.Log.EndOp | xv6/log.c:146-174 | the last operation out commits: every disk on the way recovers to all of the transaction or none of it, and the disk at the end has every logged block in place; the others only leave; a panic comes only from the commit, and only when no buffer can be recycled |
| LogRefines.BeginOp | xv6/log.c:126-141 | admits exactly when the state machine's step is enabled, and is then that step |
| LogRefines.Get | xv6/bio.c:97-107 | bread of a block that nobody holds is the step of acquiring it |
| LogRefines.Change | xv6/fs.c:500-506 | a change to a held buffer is the step of that change |
| LogRefines.LogWriteStep | xv6/log.c:214-233 | log_write is the step of logging the block, and panics exactly when the state machine says so |
| LogRefines.Put | xv6/bio.c:121-141 | brelse is the step of releasing the block |
| LogRefines.EndOp | xv6/log.c:146-202 | end_op is the step of that name; for the last operation it is followed by one step for each block the commit writes, each leaving the disk the code leaves, and one that ends the commit; if a panic cuts the commit short, by as many steps as blocks were written |
| LogRefines.Boot | xv6/log.c:54-122 | recovery at boot is one step for each block that the code writes, and what it leaves is a state of the machine between commits |
| LogRefines.PathKeeps | xv6/log.c:125-233 | such steps keep the invariant of the logging system |
| LogRefines.RunExtends | xv6/log.c:125-233 | and prolong a run of it |
| LogRefines.CodeIsCrashSafe | xv6/log.c:125-202 | hence, in every run, what a crash would recover from the code's disk is the changes before the commit point, and what the code reads is all of them |
| Bytes.UnpackPack | xv6/fs.c:454-512 | the bytes of a block made from bytes |
| Bytes.SpliceBytes | xv6/fs.c:500-506 | memmove into a block changes exactly the bytes it covers |
| Bytes.BitsOfBlock | xv6/fs.c:65-93 | setting or clearing a bit through its byte changes that bit of the block alone |
| FsSpec.InodeRoundTrip | xv6/fs.c:222-237 | an inode written to its place in a block reads back, and the other inodes of the block are untouched |
| FsFormat.BitIs | xv6/fs.c:65-68 | bit k of a block is bit k % 8, the lowest first, of its byte k / 8, the bytes of a word being little-endian |
| FsFormat.SuperIs | xv6/fs.h:14-22 | the words of block 1 are the fields of the superblock in that order |
| FsFormat.NodeIs | xv6/fs.h:29-42 | inode i is words 16 * (i % 8) on of block inodestart + i / 8: type and major in the first, minor and nlink in the second, then size and thirteen pointers |
| FsFormat.ContentsAre | xv6/fs.c:454-479 | byte o of a file is byte o % 512 of the block that pointer o / 512 names, if below 12, and else word o / 512 - 12 of the block that pointer 12 names |
| FsSpec.MapIsOwnership | xv6/fs.c:57-96 | a bit of the free map is set exactly for metadata and for blocks that a slot of an inode points to, and no block is pointed to by two slots |
| FsFormat.MarkedIff | xv6/fs.c:57-96 | in the bits of the map on disk: block b is marked exactly if it is metadata, or one of the thirteen pointers of an inode or the 128 of its indirect block is b |
| FsSpec.SetBitKeeps | xv6/fs.c:65-72 | marking a block adds it, and nothing else, to the blocks in use |
| FsSpec.ClearBitKeeps | xv6/fs.c:88-93 | clearing its bit removes it, and nothing else |
| FsSpec.AttachKeepsOwned | xv6/fs.c:374-391 | putting a fresh block of zeros into a direct or the indirect pointer keeps every owned block with exactly one slot |
| FsSpec.EntryKeepsOwned | xv6/fs.c:391-396 | so does putting one into an entry of the indirect block |
| FsSpec.DataWriteFile | xv6/fs.c:499-506 | a write to a data block changes the one file block it holds, in no other file |
| FsOps.AllocGrows | xv6/fs.c:57-78 | balloc's two block writes change no pointer, no file and no inode on disk, and give an unowned block of zeros |
| FsOps.EntryGrows | xv6/fs.c:386-398 | growing through the indirect block changes no file's contents and no pointer in use |
| FsOps.WritingTurn | xv6/fs.c:499-506 | one turn of writei's loop adds its bytes to the file and changes no other |
| FsOps.WrittenContents | xv6/fs.c:483-512 | the file is then the old contents with src spliced in at off |
| FsOps.UpdatedOnDisk | xv6/fs.c:222-237 | iupdate changes one inode on disk and leaves the others |
| FsOps.OwnedInNext | xv6/fs.c:409-436 | the blocks an inode owns, slot by slot |
| FsOps.WriteSetCount | xv6/file.c:126-135 | a write of at most 1536 bytes at any alignment logs at most 7 distinct blocks when the free map is one block |
| Fs.FileSystem.Balloc | xv6/fs.c:57-78 | the block is the first whose bit in the map on disk is clear; that bit is set and the block zeroed, and nothing else on the disk changes; panics exactly if every bit is set |
| Fs.FileSystem.Bfree | xv6/fs.c:82-96 | the bit of the block in the map on disk is cleared and nothing else changes; panics exactly if it was clear |
| Fs.FileSystem.Release | xv6/fs.c:82-96 | for an owned block not freed yet, the panic is unreachable |
| Fs.FileSystem.Bmap | xv6/fs.c:374-401 | returns addrs[bn], or word bn - 12 of the indirect block that addrs[12] names, allocated only if there was none; no pointer of any other block of the file changes, ownership stays one block one slot, and no file reads differently; panics or fails only if bn >= 140 or the disk is full |
| Fs.FileSystem.IUpdate | xv6/fs.c:222-237 | inode inum, words 16 * (inum % 8) on of block inodestart + inum / 8, is the one in memory, and no other word of the disk changes |
| Fs.FileSystem.Itrunc | xv6/fs.c:409-436 | frees exactly the blocks that the inode points to, in the bits of the map on disk, empties it in memory and on disk, and leaves every other file as it was |
| FsFormat.TruncatedMarks | xv6/fs.c:409-436 | the marks on disk after it: those before, but for the blocks that its pointers, direct, indirect or in the indirect block, name |
| Fs.FileSystem.Free | xv6/fs.c:338-346 | what iput does with the last reference to an inode without links: its blocks are free, it is empty and of type 0 in memory and on disk, and every other file is as it was |
| Fs.FileSystem.Readi | xv6/fs.c:454-479 | returns the stretch of the contents within the file, each byte off + k of it the byte (off + k) % 512 of the block that pointer (off + k) / 512 names, or -1, or for a device what its driver answers, and changes nothing |
| Fs.FileSystem.Writei | xv6/fs.c:483-512 | a device is left to its driver; in range, the file becomes old[..off] + src + old[off+n..], and src is on disk in the blocks that pointers off / 512 on name; no other pointer of the file changes; else -1 and no change; no other file changes, no file gets holes, the free map stays right, the inode on disk stays in step; it fails only on a full disk and only if the file is to grow |
| Fs.WriteKept | xv6/fs.c:499-511 | a write inside the file leaves no holes |
| Fs.WriteGrew | xv6/fs.c:507-511 | nor does one that grows it |
| FsCrash.HomeConsistent | xv6/fs.h:8-26 | disks that differ in the log region only are the same file system, equally consistent |
| FsCrash.DoneAnywhere | xv6/fs.h:8-26 | nor does what a transaction does depend on the log region |
| FsCrash.HistoryGrows | xv6/log.c:116-122 | a transaction run on what recovery left, or after other transactions, adds to the history of the disk |
| FsCrash.CommittedFirst | xv6/log.c:193-202 | if operations overlap where they are not in order, a commit point that splits none has the first m of them, and no others, before it |
| FsCrash.CommittedChanges | xv6/log.c:193-202 | then the changes to each block before the commit point are those of these m, in order |
| FsCrash.SerialInterleaves | xv6/log.c:125-174 | transactions that follow one another are one such interleaving |
| FsCrash.FilesSurviveCrashes | xv6/log.c:54-66 | after a crash in any state of any run whose transactions, finished or not, interleave in a way that to each block is as if one had followed the other, and any number of crashes in recovery, each block in use belongs to one slot of one inode on disk, the free map says so, no file has holes, and the files are as after the first m transactions, which are those before the commit point; after all of them if none was running and no commit was under way |
| FsCrash.FilesOnDisk | xv6/fs.h:14-45 | the files it speaks of are those of the disk read byte by byte: inode i from its words, its blocks from its pointers |
| FsCrash.WriteTx | xv6/file.c:138-146 | a transaction of writei is one of these: its block writes take the disk to a consistent one in which src is spliced into the one file |
| FsCrash.FreeTx | xv6/fs.c:338-346 | so is one that frees an inode: the one file becomes empty |
| Files.SpliceAgain | xv6/file.c:133-154 | two chunks written one after the other are one splice |
| Files.File.WriteChunk | xv6/file.c:138-146 | each transaction of filewrite logs at most 7 blocks |
| Files.File.Write | xv6/file.c:118-158 | returns n exactly if off + n <= 140 * 512; otherwise the chunks of 1536 bytes before the first that does not fit are written; never a short write; one transaction for each chunk, every one within MAXOPBLOCKS; it fails only on a full disk and only if the file is to grow |
| Umalloc.InsertRing | xv6/umalloc.c:29-42 | linking a block in keeps the list circular and address-ordered |
| Umalloc.RemoveRing | xv6/umalloc.c:75-76 | unlinking a block does too |
| Umalloc.MergeTiles | xv6/umalloc.c:33-41 | merging neighbours keeps the blocks a tiling of memory |
| Umalloc.SplitTiles | xv6/umalloc.c:77-81 | splitting a block does too |
| Umalloc.GrowTiles | xv6/umalloc.c:47-60 | and so does adding memory from sbrk |
| Umalloc.FreedOk | xv6/umalloc.c:25-43 | whichever neighbours the freed block touches, the header words free writes are those of a heap with no two adjacent free blocks |
| Umalloc.FreedBlocks | xv6/umalloc.c:25-43 | and every free block is as it was or has grown to contain the one freed |
| Umalloc.TakenWholeOk | xv6/umalloc.c:75-76 | taking a block that fits exactly allocates it and nothing else |
| Umalloc.TakenTailOk | xv6/umalloc.c:77-81 | taking the tail of a larger block allocates that tail and nothing else |
| Umalloc.GrownOk | xv6/umalloc.c:47-60 | fresh memory is an allocated block until it is freed |
| Umalloc.NunitsSuffice | xv6/umalloc.c:69 | the units asked for, header included, hold nbytes if and only if nbytes + 7 < 2^32, and are then no more than needed; else one unit is asked for |
| Umalloc.SbrkAsksIff | xv6/umalloc.c:46-55 | the int that sbrk gets is the size of the memory wanted, 32768 bytes at least, if nbytes and its header are below 2^31 bytes, and else that size minus 2^32, zero or negative |
| Umalloc.Heap.FindPlace | xv6/umalloc.c:29-32 | the search of free ends at the one gap of the ring that the block belongs in, after the last free block below it |
| Umalloc.Heap.Free | xv6/umalloc.c:25-43 | gives back exactly the block and keeps the heap's shape; freep is then the last free block below it, and every free block is one that was free before, with its size, or contains the block given back |
| Umalloc.Heap.Morecore | xv6/umalloc.c:47-60 | adds max(4096, nunits) units of memory from sbrk and makes them free, coalesced or not; freep is then the last free block below them; or changes nothing |
| Umalloc.Heap.Search | xv6/umalloc.c:74-89 | terminates; without morecore the block taken is the end of the first free block after freep that fits, and otherwise the end of the new memory; freep is then the free block before it; calls morecore once if nothing fits and else not at all; looks at no block twice before that, and afterwards meets one that fits within one trip round the ring |
| Umalloc.Heap.Malloc | xv6/umalloc.c:64-90 | returns a block not allocated before, found as Search says, and only that becomes allocated; returns null, and leaves a heap in use as it was, exactly if nothing fits and sbrk fails |
| VmSpec.MkEntry | xv6/vm.c:73 | an entry is present and gives back its frame and flags |
| VmSpec.NoSharing | xv6/vm.c:61-80 | no frame is mapped for the user at two places or is also a table |
| VmSees.SeesPte | xv6/vm.c:36-55 | what the processor finds by its two-level walk from a directory is the entry that the model has for the page |
| VmSees.KernelSpaceIs | xv6/vm.c:83-137 | a directory with the entries of kmap has, for every one of the 2^32 addresses, the frame of xv6/vm.c:106-114, writable but in the kernel's text, never for the user, and no other mapping |
| VmSees.MoreMemoryIs | xv6/vm.c:222-250 | with the pages of allocuvm added, each address of the new pages is the user's to read and write, in a frame not used before, full of zeros, and every other address is translated as before |
| VmSees.LessMemoryIs | xv6/vm.c:256-279 | with the pages of deallocuvm gone, each of their addresses faults and every other address below is translated as before |
| VmSees.CopySpaceIs | xv6/vm.c:316-345 | in the copy of an address space each address up to the size allows what it allows in the original, in a frame not used before, with the same contents; every other address is the kernel's |
| VmSpec.TableKeeps | xv6/vm.c:41-54 | installing a zeroed table keeps every owned frame with one use |
| VmSpec.MapUserKeeps | xv6/vm.c:61-80 | so does mapping a user page |
| VmSpec.UnmapKeeps | xv6/vm.c:267-276 | and unmapping one |
| VmSpec.DropDirKeeps | xv6/vm.c:284-298 | and taking away all of a directory's frames |
| VmOps.UnmapStep | xv6/vm.c:267-276 | freeing a frame and then clearing its entry unmaps that page alone |
| VmOps.UnmapSkip | xv6/vm.c:265-266 | where nothing is mapped, stepping over it is the same as looking at each page |
| VmOps.RolledBack | xv6/vm.c:234-247 | what unmapping the range after a failure of allocuvm leaves: no page of the range, every other user mapping, and tables |
| VmOps.SpaceRemoved | xv6/vm.c:342-344 | taking a new space apart leaves the frames in use before it |
| VmOps.CopyStep | xv6/vm.c:324-339 | one more page copied, to a frame of its own, with the same contents and flags |
| VmFrames.TablesBalance | xv6/vm.c:36-55 | when a directory gets tables for some of the entries a to b, it has as many more as there are fewer without in that range |
| VmFrames.GoingDone | xv6/vm.c:222-250 | mapping a range of pages takes one frame for each and one for each table that the directory did not have |
| VmFrames.GoingShort | xv6/vm.c:222-250 | and fails for want of a frame only if there were fewer |
| VmFrames.KernelCount | xv6/vm.c:83-137 | the kernel's mappings need exactly the 64 tables for 0x80000000 to 0x8E000000 and from 0xFE000000 on |
| Kalloc.TakeHead | xv6/kalloc.c:83-95 | taking the head of the free list moves one frame from free to used |
| Kalloc.PutHead | xv6/kalloc.c:60-78 | putting a frame back moves it from used to free |
| Kalloc.Kmem.Kalloc | xv6/kalloc.c:83-95 | returns the head of the free list, and its next is the new head; 0 exactly if no frame is free |
| Kalloc.Kmem.Kfree | xv6/kalloc.c:60-78 | the frame is at the head of the free list, its first word the old head and the others 0x01010101; no other page is touched |
| Kalloc.Kmem.FreeRange | xv6/kalloc.c:47-54 | frees exactly the whole pages of the range, which are then on the list with the last first |
| Vm.Space.Walk | xv6/vm.c:36-55 | the table for an address, made if asked for; no mapping changes |
| Vm.Space.MapPages | xv6/vm.c:61-80 | maps exactly the pages of the range to consecutive frames, which were not mapped; panics only if one was; or fails, with no frame left, and the user mappings as they were; the processor then sees these mappings, with the permissions given |
| Vm.Space.DeallocUvm | xv6/vm.c:256-279 | unmaps and frees exactly the pages a page-by-page loop would, although it skips 4 MB where there is no table; the processor faults on them and sees all else as before |
| Vm.Space.FreeVm | xv6/vm.c:284-298 | returns exactly the frames of the directory, and touches no other page in use |
| Vm.Space.SetupKvm | xv6/vm.c:119-137 | the kernel mappings of xv6/vm.c:83-114 and nothing else, as the processor sees each address, which takes 65 frames; or failure with the frames in use unchanged, exactly if fewer are free |
| Vm.Space.AllocUvm | xv6/vm.c:222-250 | adds zeroed pages for the new addresses, none of which was mapped; panics only if one was; or fails, with the pages of the range unmapped and their frames free, every other user mapping as it was, and only page-table pages left over; the processor sees memory of zeros there, the user's to write, and all else as before; it fails exactly if there are fewer free frames than new pages and tables that the directory lacks |
| Vm.Space.CopyUvm | xv6/vm.c:316-345 | every page of the child has the parent's contents and flags in a frame of its own, and the parent had every page; panics only if it lacked one; a failure leaves the frames in use unchanged; the processor sees a private copy of each page, and the kernel above; unless it panics it fails exactly if fewer than 65 + n + ceil(n / 1024) frames are free, for n pages |
| Vm.Space.NewPage | xv6/vm.c:232-239 | a free frame, filled in; nothing in use is touched |
| ProcSafety.AllocKeeps | xv6/proc.c:77-92 | allocproc's scan keeps the table's invariant |
| ProcSafety.ForkKeeps | xv6/proc.c:184-227 | so do the steps of fork, and giving up |
| ProcSafety.ExitKeeps | xv6/proc.c:233-273 | and exit |
| ProcSafety.WaitKeeps | xv6/proc.c:289-328 | and every round of wait |
| ProcSafety.KillKeeps | xv6/proc.c:496-513 | and kill |
| ProcSafety.RecvKeeps | xv6/proc.c:680-699 | and the sleep of recv, which is on the caller's own slot, as wait's is |
| ProcSafety.NotifyKeeps | xv6/proc.c:660-676 | and the wakeup of sending, on any slot, whether its process is in recv or in wait |
| ProcSafety.StepKeeps | xv6/proc.c:77-513 | and every other step, by any process |
| ProcSafety.RunKeeps | xv6/proc.c:77-513 | hence every reachable table satisfies it |
| ProcSafety.ParentsAlive | xv6/proc.c:184-273 | in every reachable table, every forked process but init has a live parent with a smaller pid |
| ProcSafety.ChainEndsAtInit | xv6/proc.c:255-262 | chains of parents end at init |
| ProcSafety.NoLostZombie | xv6/proc.c:248-328 | whenever ptable.lock is free, a process asleep in wait has no zombie child, has some child, and has not been killed |
| ProcSafety.ZombiesReapedOnce | xv6/proc.c:289-328 | no pid exits or is reaped twice, and in all the table the pids that have exited and not been reaped are exactly those of the zombies |
| ProcSafety.ReapedIsGone | xv6/proc.c:300-314 | in every run, no slot has the pid of a process that was reaped, and a kill of that pid changes nothing |
| ProcSafety.PidStays | xv6/proc.c:77-328 | a slot's pid is set by allocproc, to the next pid, and to 0 by the wait that reaps it, and by nothing else |
| ProcSafety.ParentStays | xv6/proc.c:184-328 | its parent is set by fork, by the exit of its parent, to init, and by the wait that reaps it, and by nothing else |
| ProcSafety.ChanStays | xv6/proc.c:434-470 | its channel is set by its own going to sleep, to the process in wait and recv, and cleared by its own going on, and by nothing else |
| ProcSafety.StateTurns | xv6/proc.c:77-513 | every change of state of a slot is one of those of the life of a process, made by the step whose it is |
| ProcSafety.WaitCollects | xv6/proc.c:289-328 | wait reaps a zombie child whenever there is one, and gives up exactly without one if it has no children or is killed |
| ProcSafety.MarkedIff | xv6/proc.c:496-513 | exactly which steps set the killed flag of a free slot |
| ProcSafety.BornKilled | xv6/proc.c:77-92 | the child that allocproc makes has the flag that its free slot had |
| ProcSafety.FlagStays | xv6/proc.c:77-513 | no step but kill and the reaping of a zombie changes the flag of a slot, so fork does not clear it |
| ProcSafety.KillZero | xv6/proc.c:496-513 | kill(0) on a fresh table sets the flag of a free slot |
| Processes.Ptable.AllocProc | xv6/proc.c:77-92 | takes the first free slot and the next pid |
| Processes.Ptable.Exit | xv6/proc.c:248-270 | the parent woken, all children handed to init, init woken if one is a zombie, the caller a zombie, row by row of the table |
| Processes.Ptable.WaitRound | xv6/proc.c:294-324 | one round of wait: the first zombie child is reaped, and its slot is free with pid 0, no parent and no flag; or there is none, and it gives up or sleeps; no other row changes |
| Processes.Ptable.Wakeup1 | xv6/proc.c:473-480 | makes exactly the sleepers on the channel runnable |
| Processes.Ptable.Kill | xv6/proc.c:496-513 | marks the first slot with the pid and wakes it if asleep |
| SleepLock.StepOfKeeps | xv6/sleeplock.c:23-43 | every step of acquiresleep, sleep, wakeup and releasesleep keeps the protocol's invariant |
| SleepLock.RunKeeps | xv6/proc.c:434-490 | hence so does every interleaving of any number of processes |
| SleepLock.MutualExclusion | xv6/sleeplock.c:23-43 | at most one process holds the sleep-lock, and its pid is recorded |
| SleepLock.HoldingIff | xv6/sleeplock.c:45-54 | in every run, holdingsleep is true exactly for a process between acquiresleep and releasesleep, and a free lock has pid 0 |
| SleepLock.NoLostWakeup | xv6/proc.c:434-470 | whenever the inner spinlock is free, a process asleep on the lock means another holds it |
| SleepLock.ReleaseWakesAll | xv6/proc.c:473-490 | when releasesleep wakes, no process is left asleep or between letting go of the spinlock and sleeping |
| PipeSpec.StepKeepsFifo | xv6/pipe.c:79-121 | every read, write, close and kill keeps first in, first out |
| PipeSpec.PipeIsFifo | xv6/pipe.c:79-121 | over every run with any number of readers and writers, bytes delivered followed by bytes buffered are the bytes written, and at most PIPESIZE are buffered |
| PipeSpec.ReadDelivers | xv6/pipe.c:101-121 | a read takes the first n bytes, or all if there are fewer, so at least one if there are any; it sleeps exactly on an empty pipe that is open for writing, unless killed; and it wakes the writers |
| PipeSpec.WriteTakes | xv6/pipe.c:79-97 | a write puts in a prefix of its bytes, all of them or until 512 are buffered; it sleeps exactly if some are left, the read end is open and it is not killed, and keeps the rest |
| PipeSpec.NoLostWriter | xv6/pipe.c:85-92 | a sleeping writer always finds the pipe full and the read end open |
| PipeSpec.NoLostReader | xv6/pipe.c:106-112 | a sleeping reader always finds it empty and the write end open, in runs without the steps described next |
| PipeSpec.StepKeepsReadersIff | xv6/pipe.c:86-89 | a step leaves a reader asleep over bytes if and only if it is a write that fills the pipe and then fails for being killed or for want of readers |
| PipeSpec.ReaderLeftAsleep | xv6/pipe.c:86-89 | a run that does |
| Pipes.RingPush | xv6/pipe.c:93 | adding a byte at a counter that may have wrapped adds it at the end of the ring |
| Pipes.RingPop | xv6/pipe.c:116 | taking one at a counter that may wrap takes the first |
| Pipes.CountUp | xv6/pipe.c:85 | full and empty are told apart right by counters modulo 2^32 |
| Pipes.PipeBuf.InArray | xv6/pipe.c:13-21 | byte k of the queue is data[(nread + k) % 512], and nwrite - nread, modulo 2^32, is how many there are |
| Pipes.PipeBuf.Write | xv6/pipe.c:79-97 | the in-place loop does the specified write step: the bytes it takes are added to the queue until it has 512; readers are woken unless it fails, and the writer waits exactly if bytes are left |
| Pipes.PipeBuf.Read | xv6/pipe.c:101-121 | and the specified read step: it returns the first bytes of the queue, n of them or all, and wakes the writers; fails exactly on an empty pipe open for writing when killed |
| Pipes.PipeBuf.Close | xv6/pipe.c:60-75 | and the specified close, freeing the pipe exactly if both ends are closed |
| ShSpec.GetToken | xv6/sh.c:266-308 | a token lies within the line, and one that is not the end of it uses up at least one character |
| ShAccepts.GrammarIsAccepted | xv6/sh.c:328-445 | every line of the grammar, with any white space of the five kinds before any token, is parsed, to the command that the grammar says it means |
| ShAccepts.AcceptedIsGrammar | xv6/sh.c:328-445 | and every line that is parsed is a line of the grammar, parsed to what it means |
| ShAccepts.FailsIff | xv6/sh.c:328-445 | so parsecmd panics exactly on what is no line of the grammar |
| ShAccepts.TwoWords | xv6/sh.c:262-308 | two words with one blank, tab, carriage return, newline or vertical tab between them are the command of these two words |
| ShAccepts.WordsArePlain | xv6/sh.c:262-308 | no word of a parsed command contains one of these five characters or one of <, >, ampersand, semicolon, bar and the parentheses |
| ShPrint.RedirsParse | xv6/sh.c:375-397 | printed redirections are read back, in order |
| ShPrint.ArgsParse | xv6/sh.c:427-442 | printed words and redirections are read back as a simple command |
| ShPrint.BlockParse | xv6/sh.c:400-412 | a printed command in parentheses is read back |
| ShPrint.ParsePrint | xv6/sh.c:345-445 | at every level of the grammar, a command printed there is read back and the cursor left behind it |
| ShPrint.ParseUndoesPrint | xv6/sh.c:328-342 | parsecmd of the print of a command gives the command |
| ShMinimal.PrintIsMinimal | xv6/sh.c:328-445 | and no line that parses to the command has fewer parentheses than the print |
| ShTerm.LineGood | xv6/sh.c:345-445 | in every successful parse, each word is a maximal run of word characters of the line, and the argument and mode limits hold |
| ShTerm.ParsesExactlyPrintable | xv6/sh.c:328-445 | the commands that some line parses to are exactly the printable ones |
| ShTerm.NulTerminationKeepsWords | xv6/sh.c:450-493 | after nulterminate every string of a command is the word it was parsed from |
| Sh.Parser.GetToken | xv6/sh.c:266-308 | the scan over the buffer finds the specified token |
| Sh.Parser.Peek | xv6/sh.c:311-321 | skips white space and tells whether the next character is one of toks |
| Sh.Parser.ParseRedirs | xv6/sh.c:375-397 | the loop wraps the specified redirections around the command it is given |
| Sh.Parser.ParseArgs | xv6/sh.c:427-445 | the loop that fills the argument arrays, to which the redirections already point, leaves the specified command in memory |
| Sh.Parser.ParseExec | xv6/sh.c:416-446 | a new structure in memory that is the specified command, with the panics |
| Sh.Parser.ParseBlock | xv6/sh.c:400-412 | as specified, with the panics |
| Sh.Parser.ParsePipe | xv6/sh.c:362-372 | as specified |
| Sh.Parser.ParseLine | xv6/sh.c:345-359 | as specified, terminating by remaining input and grammar level |
| Sh.Parser.NulTerminate | xv6/sh.c:450-493 | writes a NUL at the end of every word of the command, reading its arguments up to the null pointer, and nowhere else |
| Sh.Parser.ParseCmd | xv6/sh.c:328-342 | the structure in memory is the specified parse, which is what the grammar says the line means, and the strings its words point to are then the words |
| SchedSpec.SelectedIs | xv6-structured/proc.c:454-466 | a visit selects the next occupied slot after the last one selected, in rotation |
| SchedSpec.VisitStops | xv6-structured/proc.c:453-528 | a visit stops at the first process from cur up, or else from slot 0 up, marks it if the log is on, and marks the container done if the log is then on and every process in it is marked |
| SchedSpec.RoundOf | xv6-structured/proc.c:445-556 | a round, slot by slot: one such visit of each container, and, if the log is on at the end and all containers but 0 are done, the log off and the marks of those wiped, and those of container 0 kept |
| SchedSpec.EachSlotOnce | xv6-structured/proc.c:445-466 | if k slots are occupied, any k consecutive visits select each exactly once |
| SchedSpec.AllSeenIff | xv6-structured/proc.c:513-524 | all occupied slots have been marked after k visits, and not before |
| SchedSpec.DoneIff | xv6-structured/proc.c:511-528 | a container is done after max(1, k) visits, and not before |
| SchedSpec.OffMeansReady | xv6-structured/proc.c:545-556 | in every run, whenever the log is off, no container but 0 has marks left over from a session |
| SchedSpec.DoneAfter | xv6-structured/proc.c:454-528 | a container is done after exactly as many further rounds as it is due, by whether the log was switched on before, in or after its visit |
| SchedSpec.WaitIs | xv6-structured/proc.c:530-545 | the wait is the least number of rounds after which every container but 0 is done |
| SchedSpec.LogSwitchesOff | xv6-structured/proc.c:445-556 | after any run, a log switched on by the process running in the visit of container c stays on for that round and exactly the wait of c in further rounds, and is then off with all marks but container 0's cleared |
| SchedSpec.SessionsEnd | xv6-structured/proc.c:530-556 | which is at most max(1, greatest k of the containers but 0) further rounds |
| Schedulers.Scheduler.Choose | xv6-structured/proc.c:453-466 | the search loop stops at the first process from cur up, or else from slot 0 up, and marks it if the log is on; nothing else changes |
| Schedulers.Scheduler.Check | xv6-structured/proc.c:513-526 | marks a container done exactly if all its processes have been seen |
| Schedulers.Scheduler.OneRound | xv6-structured/proc.c:445-556 | one turn of the endless loop is the specified round, slot by slot |

## Left out

- Hardware and boot: `ide.c` port I/O, interrupt controllers, `mp.c`, console, assembly files. The disk is the synchronous one of `xv6/memide.c`; a context switch is a step that gives up the CPU.
- Spinlocks: what is done between acquire and release of one lock is one step, except in `sleeplock.dfy`, where the lock operations themselves are the steps.
- log_write's guard is evaluated before the lock is taken; here the check and the append are one step.
- Log.Log.TryBeginOp: one turn of the loop of begin_op; the sleep between turns is not modelled in the class, but every interleaving is in `logprotocol.dfy`.
- Bio.Bcache.Bget: that a waiting process goes on when the buffer's lock is released is the protocol of `sleeplock.dfy`; here it is the two calls, before and after the wait.
- LogRefines.Get: a block that someone holds, where the step is not enabled and bread waits, is excluded by a precondition.
- Log.Log.Commit: a block that the commit itself works on, in the log or logged, must not be held by another process, as the commit would wait for it; other blocks may be held.
- Log.Log.EndOp: likewise when the last operation ends.
- Log.Log.WriteLog: likewise.
- Log.Log.InstallTrans: likewise.
- Log.Log.WriteHead: likewise.
- LogRefines.EndOp: likewise.
- LogRefines.Boot: the cache is empty, as binit leaves it.
- Device drivers: what those in devsw answer is a parameter of reading and writing, and Files.File is about regular inodes.
- FsCrash.WriteTx: regular inodes likewise.
- FsCrash.FilesSurviveCrashes: that the locks of inodes and buffers let transactions interleave only as if one had followed the other is assumed, not proved.
- Fs.FileSystem.Balloc: a panic is the result false, after which the operation goes no further and nothing is promised of the state in memory; the log's crash safety says what is then on disk.
- Files.File.Write: one process at a time; other writers may come between the chunks of a real filewrite, which are separate transactions. The bound of 7 blocks is for file systems whose free map is one block, that is, of at most 4096 blocks (xv6 has 1000).
- The inode cache (iget, iput, ilock), ialloc, directories and path names. Every inode counts as loaded, and the theorem about writei says that the inode on disk stays equal to the one in memory.
- The initial disk: mkfs beyond its layout is not modelled, and a disk satisfying the ownership and no-holes invariants is assumed.
- Umalloc.Heap.Malloc: what sbrk answers is a parameter; that it gives memory for a request that its int argument cannot carry is excluded by a precondition.
- Umalloc.Heap: memory is maps from header addresses to header words, so the contents of allocated blocks, and a program that writes outside its blocks, are not modelled.
- Vm.Space.MapPages: a user range is one page, as inituvm, allocuvm and copyuvm map one page at a time; only kernel ranges are longer.
- Vm.Space.SetupKvm: where the kernel's data start is a parameter, page-aligned and between 0x80100000 and 0x8E000000, as the linker places it.
- inituvm, loaduvm, clearpteu, copyout, switchuvm and segments.
- fork's copying of open files and names, exit's closing of files, exec, growproc, overflow of nextpid.
- Fairness and progress: nothing is said about how long a process waits to be scheduled.
- sched's panics and the saving of interrupt flags.
- PipeSpec: which processes hold a descriptor is not modelled, so a write after the read end is closed is any write; pipealloc is left out.
- Sh.Parser.ParseExec: of the nodes of a command only the execcmd is an object, since the others do not change once made.
- ShAccepts.FailsIff: that parsecmd panics, not with which message; that is in the contract of Sh.Parser.ParseCmd.
- runcmd, getcmd and the built-in cd.
- The container calls (join, leave, slot bookkeeping), whose own invariants fail; the scheduler's slots are given and unchanging, on one CPU.
- Message queues: of recv and sending only the sleep and the wakeup are modelled; that a message arrives is not promised, since the queue is looked at before ptable.lock is taken.
- Schedulers.Scheduler.OneRound: of what the selected process does, only the system call that switches the log on is modelled.
