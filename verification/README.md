# xv6 for RISC-V: a verified model

This project models the RISC-V copy of xv6 in Dafny and proves what its parts are for: that the file
system survives crashes, that memory is neither lost nor shared by accident, that processes do not miss
wakeups, that the rings and pipes deliver what was put into them, and that the shell and grep read their
languages correctly. Statements hold for every input, every state and every run, with the sizes (buffers,
log blocks, descriptors, processes, CPUs, pipe size) as parameters unless noted under "Left out".

| files | part of the system |
|---|---|
| Blocks, RedoLog, Log | the redo log: commit, recovery and crashes at any point between two block writes |
| LogCache | log and buffer cache together, run by any number of processes, with group commit and crashes |
| BufferCache | the doubly linked LRU list of bio.c |
| Inodes, FileSystem, File, Reservation | the block allocator, block maps, truncation, reading, writing, and the log reservation of a write with its exact size |
| Mkfs | the first image of a disk, and the file system that starts on it |
| Links | directories and link counts |
| PageTable, VirtualMemory, UserMemory, UserCopy, AddressSpace | the page allocator, Sv39 page tables, user memory, copies, release |
| ProcessMemory | runs of all memory operations on any number of processes, and page accounting |
| Scheduling, Interrupts, ExitWait | locks, the scheduler, sleep and wakeup; the interrupt flag; fork, exit and wait |
| UserAlloc | malloc and free |
| RingIndex, VirtioDisk, Pipe | the virtio block driver and pipes: rings whose counters wrap |
| ShellGrammar, ShellSyntax, Shell, Grep | the shell's parser, its grammar, and the pattern matcher |
| Values | options and bytes |

Code that changes state becomes classes and methods proved against functions on the state. Code that runs
concurrently becomes a step system: one step is one access to shared state or one critical section, any
enabled step may come next, and the theorems speak about the state after an arbitrary run.

Terms used in the table. The *view* of a disk is the file system that a reboot finds: the home blocks with
the committed log entries laid over them. *Slots* are the places that hold block numbers: twelve direct
addresses, the address of the indirect block, and the words of the indirect block. A file *has no holes* when
every block below its size is mapped. The *leaf map* of an address space gives the last-level entry of every
page, zero if there is none. A frame's *role* says what it is used for (free, a table, a page of a user).

Where code and documentation differ, the model follows the code. Seven promises turn out not to hold
everywhere. For each the table has the exact condition and an input for which it fails:

- A reader of a pipe can sleep although bytes are waiting (`Pipe.CoveredExactly`, `Pipe.StrandedReader`).
- The root directory made by mkfs can have a hole (`Mkfs.HoleForWhichFiles`, `Mkfs.RootWithHole`).
- grep drops lines from the first one on that does not fit in its buffer (`Grep.CompleteWhenLinesFit`,
  `Grep.LongLineIsLost`).
- writei counts the bytes that it writes, but when user memory ends inside a block it leaves bytes in the file
  that it does not count (`FileSystem.Fs.Writei`, `FileSystem.StrayBytesShow`, `Mkfs.UncountedByte`).
- With no operation open and an empty log, cache and disk agree, except for such bytes, which were never logged and
  disappear when their buffer is recycled (`LogCache.QuietStateIsDurable`, `LogCache.RecyclingForgets`,
  `LogCache.AbandonedBytes`).
- link and create keep the link counts right, except in a directory that has been removed (`Links.Tree.Link`,
  `Links.Tree.Create`, `Links.LinkInRemoved`, `Links.MkdirInRemoved`).
- malloc asks sbrk for the memory it needs, but its argument is an int (`UserAlloc.SbrkArgument`,
  `UserAlloc.SbrkArgumentWraps`).

## Model

| member | source | states |
|---|---|---|
| RedoLog.InstallAt | riscv/kernel/log.c:66-84 | After copying the first k entries home, each home block holds the log block of the last entry naming it, or its old contents |
| RedoLog.PartialInstallKeepsView | riscv/kernel/log.c:66-84 | Stopping install_trans after any number of block writes leaves the view unchanged |
| RedoLog.EraseAfterInstallKeepsView | riscv/kernel/log.c:117-124 | Clearing the header after a complete install leaves the view unchanged |
| RedoLog.RecoveryKeepsView | riscv/kernel/log.c:117-124 | Recovery cut after any number of its block writes leaves the view unchanged |
| RedoLog.RecoveryCompletes | riscv/kernel/log.c:117-124 | A complete recovery empties the log, and every home block then holds what the view promised |
| RedoLog.CommitRecordOk | riscv/kernel/log.c:103-115 | The header written by a commit reads back as the same count and the same block numbers, all home blocks |
| RedoLog.CommitRecordView | riscv/kernel/log.c:179-204 | Once the header is on disk the view is the old file system with the logged blocks laid over it |
| RedoLog.CommitAtomic | riscv/kernel/log.c:179-204 | Cut a commit after any of its 2n+2 block writes: the view is the old file system up to the header write and the whole transaction from it on |
| RedoLog.RebootsKeepView | riscv/kernel/log.c:66-124 | Any number of recoveries, each cut anywhere, leave the view unchanged |
| RedoLog.CrashAtomicity | riscv/kernel/log.c:66-124 | A commit cut anywhere, then any number of cut recoveries, then a complete one: all home blocks are as before the transaction, or all are as logged |
| Log.LogState.constructor | riscv/kernel/log.c:53-63 | The log starts empty, with no operation open |
| Log.LogState.WriteLogBlocks | riscv/kernel/log.c:179-192 | The loop leaves exactly the pinned contents in the log blocks, and passes exactly the disks of the commit's trace |
| Log.LogState.WriteHead | riscv/kernel/log.c:103-115 | One block write puts the count and all block numbers into the header block |
| Log.LogState.ReadHead | riscv/kernel/log.c:87-98 | The in-memory header becomes the list of targets that the disk header names |
| Log.LogState.InstallTrans | riscv/kernel/log.c:66-84 | The loop installs all entries, unpins each block once unless recovering, and passes exactly the disks of the recovery trace |
| Log.LogState.RecoverFromLog | riscv/kernel/log.c:117-124 | The code's disk writes are exactly the recovery that RedoLog reasons about, write by write |
| Log.LogState.Commit | riscv/kernel/log.c:194-204 | The code's disk writes are exactly the commit that RedoLog reasons about, write by write; afterwards every home block on disk equals the cached one, nothing is pinned and the log is empty; an empty transaction writes nothing |
| Log.LogState.BeginOp | riscv/kernel/log.c:127-143 | Admits an operation exactly when no commit runs and the reservation of all open operations fits |
| Log.LogState.EndOp | riscv/kernel/log.c:147-176 | Says which of the three outcomes applies and starts the commit exactly when the last operation ends |
| Log.LogState.LogWrite | riscv/kernel/log.c:215-236 | Fails exactly where the original panics; otherwise the block is listed once (absorption) and pinned with its new contents |
| LogCache.StepKeepsInv | riscv/kernel/log.c:127-236 | Every step of every process, of the commit thread and of recovery, and a crash, keeps the invariant of cache, log and disk; a modified buffer may be released without log_write, and log_write is allowed to every open operation that adds no block beyond its reservation, absorbed writes included |
| LogCache.RunKeepsInv | riscv/kernel/log.c:127-236 | Every run keeps it |
| LogCache.DiskCopyIsCurrent | riscv/kernel/bio.c:93-104 | A block that has to be read from disk is current there: reading never brings back anything older than what processes would see |
| LogCache.OneBufferPerBlock | riscv/kernel/bio.c:59-90 | In every reachable state a block has at most one buffer |
| LogCache.LoggedBlocksStayCached | riscv/kernel/bio.c:59-152 | In every reachable state, a block in the header that is pinned has exactly one buffer, valid, referenced and holding the latest contents, so write_log and install_trans copy the right data |
| LogCache.PinnedFromLogToInstall | riscv/kernel/log.c:66-84 | A block in the header is pinned exactly from its log_write until its own turn in the install loop |
| LogCache.CrashShowsLastCommit | riscv/kernel/log.c:179-204 | In every reachable state the view of the disk is the file system of the last commit point |
| LogCache.CommitsWholeOperations | riscv/kernel/log.c:147-176 | Over every run, the file system that a reboot finds changes only when the header is written, at a moment when no operation is open; it becomes the old one with every logged block as the cache holds it |
| LogCache.OnlyWriteHeadCommits | riscv/kernel/log.c:103-115 | No other step, and no crash, changes the view of the disk; the header write lays the logged blocks over it |
| LogCache.UnloggedDiffers | riscv/kernel/bio.c:117-138 | For a block that is not logged, cache and disk agree exactly if no modified buffer holds other bytes |
| LogCache.CommitMissesUnlogged | riscv/kernel/log.c:194-204 | Over every run, a commit makes a block durable as processes see it exactly if it is logged or has no unlogged modification |
| LogCache.RecyclingForgets | riscv/kernel/bio.c:75-87 | Over every run, recycling a buffer with an unlogged modification brings back what the last commit has for that block and changes nothing else; recycling any other buffer changes nothing |
| LogCache.LogNeverPanics | riscv/kernel/log.c:127-236 | In every reachable state an open operation means no commit is running (so end_op cannot panic), the header plus the unused reserve fits in the log, log_write by an operation below its reservation cannot panic, and by any open operation it panics exactly when the header is full |
| LogCache.QuietStateIsDurable | riscv/kernel/log.c:147-204 | When no operation is open and the log is empty, the disk is the last commit, and the cache agrees with it on a block exactly if the block has no unlogged modification |
| LogCache.AbandonedBytes | riscv/kernel/fs.c:545-548 | For any block and contents: a run that modifies a buffer, releases it unlogged and ends its operation, so that cache and disk differ in a quiet state, and goes on until the old bytes are read again |
| BufferCache.UnlinkRing | riscv/kernel/bio.c:117-138 | Making the neighbours of an element point at each other leaves a well-formed ring without it, in both directions |
| BufferCache.PushRing | riscv/kernel/bio.c:36-54 | Inserting behind the sentinel leaves a well-formed ring with the element in second place |
| BufferCache.RelinkFront | riscv/kernel/bio.c:125-133 | The pointer assignments of brelse move one element to the front and keep the order of the others |
| BufferCache.Cache.constructor | riscv/kernel/bio.c:36-54 | The list holds all buffers, the last one first, all unused |
| BufferCache.InUseOnce | riscv/kernel/bio.c:59-90 | No block has two buffers in use |
| BufferCache.Cache.FindCached | riscv/kernel/bio.c:65-73 | The forward scan finds a buffer of the block exactly when there is one, and of several the most recently used |
| BufferCache.Cache.FindFree | riscv/kernel/bio.c:75-87 | The backward scan finds the unreferenced buffer that was released longest ago, or none is unreferenced |
| BufferCache.Cache.Bget | riscv/kernel/bio.c:59-90 | A hit adds one reference; a miss takes over the least recently used unreferenced buffer; fails only if all are referenced; no block gets two buffers, apart from the buffers never used yet, which all say block 0 and of which at most one is in use and is found first |
| BufferCache.Cache.MoveFirst | riscv/kernel/bio.c:125-133 | The buffer becomes the most recently used one; the order of the others stays |
| BufferCache.Cache.Brelse | riscv/kernel/bio.c:117-138 | Drops one reference; the last one makes the buffer the most recently used; keeps one buffer per block as Bget does |
| BufferCache.Cache.Bpin | riscv/kernel/bio.c:140-145 | Adds one reference and keeps list, identities and one buffer per block |
| BufferCache.Cache.Bunpin | riscv/kernel/bio.c:147-152 | Drops one reference and keeps list, identities and one buffer per block |
| Inodes.OwnedOnce | riscv/kernel/fs.c:405-444 | No two slots of any inodes hold the same block |
| Inodes.AllocSpare | riscv/kernel/fs.c:66-89 | Marking and zeroing a free block keeps ownership, with that block allocated and in no slot yet |
| Inodes.FreeSpare | riscv/kernel/fs.c:92-106 | Clearing the bit of an allocated block that no slot holds keeps ownership |
| Inodes.AttachAddr | riscv/kernel/fs.c:410-428 | Storing such a block in an empty address gives it that one owner and changes no other slot |
| Inodes.AttachEntry | riscv/kernel/fs.c:429-440 | The same for a word of the indirect block |
| Inodes.OwnedDrop | riscv/kernel/fs.c:448-476 | Emptying slots makes exactly their blocks ownerless |
| FileSystem.Fs.constructor | riscv/kernel/fs.c:41-48 | A file system starts in its invariant from blocks and inodes that own each block once |
| FileSystem.Fs.ScanBits | riscv/kernel/fs.c:74-77 | Finds the first clear bit of one free-map block, or all its bits below the disk size are set |
| FileSystem.Fs.MarkAndZero | riscv/kernel/fs.c:76-83 | Sets exactly the bit of the block and zeroes it, logging both blocks |
| FileSystem.Fs.Balloc | riscv/kernel/fs.c:66-89 | Takes the lowest free block over all free-map blocks, marks and zeroes it, and reports 0 exactly when the disk is full; every block it changes is logged |
| FileSystem.Fs.Bfree | riscv/kernel/fs.c:92-106 | Clears the bit and logs it; the panic happens exactly for a block that is free already |
| FileSystem.Fs.BmapAddr | riscv/kernel/fs.c:410-428 | A direct address or the indirect block, allocated if missing: ownership kept, no other slot and no byte of any file changes |
| FileSystem.Fs.BmapEntry | riscv/kernel/fs.c:429-440 | The same for an entry of the indirect block |
| FileSystem.Fs.Bmap | riscv/kernel/fs.c:405-444 | Returns the block of the slot, allocating what is missing, and 0 only on a full disk; ownership kept, mapped slots keep their blocks, no byte of any file changes; every changed block is logged, and the free-map blocks it logs are bounded |
| FileSystem.WritePiece | riscv/kernel/fs.c:538-550 | Writing into a mapped block changes those bytes of that file and of no other |
| FileSystem.Fs.Readi | riscv/kernel/fs.c:494-519 | Delivers the slice of the file's byte sequence; short only on a full disk; -1 exactly when the destination cannot take it all, having delivered what it can take; a file without holes is not changed and nothing is allocated or logged |
| FileSystem.Fs.WriteOne | riscv/kernel/fs.c:538-550 | One round: the readable part of the piece is laid over the file, in the mapped or newly allocated block; logged exactly when all of it could be read, and then every changed block is logged |
| FileSystem.Fs.WriteRound | riscv/kernel/fs.c:538-551 | One turn of the loop with everything the loop carries: what is laid over the file so far, the blocks allocated and logged, and when the turn is the last |
| FileSystem.Fs.Writei | riscv/kernel/fs.c:528-562 | The file becomes its old byte sequence with the data laid over it; error cases exactly as in the source; writes all that can be read unless a block is missing on a full disk; leaves uncounted bytes exactly when the readable part ends inside a block; other files unchanged; no holes appear; every changed block is logged except the one with the uncounted bytes, and the number of logged blocks is bounded |
| FileSystem.StrayBytesShow | riscv/kernel/fs.c:538-550 | The uncounted bytes change the file exactly if one of them lies inside the old file and differs from it |
| FileSystem.Fs.FreeDirect | riscv/kernel/fs.c:448-459 | The direct blocks are freed and their owners dropped; the panic of bfree is not reached; every changed block is logged |
| FileSystem.Fs.FreeIndirect | riscv/kernel/fs.c:461-472 | The blocks named by the indirect block and that block are freed; the panic of bfree is not reached; every changed block is logged |
| FileSystem.Fs.Itrunc | riscv/kernel/fs.c:448-476 | The file is empty, exactly its blocks are free again, every other file is unchanged, ownership kept, "freeing free block" is not reached; every changed block and the block of the inode are logged |
| File.ChunkFitsReservation | riscv/kernel/file.c:149-156 | A chunk at any offset of a file without holes logs at most MAXOPBLOCKS blocks |
| Reservation.CompleteLogs | riscv/kernel/file.c:149-156 | A write over k+1 new blocks, each marked in another free-map block, logs at least 2k+4 blocks |
| Reservation.FullLogs | riscv/kernel/file.c:149-156 | Filling the disk in that way logs at least one more, so such a write cannot have run out of blocks |
| Reservation.WriteLogsExactly | riscv/kernel/file.c:149-164 | In every file system whose free blocks lie in different free-map blocks, a writei from inside the twelfth block into the k-th block behind it succeeds and logs exactly 2k+4 blocks |
| Reservation.SmallScattered | riscv/kernel/fs.c:66-89 | Such a file system exists: 40961 blocks in the layout of mkfs, ownership invariant included |
| Reservation.ChunkBoundIsTight | riscv/kernel/file.c:149-164 | In that file system a chunk of the largest size logs exactly MAXOPBLOCKS = 10 blocks, and a chunk two bytes longer logs 12 |
| File.WriteOverTwice | riscv/kernel/file.c:154-173 | Laying two adjacent pieces over a byte sequence is laying their concatenation over it |
| File.WriteChunk | riscv/kernel/file.c:159-164 | One transaction writes one chunk and logs at most MAXOPBLOCKS blocks |
| File.Filewrite | riscv/kernel/file.c:134-179 | The whole write lays the data over the file at its offset and advances the offset by what was counted; returns the length exactly when all was written; stops short only for a full disk, a bad offset or length, or unreadable data, and only in the last case can it leave uncounted bytes; no transaction exceeds its reservation |
| Mkfs.Layout | riscv/mkfs/mkfs.c:93-105 | The areas of the disk follow each other, all inodes fit in theirs and the bits of all blocks fit in theirs |
| Mkfs.SuperblockRead | riscv/mkfs/mkfs.c:96-117 | The superblock reads back as the layout |
| Mkfs.Image.constructor | riscv/mkfs/mkfs.c:93-117 | The blank image satisfies the invariant: no block in use but the metadata |
| Mkfs.Image.Ialloc | riscv/mkfs/mkfs.c:222-234 | Hands out the next inode, an empty file |
| Mkfs.Image.PlaceBlock | riscv/mkfs/mkfs.c:267-286 | Finds or allocates the fbn-th block, and the indirect block if needed; every block keeps one owner and no byte of any file changes |
| Mkfs.Image.AppendOne | riscv/mkfs/mkfs.c:266-293 | One turn of the loop appends its piece to the file and changes no other file |
| Mkfs.Image.Iappend | riscv/mkfs/mkfs.c:254-296 | The file grows by exactly the given bytes, others stay; succeeds exactly when the new size is possible and the blocks it needs, computed from the two sizes, are left |
| Mkfs.MarkedUsed | riscv/mkfs/mkfs.c:236-250 | The bits set are those of the first n blocks |
| Mkfs.Image.WriteFreeMap | riscv/mkfs/mkfs.c:236-250 | Writing one free-map block marks exactly the blocks handed out; fails exactly when they do not fit in one block |
| Mkfs.RoundedRoot | riscv/mkfs/mkfs.c:164-169 | Rounding up the root's size adds zeros; it leaves a hole exactly when the entries end at a block boundary (and the file is not of maximal length) |
| Mkfs.RootDataSize | riscv/mkfs/mkfs.c:119-158 | n files give a root directory of 16(2+n) bytes |
| Mkfs.EntryRead | riscv/mkfs/mkfs.c:154-157 | An entry made of a number and a name reads back, with dirlookup's layout and the low byte first, as that number and the padded name |
| Mkfs.RootDataReads | riscv/mkfs/mkfs.c:119-158 | Entry k of the root's data reads as inode 1 for "." and "..", and as inode k and the k-th file's name after that |
| Mkfs.RootReads | riscv/kernel/fs.c:574-598 | The root directory of an image with these data, read in steps of 16 bytes, has exactly these entries and otherwise inode number 0 |
| Mkfs.HoleForWhichFiles | riscv/mkfs/mkfs.c:119-169 | The root directory has a hole exactly when two more than the number of files is a multiple of 64 |
| Mkfs.RootWithHole | riscv/mkfs/mkfs.c:119-169 | The disk of the Makefile's size with 62 files: its root directory has a hole |
| Mkfs.Image.Populate | riscv/mkfs/mkfs.c:119-174 | Succeeds exactly when names and files fit and the number of blocks they need, a function of the files, is left and fits in one free-map block. The finished image has the ownership invariant of the file system with the free map of the blocks in use; every file holds its host file's bytes and has no holes; the root directory, read entry by entry as dirlookup does, has ".", ".." and every file with its inode number and padded name, then empty entries |
| Mkfs.Mount | riscv/mkfs/mkfs.c:69-175 | The file system started on a finished image satisfies the invariant that every later operation keeps, holds the files, and its root directory reads as Populate promises |
| Mkfs.UncountedByte | riscv/kernel/fs.c:538-561 | On such a file system, a file of one byte 0: a write of two bytes of which one can be read returns 0 and leaves the file with the byte 1 |
| PageTable.StepDown | riscv/kernel/riscv.h:366-381 | The index fields of an address name the child table on the way to its page, at each level |
| PageTable.TreeIsFlat | riscv/kernel/vm.c:107-131 | Walking the three levels in memory finds the same entry as the flat leaf map, for every address below MAXVA |
| PageTable.GrowKeepsInv | riscv/kernel/vm.c:118-129 | Adding a zeroed table keeps the invariant and every mapping |
| PageTable.PutKeepsInv | riscv/kernel/vm.c:177-190 | Writing a leaf entry keeps the invariant and changes that mapping only |
| PageTable.TakenKeepsInv | riscv/kernel/kalloc.c:71-85 | Taking a page off the free list keeps the invariant; the page was in no other use |
| PageTable.ReleasedKeepsInv | riscv/kernel/kalloc.c:47-66 | Returning a page in nobody's use keeps the invariant and changes no mapping |
| VirtualMemory.Vm.constructor | riscv/kernel/kalloc.c:27-32 | Memory starts in the invariant, with every page of the range free and no address space |
| VirtualMemory.Vm.Freerange | riscv/kernel/kalloc.c:34-41 | Frees exactly the pages of the range, the highest one first on the list |
| VirtualMemory.Vm.Kalloc | riscv/kernel/kalloc.c:71-85 | Pops the head of the free list, or returns 0 and changes nothing when it is empty |
| VirtualMemory.Vm.Kfree | riscv/kernel/kalloc.c:47-66 | Pushes the page and fills it with junk |
| VirtualMemory.Vm.Walk | riscv/kernel/vm.c:107-131 | Finds the last-level table; with alloc it adds tables but changes no mapping; it fails only when the free list is too short, without alloc it changes nothing |
| VirtualMemory.Vm.Walkaddr | riscv/kernel/vm.c:136-154 | The physical page of a valid user mapping, 0 for any other address |
| VirtualMemory.Vm.Mappages | riscv/kernel/vm.c:161-192 | Maps exactly the range, page by page; on failure exactly the pages before the failing one; all other mappings and all bytes stay |
| VirtualMemory.Vm.Uvmunmap | riscv/kernel/vm.c:214-235 | Clears exactly the range, frees exactly the frames mapped there if asked to, tolerates unmapped pages |
| UserMemory.MapFresh | riscv/kernel/vm.c:249-260 | A new page with given contents is mapped, or every page taken but tables is returned and no mapping changed |
| UserMemory.Uvmalloc | riscv/kernel/vm.c:239-263 | All new pages are mapped to fresh zeroed frames with the right flags, or the leaf map is restored |
| UserMemory.Uvmdealloc | riscv/kernel/vm.c:269-281 | Unmaps and frees exactly the pages between the two sizes |
| UserMemory.Ismapped | riscv/kernel/vm.c:505-516 | Says whether the page has a valid entry, and changes nothing |
| UserMemory.Vmfault | riscv/kernel/vm.c:482-503 | Maps a fresh zeroed page below the size where none was, with at most three pages of memory; fails only past the size, on a mapped page, or without memory, and then changes no mapping |
| UserMemory.Uvmcopy | riscv/kernel/vm.c:326-354 | The copy has equal contents and flags on fresh frames for every mapped page and nothing for the others; on failure the leaf map is restored |
| UserCopy.UserPage | riscv/kernel/vm.c:380-389 | Finds the frame of a user page, filling it in lazily: with three free pages it fails exactly where the page is denied (not mapped and past the size, or mapped without user access); user memory looks the same before and after and only this page's entry may change |
| UserCopy.FaultUnseen | riscv/kernel/vm.c:482-503 | A lazy fault is invisible: user memory reads the same |
| UserCopy.WriteSeen | riscv/kernel/vm.c:394-400 | Writing into one frame shows up at the one address range it is mapped at, and nowhere else |
| UserCopy.Copyout | riscv/kernel/vm.c:372-405 | User memory becomes the old one with the copied bytes laid over it, in this address space only; a page missing below the size is filled in: with three free pages for each page of the range it stops exactly at the first page that was denied or not writable at the start |
| UserCopy.Copyin | riscv/kernel/vm.c:410-433 | Returns the bytes that user memory shows, filling in missing pages below the size; with enough memory it stops exactly at the first page that was denied at the start |
| UserCopy.CopyoutCopyin | riscv/kernel/vm.c:372-433 | What copyout wrote, across any pages, copyin reads back |
| AddressSpace.Uvmcreate | riscv/kernel/vm.c:196-205 | A new empty address space, or nothing when no page is free |
| AddressSpace.FreewalkEntry | riscv/kernel/vm.c:289-302 | Below a table without mapped pages every entry is a table pointer or zero: freewalk meets no leaf |
| AddressSpace.Freewalk | riscv/kernel/vm.c:286-307 | Frees exactly the tables below the given one, each once, and touches nothing else |
| AddressSpace.Uvmfree | riscv/kernel/vm.c:312-318 | No frame is used by the address space any more, and no other frame changes its role |
| AddressSpace.ProcPagetable | riscv/kernel/proc.c:194-232 | Trampoline and trapframe are mapped in a new address space, or every page taken is returned; the second mapping cannot fail once the first succeeded |
| AddressSpace.ProcFreepagetable | riscv/kernel/proc.c:236-242 | The whole address space is given back, without freeing trampoline or trapframe |
| ProcessMemory.StepFrames | riscv/kernel/proc.c:126-329 | Every operation on memory leaves the kernel's own tables alone and changes which pages the kernel holds for itself only by taking or giving them |
| ProcessMemory.StepKeepsGood | riscv/kernel/proc.c:126-329 | Every operation keeps the memory invariant and, for every process at once, that nothing is mapped at or above its size but trampoline and trap frame |
| ProcessMemory.RunKeepsGood | riscv/kernel/proc.c:126-329 | Every run, over any number of processes, keeps this |
| ProcessMemory.FrameAccounted | riscv/kernel/vm.c:196-354 | After any run from a start without processes, every page that was free is on the free list exactly once, or held by the kernel, or a table of one live process, or mapped at one address below the size of one live process |
| ProcessMemory.FramesConserved | riscv/kernel/vm.c:196-354 | After any run in which all processes created have been freed and the kernel's own pages returned, every page has the role it had and the free list holds the same pages, each as often |
| ProcessMemory.Machine.constructor | riscv/kernel/kalloc.c:27-41 | The start state: all pages free, no process, invariant established |
| ProcessMemory.Machine.Create | riscv/kernel/proc.c:194-232 | Creating an address space is one of the steps above, as success or failure; it fails only with fewer than three free pages |
| ProcessMemory.Machine.Growproc | riscv/kernel/proc.c:262-278 | Growing maps all of the new range, or, only without three free pages for each new one, nothing; shrinking releases exactly the range; a shrink below zero wraps around and releases nothing |
| ProcessMemory.Machine.SbrkLazy | riscv/kernel/sysproc.c:39-63 | Lazy growth changes the size only, refuses exactly a sum that overflows 64 bits, and keeps the invariant exactly if the size stays below the trap frame |
| ProcessMemory.Machine.Fault | riscv/kernel/vm.c:482-503 | A page fault is a step that fills in pages below the size: it maps a zeroed page, unless the address is past the size, is mapped already or memory has run out |
| ProcessMemory.Machine.WriteUser | riscv/kernel/vm.c:372-405 | So is a copyout, and user memory becomes the old one with the copied bytes laid over it, up to the first page that is denied |
| ProcessMemory.Machine.ReadUser | riscv/kernel/vm.c:410-433 | So is a copyin, and it returns what user memory shows, up to the first page that is denied |
| ProcessMemory.Machine.CopySpace | riscv/kernel/vm.c:326-354 | Copying into an empty address space is a step, as success or failure; it fails only without three free pages for each page of the parent, and the child gets the size of the parent only on success |
| ProcessMemory.Machine.Freeproc | riscv/kernel/proc.c:173-190 | Freeing a process at any point of a run is a step: what proc_freepagetable and freewalk demand always holds, so freewalk's panic is not reached |
| ProcessMemory.Machine.Kfork | riscv/kernel/proc.c:282-300 | A new process with a copy of the parent's memory, or no process and all sizes as before, and then only because one of its two steps failed for lack of pages |
| ProcessMemory.Machine.TakePage | riscv/kernel/kalloc.c:71-85 | A page for the kernel is a step; none exactly when the free list is empty |
| ProcessMemory.Machine.GivePage | riscv/kernel/kalloc.c:47-66 | Returning it is a step |
| Scheduling.StepKeepsInv | riscv/kernel/proc.c:447-612 | Every step of every CPU keeps the invariant of locks, CPUs, process states and pending wakeups |
| Scheduling.RunKeepsInv | riscv/kernel/proc.c:447-612 | Every run keeps it |
| Scheduling.NoLostWakeup | riscv/kernel/proc.c:567-612 | In every reachable state, while the condition's lock is free, nobody sleeps on a channel whose condition holds |
| Scheduling.WakeupWakesAll | riscv/kernel/proc.c:598-612 | When wakeup's scan is over, no process sleeps on the channel |
| Scheduling.RunningOnOneCpu | riscv/kernel/proc.c:447-526 | While p->lock is free, p is RUNNING exactly when some CPU has it as its process; never two CPUs |
| Scheduling.StateNeedsLock | riscv/kernel/proc.c:447-636 | A process's state changes only in a step of the CPU that holds p->lock |
| Scheduling.WokenExactly | riscv/kernel/proc.c:567-636 | In every run a sleeping process stays asleep in a step unless the step is wakeup on its channel or kkill of it, and then it is RUNNABLE |
| Scheduling.KillWakes | riscv/kernel/proc.c:617-636 | In every run a victim that sleeps when kkill finds it is RUNNABLE until kkill releases its lock, whatever the other CPUs do; a victim in another state keeps it |
| Scheduling.WaitsForCondition | riscv/kernel/proc.c:567-595 | In every run a process leaves its loop around sleep only after a test, under the condition's lock held by its CPU, that found the condition true |
| Scheduling.LocksNeverPanic | riscv/kernel/spinlock.c:21-119 | In every reachable state and for every CPU, in a process or in the scheduler loop: sched is entered with p->lock as the only lock and p not RUNNING, no lock is acquired that this CPU holds, none is released that it does not hold, and pop_off finds a push_off to undo |
| Scheduling.NoDeadlock | riscv/kernel/spinlock.c:21-70 | In every run every CPU can step, or the holder of the lock it spins on can, or that holder spins on the lock of a process whose holder can |
| Interrupts.EventKeepsInv | riscv/kernel/spinlock.c:93-119 | Every step, with the push_off or pop_off in it, and turning interrupts on or off in code without locks, keeps the invariant of flags and counters |
| Interrupts.RunKeepsInv | riscv/kernel/spinlock.c:93-119 | Every run keeps it |
| Interrupts.OffWhileLocked | riscv/kernel/proc.c:497-515 | In every reachable state a CPU that holds a lock, calls sched or comes to pop_off has interrupts off, so the checks of sched and pop_off pass |
| Interrupts.RestoresInterrupts | riscv/kernel/proc.c:497-515 | Over every run, when a process releases the last of its locks, interrupts are as they were when it took the first one, although it may have slept and changed its CPU |
| ExitWait.StepKeepsInv | riscv/kernel/proc.c:282-438 | Every step of fork, exit, wait, kill and of scheduling keeps the invariant of the process tree, of what a waiting process has seen of its children, and of reserved table entries |
| ExitWait.RunKeepsInv | riscv/kernel/proc.c:282-438 | Every run keeps it |
| ExitWait.ParentsAlive | riscv/kernel/proc.c:333-389 | In every reachable state every live or zombie process but init has a parent that is neither unused nor a zombie |
| ExitWait.ReapedByParent | riscv/kernel/proc.c:393-438 | A zombie stops being one only when its current parent, holding wait_lock, frees it, after it has left the CPU for good |
| ExitWait.ReapedOnce | riscv/kernel/proc.c:173-190 | No process is reaped twice in a run |
| ExitWait.WaitDecides | riscv/kernel/proc.c:429-436 | In every run, when kwait's scan is over it returns -1 exactly if the caller has no child or is killed, and otherwise sleeps |
| ExitWait.WaitFinds | riscv/kernel/proc.c:405-427 | In every run, at an entry of the table that it locks, kwait looks at a child of its own: a zombie is freed and its pid returned unless copyout fails, anything else is left |
| ExitWait.WaitReturns | riscv/kernel/proc.c:393-438 | In every run kwait returns the pid that was reaped last, or -1 because there is no child, because it is killed, or because copyout failed with a zombie child left |
| ExitWait.SleepersHaveKids | riscv/kernel/proc.c:429-436 | In every run a process that sleeps in kwait has a child |
| ExitWait.KilledWakes | riscv/kernel/proc.c:617-636 | In every run kkill marks its victim and leaves it not asleep, able to run as soon as wait_lock is free, and changes no other process |
| ExitWait.NoLostSlot | riscv/kernel/proc.c:282-329 | In every run an entry of the table that is only reserved belongs to a fork under way |
| ExitWait.NoSleepingParent | riscv/kernel/proc.c:393-438 | While wait_lock is free, nobody sleeps in kwait with a zombie child |
| UserAlloc.SearchStep | riscv/user/umalloc.c:29-31 | Each turn of free's search either stops at the right place or gets closer to it around the ring, the wrap included |
| UserAlloc.MergeKeepsTiling | riscv/user/umalloc.c:32-41 | Joining two adjacent blocks keeps the tiling of memory |
| UserAlloc.CutKeepsTiling | riscv/user/umalloc.c:77-82 | Cutting the tail off a block keeps the tiling of memory |
| UserAlloc.UnitsHaveOneBlock | riscv/user/umalloc.c:24-90 | Every unit of memory lies in exactly one block, and no block is both live and free |
| UserAlloc.FreeBlocksApart | riscv/user/umalloc.c:32-41 | No two free blocks are adjacent |
| UserAlloc.Allocator.constructor | riscv/user/umalloc.c:21-22 | No memory, no live block |
| UserAlloc.Allocator.FindPlace | riscv/user/umalloc.c:28-31 | The search loop ends, at the free block below the freed one in address order |
| UserAlloc.Allocator.JoinRight | riscv/user/umalloc.c:32-36 | The block is linked in, merged with a free right neighbour |
| UserAlloc.Allocator.JoinLeft | riscv/user/umalloc.c:37-43 | It is linked to or merged with the left neighbour; the list is in order again and nothing adjacent is left |
| UserAlloc.Allocator.Free | riscv/user/umalloc.c:24-44 | The block is no longer live and lies in a free block; all other live blocks and their contents stay |
| UserAlloc.Allocator.MoreCore | riscv/user/umalloc.c:46-61 | The new memory joins the free list as one free block or part of one; nothing changes if sbrk fails |
| UserAlloc.Allocator.Take | riscv/user/umalloc.c:74-86 | Hands out the block or its tail, of exactly the requested size, apart from all live blocks |
| UserAlloc.Allocator.Search | riscv/user/umalloc.c:73-89 | The search loop ends, finds a block that fits if there is one, and asks sbrk exactly when there is none |
| UserAlloc.SbrkArgument | riscv/user/umalloc.c:46-55 | The int that malloc passes to sbrk is the size it then counts on exactly for requests of at most 2^31 - 32 bytes; for larger ones it is smaller |
| UserAlloc.SbrkArgumentWraps | riscv/user/umalloc.c:46-55 | At 2^31 - 31 bytes it is -2^31: sbrk is asked to shrink the heap |
| UserAlloc.BlockBeyondHeap | riscv/user/umalloc.c:46-61 | When sbrk succeeds, the block that morecore frees lies in the process's memory exactly for requests of at most 2^31 - 32 bytes; for nearly all larger ones not even its header does, and a large process loses memory |
| UserAlloc.Allocator.Refill | riscv/user/umalloc.c:46-61 | After sbrk's answer a block that fits is met before the search comes back to where it is |
| UserAlloc.Allocator.Malloc | riscv/user/umalloc.c:63-90 | The loop ends; returns a block of the right size apart from all live ones, whose contents stay; asks sbrk exactly when no free block fits, and fails exactly when sbrk then fails |
| RingIndex.Append | riscv/kernel/virtio_disk.c:295-302 | Storing at a counter modulo the ring's size appends to what the ring holds, and overwrites nothing it holds |
| RingIndex.Consume | riscv/kernel/virtio_disk.c:338-351 | Advancing the lower counter drops the oldest element |
| VirtioDisk.DescriptorsPartitioned | riscv/kernel/virtio_disk.c:174-236 | Each descriptor is free or in exactly one in-flight chain |
| VirtioDisk.SubmittedChains | riscv/kernel/virtio_disk.c:239-302 | Submitting adds one well-formed three-descriptor chain and leaves the others alone |
| VirtioDisk.SubmittedRings | riscv/kernel/virtio_disk.c:291-302 | Publishing it overwrites no unconsumed avail entry, across the wrap of the 16-bit index |
| VirtioDisk.DidKeeps | riscv/kernel/virtio_disk.c:321-354 | The device's completion overwrites no unconsumed used entry |
| VirtioDisk.RoomInRing | riscv/kernel/virtio_disk.c:295-302 | Fewer than NUM chains can be pending when a new one is published |
| VirtioDisk.IndicesAgree | riscv/kernel/virtio_disk.c:338-338 | The interrupt handler's test of the 16-bit indices is exact: equal exactly when nothing is left to consume |
| VirtioDisk.SeenFacts | riscv/kernel/virtio_disk.c:338-351 | The used entry names a chain that was served, with status 0: the handler's panic is not reached |
| VirtioDisk.Resumed | riscv/kernel/virtio_disk.c:308-318 | A waiter whose buffer is released finds its own request completed, with the data of that access |
| VirtioDisk.Driver.constructor | riscv/kernel/virtio_disk.c:140-162 | All descriptors free, both rings empty |
| VirtioDisk.Driver.AllocDesc | riscv/kernel/virtio_disk.c:174-184 | Takes the lowest free descriptor, or none is free |
| VirtioDisk.Driver.FreeDesc | riscv/kernel/virtio_disk.c:187-200 | Frees a descriptor that is in use and clears it |
| VirtioDisk.Driver.Alloc3Desc | riscv/kernel/virtio_disk.c:224-236 | Takes three distinct free descriptors exactly when there are three; otherwise gives back what it took |
| VirtioDisk.Driver.Submit | riscv/kernel/virtio_disk.c:239-306 | A new chain for the request is in flight, or, with fewer than three free descriptors, nothing changed |
| VirtioDisk.Driver.NoteOne | riscv/kernel/virtio_disk.c:338-351 | One turn of the interrupt loop consumes the oldest completion and releases its waiter |
| VirtioDisk.Driver.Intr | riscv/kernel/virtio_disk.c:321-354 | Consumes every completion and releases exactly the waiters of completed chains |
| VirtioDisk.Driver.FreeChain | riscv/kernel/virtio_disk.c:203-215 | Frees exactly the three descriptors of the chain; the panics of free_desc are not reached |
| VirtioDisk.Driver.Finish | riscv/kernel/virtio_disk.c:313-317 | The chain is gone and its buffer holds the outcome of its own access, which the device made after this request was submitted |
| Pipe.TestsAreExact | riscv/kernel/pipe.c:87-112 | The tests on the wrapping 32-bit counters are exact: full and empty mean what they say |
| Pipe.PutByte | riscv/kernel/pipe.c:91-96 | Storing a byte overwrites no unread byte and keeps counters, ring and stream in agreement |
| Pipe.TakeByte | riscv/kernel/pipe.c:119-126 | The byte taken is the next one of the stream |
| Pipe.StepKeepsInv | riscv/kernel/pipe.c:58-130 | Every step of every reader and writer, a close and a kill keep the invariant of ring, counters and sleepers |
| Pipe.RunKeepsInv | riscv/kernel/pipe.c:58-130 | Every run keeps it |
| Pipe.BytesInOrder | riscv/kernel/pipe.c:76-130 | In every reachable state the bytes read are a prefix of the bytes written, at most PIPESIZE behind |
| Pipe.StepKeepsCalls | riscv/kernel/pipe.c:76-130 | Every step keeps what each call has done so far tied to its arguments |
| Pipe.RunKeepsCalls | riscv/kernel/pipe.c:76-130 | Every run keeps it |
| Pipe.WriterPutsItsBytes | riscv/kernel/pipe.c:76-102 | In every run the bytes that a call of pipewrite has put into the stream are its first i bytes in order, across sleeps and other writers; it ends its loop with all of them exactly unless a copy failed |
| Pipe.ReaderTakesItsBytes | riscv/kernel/pipe.c:105-130 | In every run the bytes that a call of piperead has delivered are the next ones it took, in order; it ends early only with the pipe empty or a failed copy, and with nothing only at end of file |
| Pipe.CallReturns | riscv/kernel/pipe.c:76-130 | Each call returns what it has put or delivered, or -1 exactly in the cases of the source |
| Pipe.FailsOnlyByCopy | riscv/kernel/pipe.c:91-124 | A call fails in its copy only if one of its copies fails |
| Pipe.WholeWrites | riscv/kernel/pipe.c:76-102 | In every run in which its copies succeed, a writer that comes to the end of its loop has put exactly its bytes into the stream |
| Pipe.WritersSleepWhenFull | riscv/kernel/pipe.c:82-90 | While the lock is free, a sleeping writer means a full pipe with its read end open |
| Pipe.CoveredExactly | riscv/kernel/pipe.c:82-103 | If every reader that sleeps beside unread bytes is about to be woken, a step keeps this so exactly unless it is a killed writer returning early while such a reader sleeps |
| Pipe.ReadersSleepWhenEmpty | riscv/kernel/pipe.c:105-118 | In runs without such a return, while the lock is free, a sleeping reader means an empty pipe with its write end open |
| Pipe.StrandedReader | riscv/kernel/pipe.c:82-103 | A run, for any pipe size, that ends with a reader asleep, the lock free and bytes in the pipe |
| Grep.MatchHere | riscv/user/grep.c:84-96 | Decides whether the text starts with something the pattern's parts describe |
| Grep.MatchStar | riscv/user/grep.c:98-106 | Decides whether any number of c's, then a match of the rest, starts the text |
| Grep.Match | riscv/user/grep.c:72-82 | Decides the declarative meaning of a pattern with ^ . * $ for every pattern and text |
| Grep.Lines | riscv/user/grep.c:18-28 | The inner loop deals with exactly the complete lines in the buffer |
| Grep.Grep | riscv/user/grep.c:11-35 | However read splits the input, the output is the matching newline-terminated lines of the part whose lines fit in the buffer |
| Grep.SelectedJoin | riscv/user/grep.c:18-34 | Selecting lines distributes over concatenation after a newline |
| Grep.FittingPrefix | riscv/user/grep.c:17-34 | That part is a prefix of whole lines, and it is everything that has a newline exactly when all lines fit |
| Grep.SelectedFitting | riscv/user/grep.c:17-34 | Exactly the output of the lines after that prefix is lost |
| Grep.AllLinesSelected | riscv/user/grep.c:11-35 | If all lines fit, the output is all matching lines |
| Grep.CompleteWhenLinesFit | riscv/user/grep.c:11-35 | The output is complete for every pattern exactly when all lines fit |
| Grep.LongLineIsLost | riscv/user/grep.c:17-34 | A line of 1023 characters and a newline is lost, although the empty pattern matches it |
| ShellGrammar.RoundTrip | riscv/user/sh.c:333-452 | Printing any expressible command tree as tokens and parsing them gives the same tree |
| ShellSyntax.LineAccepted | riscv/user/sh.c:350-452 | The tokens of any line of the grammar, words and redirections of a command in any order, are accepted up to the end of the input or a closing parenthesis, and give the command that the line means |
| ShellSyntax.LineSound | riscv/user/sh.c:350-452 | Whatever is accepted is a line of the grammar, token by token, and the tree is what the line means |
| ShellSyntax.AcceptsExactly | riscv/user/sh.c:333-452 | The parser gives a command exactly for the token sequences that are a line meaning it; everything else is an error |
| Shell.Parser.GetToken | riscv/user/sh.c:271-314 | Advances by exactly one token and returns its kind and place |
| Shell.Parser.Peek | riscv/user/sh.c:316-326 | Tells whether the next token starts with one of the characters, without consuming it |
| Shell.Parser.ParseRedirs | riscv/user/sh.c:380-403 | Consumes exactly the redirections that the grammar accepts here |
| Shell.Parser.ParseArgs | riscv/user/sh.c:434-449 | Consumes words and redirections as the grammar does, with its error cases |
| Shell.Parser.ParseBlock | riscv/user/sh.c:405-419 | The same for a parenthesised command |
| Shell.Parser.ParseExec | riscv/user/sh.c:421-452 | The same for a simple command |
| Shell.Parser.ParsePipe | riscv/user/sh.c:367-378 | The same for a pipeline |
| Shell.Parser.ParseLine | riscv/user/sh.c:350-365 | The same for a line with lists and background commands |
| Shell.Parser.ParseCmd | riscv/user/sh.c:333-348 | Always ends; gives the grammar's tree of the whole input, and fails exactly when the grammar does |
| Shell.LexRender | riscv/user/sh.c:271-314 | Tokens written out with any blanks between them, of the five kinds and possibly none, are given back by the lexer exactly if there are some between two words and between a ">" and a following ">" or ">>" |
| Shell.TextRoundTrip | riscv/user/sh.c:271-452 | Writing any expressible command tree as text, with any blanks that keep its tokens apart, lexing and parsing it gives the same tree with the same strings |
| Shell.TextMeans | riscv/user/sh.c:271-452 | Parsing any text gives a command exactly if its tokens are a line of the grammar that means this command |
| Shell.NulTerminate | riscv/user/sh.c:455-499 | Writes NULs at exactly the ends of the tree's words and changes no other character |
| Shell.LexWords | riscv/user/sh.c:271-314 | Every word token ends at a delimiter or at the end of the input |
| Shell.LineFromWords | riscv/user/sh.c:350-452 | All argument and file strings of a tree are word tokens of the input |
| Shell.Terminated | riscv/user/sh.c:455-499 | After the NULs every argument and file string reads as its original token |
| Shell.ParseAndTerminate | riscv/user/sh.c:333-348 | Parsing and terminating in place: the grammar's tree, every string of which reads as its token |
| Links.FileLinked | riscv/kernel/sysfile.c:123-170 | A new name together with one more link keeps every link count right |
| Links.DirMade | riscv/kernel/sysfile.c:274-288 | A new directory with its two entries and its parent's extra link keeps every link count right |
| Links.FileUnlinked | riscv/kernel/sysfile.c:222-236 | Removing a name together with one link keeps every link count right |
| Links.DirRemoved | riscv/kernel/sysfile.c:222-236 | Removing an empty directory keeps every link count right; it had one link and its parent keeps one |
| Links.EmptyHasOneLink | riscv/kernel/sysfile.c:173-186 | An empty linked directory has one name, in the directory its ".." names |
| Links.UnnamedChanged | riscv/kernel/fs.c:337-363 | An inode without links may be freed or reused without disturbing any count |
| Links.LinkIntoOrphan | riscv/kernel/sysfile.c:150-155 | Linking a file into a directory that has itself been removed always leaves it one link more than names |
| Links.MkdirInOrphan | riscv/kernel/sysfile.c:245-302 | Making a directory in a removed one gives that a link but no name, and leaves its old parent one link fewer than names |
| Links.LinkInRemoved | riscv/kernel/sysfile.c:123-170 | From the tree of mkfs: create a directory, remove it, link a file into it; the file has two links and one name |
| Links.MkdirInRemoved | riscv/kernel/sysfile.c:245-302 | The same with a directory: the root has one link and is named twice |
| Links.Tree.constructor | riscv/mkfs/mkfs.c:119-170 | The tree that mkfs makes, a root with link count 1, its two entries, one entry per file and empty entries to the end of a block, satisfies the link-count invariant |
| Links.Tree.DirLookup | riscv/kernel/fs.c:574-598 | Finds the first entry of the name, or there is none |
| Links.Tree.DirLink | riscv/kernel/fs.c:602-629 | Adds the entry in the first empty place or at the end; fails exactly if the name exists or the directory cannot grow |
| Links.Tree.IsDirEmpty | riscv/kernel/sysfile.c:173-186 | True exactly when all entries but the first two are empty |
| Links.Tree.Link | riscv/kernel/sysfile.c:123-170 | Adds one name and one link, or changes nothing; succeeds exactly if there is a source that is no directory and a directory with room and without the name; all link counts stay right exactly if the directory has not been removed |
| Links.Tree.Unlink | riscv/kernel/sysfile.c:188-243 | Removes one name and one link, and the parent's link to a directory; refuses ".", ".." and non-empty directories, or changes nothing; all link counts stay right |
| Links.Tree.Ialloc | riscv/kernel/fs.c:199-220 | Takes the first free inode, or none is free |
| Links.Tree.Put | riscv/kernel/fs.c:337-363 | Frees the inode exactly when it has no links; all link counts stay right |
| Links.Tree.NewEntry | riscv/kernel/sysfile.c:264-301 | Takes the first free inode and gives it its entries, or leaves everything as it was, exactly if there is no free inode or no room for an entry |
| Links.Tree.Create | riscv/kernel/sysfile.c:245-302 | Makes a file, device or directory with one link exactly if there is a free inode and room; an existing name is opened exactly if a file is asked for and a file or device is there, without any change; undoes everything on failure; all link counts stay right exactly if the directory has not been removed, and it says which count is wrong otherwise |

## Left out

- The x86 copy: the same algorithms in older form.
- Boot, traps, system call argument fetching, exec, the console, the UART, the PLIC, and the small user programs.
- Liveness and fairness: the theorems are safety properties over all runs.
- Weak memory: steps are sequentially consistent.
- The byte layout of inodes on disk: the inode table is separate state beside the disk blocks; its type field appears in Links, its addresses and size in Inodes. Blocks logged for it are counted.
- The in-memory inode cache (iget, idup, ilock, iunlock), path walking (namex, skipelem), file descriptors, filealloc, fileclose and ireclaim.
- Sleep-locks appear as one lock step and one release step in LogCache; sleeplock.c is not modelled by itself.
- More than one disk device.
- The sizes that the source fixes as constants and uses in address arithmetic stay constants: BSIZE, NDIRECT, PGSIZE, the Sv39 layout, BUFSIZE of grep, DIRSIZ.
- Log.LogState.BeginOp: does not model the waiting loop of begin_op; one turn of it is one call. The waiting is in LogCache, where a step is not enabled until it may proceed.
- LogCache.LogNeverPanics: does not exclude the panic for an operation that has used up its reservation, for which it gives the exact condition instead; a step in which the original panics is not taken.
- LogCache.StepKeepsInv: does not model who runs recovery before the first process; reads during recovery are allowed to any process, writes are not.
- File.Filewrite: does not model pipes, devices and the sleep for log space, only the branch for inodes.
- Mkfs.Image.Ialloc: does not model the type and link count written into the inode, nor the missing test for too many files, which is a precondition.
- Mkfs.Image.Populate: does not model how host names are shortened, the test for a slash in them, or the host's input and output errors.
- VirtualMemory.Vm.Kfree: does not model the range check on the address; freeing a page in use by somebody is excluded by the callers' proofs.
- VirtualMemory.Vm.Mappages: does not model the panics for misaligned, empty or already mapped ranges; they are preconditions that every caller here is proved to meet. Bits of an entry above its frame number are not bounded.
- Physical pages are typed as tables or data; reading a table as bytes is not modelled.
- The kernel page table, uvmclear, copyinstr, and growth of a process by exec.
- ProcessMemory.Machine.Growproc: does not model a size above TRAPFRAME, which the source does not refuse; mappages panics there.
- The operations of ProcessMemory on a process whose size lies above TRAPFRAME.
- ProcessMemory.Machine.Kfork: does not model files and registers; the page of the trap frame is taken and returned by TakePage and GivePage.
- UserMemory.Vmfault: does not model a page table other than the one of the running process; a size above TRAPFRAME is excluded.
- Scheduling.LocksNeverPanic: does not model the interrupt flag; Interrupts adds it.
- Interrupts.OffWhileLocked: does not model the handlers, nor that acquire spins with interrupts off.
- Scheduling.NoLostWakeup: does not model several conditions on one channel; callers change a condition and call wakeup under the condition's lock, as sleep() asks them to.
- ExitWait.StepKeepsInv: does not model memory, files and the exit status of a process, sleeps outside kwait, wakeup in several steps, and overflow of process numbers; failure of fork's allocations is a choice.
- UserAlloc.Allocator.Malloc: does not model a request above 2^31 - 32 bytes that no free block fits and for which sbrk does not fail: sbrk is then asked for less than malloc counts on (UserAlloc.SbrkArgument). Nor does it model a heap that shrinks; addresses count header units and sbrk's answer is a parameter.
- VirtioDisk.Driver.Intr: does not model device steps inside the loop; VirtioDisk.Driver.NoteOne is one turn, and the device may act between turns.
- VirtioDisk.Driver.Submit: does not model the wait for descriptors and the device notification; a caller that gets no descriptors changes nothing and tries again. The device is an environment that completes each chain once and successfully; device initialisation is left out.
- Pipe.StepKeepsInv: does not model sleep and wakeup in several steps (Scheduling does) or the allocation and release of the pipe's page.
- Shell.Parser.ParseCmd: does not model heap allocation of tree nodes, which are values here; a panic of the parser is a failure result. Running commands is left out.
- Links.Tree.Link: does not model interleaving of system calls on the same directory, the search for the inodes of a path, whose results are parameters, or overflow of the link count. A directory in which the counts have gone wrong is not followed further.
- Grep.Grep: does not model input that contains NUL; the main function and reading from several files are left out.
