# Verified model of a file system, a thread scheduler and a page allocator

The project models three stateful cores written in C and proves what they promise.

**The block file system** (`asst3/assignment3/src`). A first-fit allocator over `disk_blocks` feeds inodes with 10 direct,
100 single-indirect and 1000 double-indirect blocks; index blocks and data blocks share one disk. On top of it lie reading
and writing with block arithmetic, exact freeing, directories kept as text, two tables in lockstep, and saving all tables at
unmount.

- `Blocks`, `BlockCount`, `FreeCount`: blocks as bytes and as shorts, the block-count expressions in machine arithmetic
- `IndexTree`, `StoreImage`, `FileImage`, `FreeImage`, `Accounting`: the index tree as a map from slots to blocks, who owns
  which block, the contents of files, and how each operation changes them
- `BlockStore`: class `Store`, the operations on arrays
- `DirText`, `DirRemoval`, `Paths`: the directory format, exactly when removing an entry works, and path splitting
- `FsImage`, `FsSteps`, `FileSystem`, `FsRuns`, `FsSession`: the whole file system, class `FileSystem`, its runs, and what
  they leave on the disk
- `Mount`, `TableBytes`, `MountFs`: unmounting and mounting, and the bytes of the tables

The invariant has an abstract side: a tree for each inode, an owner for each block, the entries of each directory and a
*view*, which maps file paths to bytes and directory paths to lists of names. Every method of `FileSystem` states what it
does to the view.

**The thread scheduler** (`asst1/my_pthread.c`). Five ready queues, wait queues of mutexes, a join table and recycled ids.

- `Sched`: the state machine; each API call is one step up to its `raise(SIGVTALRM)` and one step after it, and a timer tick is
  a step that may come anywhere
- `SchedThreads`: what each step does to each field
- `SchedInv`, `SchedRuns`, `SchedJoin`, `SchedLive`, `SchedTurns`: the invariant, and what holds over every run
- `SchedLost`, `SchedExamples`: what happens to threads when callers do not keep the rules, and runs that show it
- `ThreadQueue`, `QueueBank`: the circular list with a back pointer, and all queues together
- `Scheduler`: class `Scheduler` over the linked queues, the calls as methods, each proved to be its step

**The page allocator** (`asst2/my_pthread.c:43-284`). 256 page descriptors in doubly linked lists, one for each thread, with
`more` flags, and the page fault handler.

- `PageLists`, `PageTable`, `PageRuns`: the lists as values, class `PageTable`, and runs
- `Paging`: the handler as written and as its comment describes it

Where the code does not do what it is for, the model keeps the code and states the exact condition: see
`FileImage.WriteIsPosixIffAppend`, `FileImage.TailSurvivesIff`, `DirRemoval.RemoveEntryIff`, `SchedLost.JoinLosesIff`,
`SchedLost.ReapStrandsIff`, `SchedLost.InitLosesIff`, `SchedTurns.DeadlockReportIsTrueIff`, `Mount.RemountIff`,
`MountFs.ReservedTakenIff`, `PageRuns.ReturnedBytesInsideIff`, `PageRuns.FreeKeepsAddressIff` and
`Paging.AsWrittenKeepsPagesIff`.

`dafny verify dfyconfig.toml` checks the whole project.

## Model

| member | source | states |
|---|---|---|
| Blocks.PutGet | asst3/assignment3/src/sfs.c:198-208 | Storing entry j of a block viewed as an array of 256 little-endian shorts makes entry j read as the stored value, negative ones included, and leaves the other 255 entries |
| Blocks.LittleEndian | asst3/assignment3/src/sfs.c:174-183 | An entry reads as its low byte and 256 times its high byte, which carries the sign |
| Blocks.FillNegative | asst3/assignment3/src/sfs.c:201-203 | The loop that fills a new index buffer stores exactly -1 in the first n entries and leaves the rest |
| BlockCount.SpanIsCeil | asst3/assignment3/src/sfs.c:889-892 | The block-count expression, in wrapping 64-bit unsigned arithmetic narrowed to a 32-bit int, equals ceil((offset mod 512 + size)/512) if and only if that number fits an int; this includes requests inside one block, where the subtraction underflows |
| BlockCount.SpanWraps | asst3/assignment3/src/sfs.c:809-812 | The underflow case alone: a request inside one block that begins after its start wraps below zero, the quotient is 2^55 - 1, and with the two partial blocks the sum narrows to 1, the right count |
| BlockCount.GrowthIsDifference | asst3/assignment3/src/sfs.c:865 | The growth expression equals ceil(end/512) - ceil(st_size/512) if and only if that difference fits an int |
| BlockCount.MustGrowIffMoreBlocks | asst3/assignment3/src/sfs.c:864 | The resize test is true if and only if the write ends in a block beyond the last one of the file |
| FreeCount.SomeFree | asst3/assignment3/src/sfs.c:158-167 | The count of free blocks is positive if and only if some block is free, so the scan of the allocator ends |
| BlockStore.Store.BlockRead | asst3/assignment3/src/block.c:44-55 | A read delivers the block, or zeroes when it lies outside the disk |
| BlockStore.Store.BlockWrite | asst3/assignment3/src/block.c:61-69 | A write changes exactly one block |
| BlockStore.Store.GetBlock | asst3/assignment3/src/sfs.c:158-167 | Takes the first free block, marks it and nothing else, and hands it to the caller; every lower block was in use |
| BlockStore.Store.GetBlockIndex | asst3/assignment3/src/sfs.c:169-187 | The three index tiers read as one map: a mapped number gives its block; an unmapped one gives a negative number if its index block exists, else 0, or an entry of block 0 taken for an index block if the double-indirect block is missing; numbers from 1110 on give -1 |
| BlockStore.Store.SetDirect | asst3/assignment3/src/sfs.c:194-195 | Storing one of the ten direct entries refines an update of the map |
| BlockStore.Store.SetSingle | asst3/assignment3/src/sfs.c:197-208 | Storing through the single-indirect block refines an update of the map, whether the index block exists or is allocated here |
| BlockStore.Store.SetDouble | asst3/assignment3/src/sfs.c:210-234 | Storing through the double-indirect block refines an update of the map, whether none, one or two index blocks are allocated here |
| BlockStore.Store.SetBlockIndex | asst3/assignment3/src/sfs.c:189-236 | After the call entry n of inode f is v, every other entry of this and every other inode is as before, only missing index blocks were taken, no data block changed, and all trees are still disjoint with exactly their blocks allocated |
| IndexTree.AttachStored | asst3/assignment3/src/sfs.c:189-236 | Adding one slot to a stored tree, in the inode or in an index block, stores exactly the tree with that slot added |
| IndexTree.AttachExact | asst3/assignment3/src/sfs.c:189-236 | Attaching a block in the caller's hands to a free slot keeps the trees disjoint and ownership exact |
| StoreImage.SetDone2 | asst3/assignment3/src/sfs.c:211-233 | The call that allocates both the double-indirect block and the index block below it: the two are distinct from each other and from every other block, and the map changes at n only |
| BlockStore.Store.AddBlock | asst3/assignment3/src/sfs.c:871-884 | One turn of the resize loop adds exactly the next data block with the index blocks it needs |
| BlockStore.Store.Grow | asst3/assignment3/src/sfs.c:866-884 | The resize loop maps exactly the wanted further blocks, keeps the bytes of every mapped block of every file, and takes exactly the computed number of free blocks |
| BlockStore.Store.ReadSpan | asst3/assignment3/src/sfs.c:813-822 | The gathered buffer is the bytes of n consecutive data blocks |
| BlockStore.Store.Read | asst3/assignment3/src/sfs.c:793-825 | At or beyond the end of the file -1 and nothing; else exactly contents[offset..min(offset+size, st_size)], across all three tiers |
| BlockStore.Store.WriteSpan | asst3/assignment3/src/sfs.c:903-907 | Exactly the data blocks of the span get the buffer's blocks; no other data block of any file changes |
| BlockStore.Store.Write | asst3/assignment3/src/sfs.c:851-914 | A write beyond the end does nothing; any other stores its bytes, keeps what is before them and, but for what it zeroes of its last block when it spans blocks, what is after them; st_size grows by its length, and the invariant holds |
| FileImage.GrowStep | asst3/assignment3/src/sfs.c:871-884 | Taking a block and storing it as the next data block keeps the whole-store invariant: dense prefix, exact ownership, nothing held |
| FileImage.AppendContents | asst3/assignment3/src/sfs.c:851-914 | A write at st_size makes the contents the old contents followed by the data, for every size and across all tiers; every other file keeps its contents; st_blocks is again ceil(st_size/512) |
| FileImage.WriteIsPosixIffAppend | asst3/assignment3/src/sfs.c:909 | Because st_size grows by the whole length even when bytes are overwritten, a write has the contents pwrite promises if and only if its offset is st_size |
| FileImage.TailSurvivesIff | asst3/assignment3/src/sfs.c:889-909 | What lies after an overwritten range survives if and only if the write stays in one block, or what it zeroes of its last block was zero before; the last block is never read |
| FileImage.ContentsFrame | asst3/assignment3/src/sfs.c:778-915 | The contents of an inode depend on its own data blocks only |
| FreeImage.PositiveBlocks | asst3/assignment3/src/sfs.c:102-131 | Block 0 always belongs to the root directory, so every block of every other inode is positive; hence the tests for greater than 0 find all of them |
| FreeImage.DenseStops | asst3/assignment3/src/sfs.c:107-125 | Stopping at the first unused entry of an index block misses no block, by the dense prefix |
| BlockStore.Store.ReleaseDouble | asst3/assignment3/src/sfs.c:102-117 | Exactly the blocks of the double-indirect part become free: that index block, those below it, and their data blocks |
| BlockStore.Store.ReleaseSingle | asst3/assignment3/src/sfs.c:119-127 | Exactly the single-indirect block and its data blocks become free |
| BlockStore.Store.FreeInode | asst3/assignment3/src/sfs.c:88-138 | With links left only the count drops; with the last one, exactly the data and index blocks of the file become free, no other file's block is touched, and the invariant holds again |
| FreeImage.UnlinkedCore | asst3/assignment3/src/sfs.c:88-138 | The state after the last link is gone satisfies the whole-store invariant |
| Accounting.OwnedCount | asst3/assignment3/src/sfs.c:189-236 | A file of n data blocks owns exactly n blocks plus 0 (n <= 10), 1 (n <= 110) or 2 + ceil((n-110)/100) |
| Accounting.NothingLeaked | asst3/assignment3/src/sfs.c:158-236 | In every state the blocks of all files and the free blocks add up to all blocks of the disk |
| BlockStore.Store.GetInode | asst3/assignment3/src/sfs.c:74-86 | The first free inode, all twelve entries unused; -1 and no change if there is none |
| BlockStore.Store.constructor | asst3/assignment3/src/sfs.c:398-402 | Zeroed tables over a disk with any contents |
| DirText.Strstr | asst3/assignment3/src/sfs.c:312-317 | The first occurrence of the pattern at or after a position, or -1 if and only if there is none |
| DirText.RemoveSubstring | asst3/assignment3/src/sfs.c:312-317 | The removal loop ends, and computes what removing first occurrences until none is left computes |
| DirRemoval.OneRemoved | asst3/assignment3/src/sfs.c:312-317 | Only the wanted occurrence is removed from a text, if no other begins before it or lies after it |
| DirRemoval.NotOneRemoved | asst3/assignment3/src/sfs.c:312-317 | Otherwise what is left is another text, or shorter, also when an earlier occurrence overlaps the wanted one |
| DirRemoval.SearchGoesOn | asst3/assignment3/src/sfs.c:312-317 | The search goes on where the last occurrence was: removing "ab" from "aabb" leaves "ab" |
| DirRemoval.OccursReads | asst3/assignment3/src/sfs.c:657-672 | "/name/ino" occurs in slash-separated words only where a word equals the name and the next one begins with the number |
| DirRemoval.RemoveEntryIff | asst3/assignment3/src/sfs.c:657-672 | For names of any kind, digits included, and inode numbers that differ from each other and from the parent: removing "/name/ino" gives exactly the directory without that entry if and only if nowhere else two words in a row read like it |
| DirRemoval.RemoveEntry | asst3/assignment3/src/sfs.c:657-672 | That condition alone makes the removal right |
| DirRemoval.NoDigitsClear | asst3/assignment3/src/sfs.c:657-672 | A name with a character that is no digit, other than "..", always meets the condition |
| DirRemoval.DigitNameDamages | asst3/assignment3/src/sfs.c:657-672 | Removing the file named 5 from a directory that lists "a" with inode 5 and "3x" with inode 7 before it leaves "./0/../0/ax/7" |
| DirText.DirectoryAppend | asst3/assignment3/src/sfs.c:598-622 | Printing the new item at the end gives the text of the directory with one more entry |
| DirText.PrintsIff | asst3/assignment3/src/sfs.c:619 | What "%i" prints of a number is the one text of digits, most significant first and without a leading zero, that stands for it |
| DirText.EmptyDirectory | asst3/assignment3/src/sfs.c:963 | The text of a new directory is "./", its own number, "/../" and the number of its parent |
| DirText.ReadNames | asst3/assignment3/src/sfs.c:1138-1144 | The strtok loop passes on every other token |
| DirText.ReaddirRoundTrip | asst3/assignment3/src/sfs.c:1138-1144 | Listing the text of a directory gives ".", ".." and then the names, of any kind, in the order in which they were entered |
| Paths.GetCwdPath | asst3/assignment3/src/sfs.c:270-291 | The directory part of the path: what precedes its last slash, or "/"; -1 and nothing stored without a slash |
| Paths.GetName | asst3/assignment3/src/sfs.c:293-310 | The leaf: what follows the last slash; nothing stored without a slash |
| Paths.PathParts | asst3/assignment3/src/sfs.c:270-310 | Directory and leaf determine the path |
| FsImage.LookupLive | asst3/assignment3/src/sfs.c:260-268 | The lookup of a live path gives its own slot |
| FsImage.LeafIsNew | asst3/assignment3/src/sfs.c:549-555 | If the lookup of a path fails, its leaf is not listed in its parent |
| FsImage.LinkFs | asst3/assignment3/src/sfs.c:559-632 | Linking a new file or directory keeps all tables in lockstep, live paths unique, every directory text equal to what it should list, and link counts and sizes right; the file system then stands for the old one with one node added |
| FsSteps.LinkGains | asst3/assignment3/src/sfs.c:593-632 | The parent's text has gained "/", the name, "/" and the digits of the inode at its end; its link count is one more and its st_size greater by that and one |
| FsSteps.UnlinkLoses | asst3/assignment3/src/sfs.c:657-686 | The parent's text has lost exactly that item; its link count is one less and its st_size less by what the text leaves of its block |
| FsImage.UnlinkFs | asst3/assignment3/src/sfs.c:657-690 | Unlinking keeps the same, with the link count and st_size of the parent as lines 685-686 leave them, and the file system then stands for the old one without that file |
| FsImage.AppendFs | asst3/assignment3/src/sfs.c:851-914 | Appending keeps the same, and changes the contents of one path |
| FsSteps.InitValid | asst3/assignment3/src/sfs.c:398-444 | The root with its one block, block 0, satisfies the whole-store invariant |
| FileSystem.MakeRoot | asst3/assignment3/src/sfs.c:405-444 | The root gets the first inode and block 0, which then holds "./0/../0", two links and st_size 9 |
| FileSystem.FileSystem.Init | asst3/assignment3/src/sfs.c:396-446 | A new file system is valid and consists of the empty root directory |
| FileSystem.FileSystem.PathLookup | asst3/assignment3/src/sfs.c:260-268 | The first slot with this path, or -1 |
| FileSystem.FileSystem.GetMapping | asst3/assignment3/src/sfs.c:140-149 | Marks the first free slot; -1 and no change if there is none |
| FileSystem.FileSystem.GetFh | asst3/assignment3/src/sfs.c:243-251 | The first closed handle, or -1 if and only if all are open |
| FileSystem.FileSystem.GetAttr | asst3/assignment3/src/sfs.c:510-527 | Although it indexes inode_table by name slot, it copies the stat of the path's own inode, whose kind and, for files, size are those of the path; ENOENT and the stat of an empty file exactly for paths that are neither file nor directory |
| FileSystem.FileSystem.Open | asst3/assignment3/src/sfs.c:705-741 | The first closed handle, on that file, or ENOENT, EISDIR or ENOMEM, each exactly when it applies |
| FileSystem.FileSystem.Release | asst3/assignment3/src/sfs.c:757-765 | Closes that handle and no other, and changes nothing the file system stands for |
| FileSystem.FileSystem.Create | asst3/assignment3/src/sfs.c:544-632 | EEXIST without change, or the step of the run: exactly one new empty file, listed last in its parent; the parent's block has gained the name and the digits of the inode; the first closed handle is open on it, the others are as before |
| FileSystem.FileSystem.EnterName | asst3/assignment3/src/sfs.c:576-591 | The first free name slot is the number of the inode just taken |
| FileSystem.FileSystem.Mkdir | asst3/assignment3/src/sfs.c:919-1005 | EEXIST without change, or the step of the run: exactly one new directory, listed last in its parent, whose block has gained its item; the new block reads "./", its inode, "/../" and the parent's, in digits |
| FileSystem.FileSystem.Unlink | asst3/assignment3/src/sfs.c:638-692 | ENOENT without change, or the step of the run: exactly that file and its entry are gone, and the parent's block has lost exactly its item |
| FileSystem.FileSystem.Read | asst3/assignment3/src/sfs.c:778-825 | EBADF for a closed handle; else the bytes of the file in the requested window |
| FileSystem.FileSystem.Write | asst3/assignment3/src/sfs.c:836-915 | EBADF, or nothing beyond the end, or the step of the run: the file's contents with the data appended; every other file and directory is the same |
| FileSystem.FileSystem.ReadDir | asst3/assignment3/src/sfs.c:1121-1144 | ENOENT, or ".", ".." and the names in the order of creation |
| FsRuns.ContentsAreAppends | asst3/assignment3/src/sfs.c:544-915 | After every run of create, mkdir, append and unlink on any files, what a live path stands for is exactly the concatenation of what was appended to it since its creation |
| FsRuns.DiskHoldsAppends | asst3/assignment3/src/sfs.c:544-915 | Over every run through valid tables and disks: the blocks on the disk that the tables give to a path hold exactly that concatenation, and st_size is its length |
| FsSession.Session.constructor | asst3/assignment3/src/sfs.c:329-446 | The run of a new file system is empty |
| FsSession.Session.Create | asst3/assignment3/src/sfs.c:544-632 | The call extends the run by this creation |
| FsSession.Session.Append | asst3/assignment3/src/sfs.c:836-915 | Open, write at st_size and release extend the run by this append |
| FsSession.Session.Unlink | asst3/assignment3/src/sfs.c:638-692 | The call extends the run by this removal |
| FsSession.Session.Read | asst3/assignment3/src/sfs.c:778-826 | After any sequence of calls since the first mount, opening, reading and releasing a file returns the window of what was appended to it since its creation |
| FsRuns.SameView | asst3/assignment3/src/sfs.c:544-915 | Valid file systems that stand for the same hold the same bytes under every path and list the same names in every directory |
| FsRuns.UnlinkUndoesCreate | asst3/assignment3/src/sfs.c:544-692 | In a valid file system, creating a file and unlinking it gives back the bytes of every file and the list of every directory on the disk, whatever slots and blocks were used |
| Mount.LayoutRoundTrip | asst3/assignment3/src/sfs.c:371-389 | The offsets of saving and loading agree: loading what was saved gives the same four tables and root numbers |
| Mount.ReservedSize | asst3/assignment3/src/sfs.c:461-462 | The tables take 107536 bytes; 211 blocks are reserved for them, from block 32557 to the end of the disk |
| Mount.Volume.Destroy | asst3/assignment3/src/sfs.c:460-489 | The image of all tables lies in the reserved blocks, which suffice for it, and no other block changed |
| Mount.Volume.FindKey | asst3/assignment3/src/sfs.c:346-360 | The downward scan finds the last block that begins with KEY, or decides for a new file system at the default place |
| Mount.Volume.Init | asst3/assignment3/src/sfs.c:339-394 | With a key on the disk the tables are those of the image that begins there; without one the mount is new |
| Mount.RemountIff | asst3/assignment3/src/sfs.c:339-394 | From the tables and the disk before unmounting: the next mount finds the saved block if and only if no later piece of the tables and no block after them begins with KEY; then all tables and root numbers are restored |
| TableBytes.InodeRoundTrip | asst3/assignment3/src/params.h:62-66 | An inode, as its 176 bytes lie in memory, reads back as it was, with links, kind, size, blocks and the block list |
| TableBytes.InodeLayout | asst3/assignment3/src/params.h:62-66 | Where the fields of an inode lie in its 176 bytes |
| TableBytes.MappingRoundTrip | asst3/assignment3/src/params.h:50-54 | So does a name slot, its path being the C string in its buffer |
| TableBytes.EntryRoundTrip | asst3/assignment3/src/params.h:71-75 | So does an open file |
| TableBytes.TablesRoundTrip | asst3/assignment3/src/sfs.c:466-484 | The bytes of all four tables read back as the tables |
| TableBytes.NeverKeyed | asst3/assignment3/src/sfs.c:339-353 | No block of an image but the first begins with KEY: at each of the 210 places the field that lies there cannot hold it, for a path because 0x25 is a percent sign |
| MountFs.FsKeyUnique | asst3/assignment3/src/sfs.c:339-353 | So the tables of a valid file system never hide their own image from the scan |
| MountFs.RemountRestores | asst3/assignment3/src/sfs.c:339-394 | Unmount, then mount: the scan finds the saved block, the tables read from the disk are those of the file system, and on the disk as it is then they stand for the same files and directories, if no file has a block in the reserved area |
| MountFs.UnmountAndMount | asst3/assignment3/src/sfs.c:460-489 | The two calls on a volume, one after the other, do this |
| MountFs.ReservedTakenIff | asst3/assignment3/src/sfs.c:158-167 | The allocator hands out a block at or above system_block if and only if every block below it is used |
| MountFs.ReservedSpared | asst3/assignment3/src/sfs.c:158-167 | So it stays out of the reserved area as long as more blocks are free than are reserved |
| MountFs.FileSurvives | asst3/assignment3/src/sfs.c:486-489 | A file none of whose blocks lies in the reserved area survives unmounting, with its tree and its contents, whatever other files have there |
| Sched.FirstLevel | asst1/my_pthread.c:263-267 | The search from any level, cyclically, ends at a non-empty queue whenever one exists |
| Sched.FirstLevelIsFirst | asst1/my_pthread.c:263-267 | Every level it passes over is empty |
| ThreadQueue.Queue.constructor | asst1/my_pthread.c:38-46 | A new queue is empty |
| ThreadQueue.Queue.Enqueue | asst1/my_pthread.c:77-88 | The circular list with only a back pointer refines a sequence: the thread is appended at its end, for every size |
| ThreadQueue.Queue.GetNext | asst1/my_pthread.c:50-73 | NULL for an empty queue, else the first element, which is removed; sizes 1, 2 and larger included |
| QueueBank.Bank.Make | asst1/my_pthread.c:38-46 | A new empty queue for a level or a mutex; all other queues hold what they held |
| QueueBank.Bank.Put | asst1/my_pthread.c:77-88 | Appending to one of the linked queues leaves all others alone: their cells are disjoint |
| QueueBank.Bank.Take | asst1/my_pthread.c:50-73 | So does taking from one |
| SchedInv.InitInv | asst1/my_pthread.c:128-199 | The initial state satisfies the invariant |
| SchedInv.TickKeeps | asst1/my_pthread.c:214-274 | The handler keeps the invariant for a running thread that is active or yielding |
| SchedInv.BlockedKeeps | asst1/my_pthread.c:214-274 | The handler keeps the invariant for a running thread that just blocked |
| SchedInv.ExitKeeps | asst1/my_pthread.c:343-354 | An exit, with the handler that follows it and wakes the joiner, keeps the invariant |
| SchedInv.CreatedKeeps | asst1/my_pthread.c:283-331 | Creating a thread keeps it |
| SchedInv.JoiningKeeps | asst1/my_pthread.c:383-391 | Registering as joiner and blocking keeps it |
| SchedInv.ReapedKeeps | asst1/my_pthread.c:393-404 | The clean-up of a join keeps it |
| SchedInv.UnlockedKeeps | asst1/my_pthread.c:487-506 | Unlocking, with or without handoff, keeps it |
| SchedInv.DestroyedKeeps | asst1/my_pthread.c:511-551 | Destroying an unlocked mutex keeps it; the drain loop never has a waiter to move |
| SchedInv.StepKeeps | asst1/my_pthread.c:214-551 | Every API call up to its alarm, every continuation after it, and every timer tick keeps the invariant, if a thread has one joiner and no mutex in use is initialised again |
| SchedRuns.EveryRunFromInit | asst1/my_pthread.c:128-551 | The invariant holds in every state of every run from initialisation, with ticks anywhere |
| SchedRuns.ExactlyOnePlace | asst1/my_pthread.c:214-551 | Every thread is at exactly one place: running, one slot of one ready queue, one slot of one mutex queue, blocked in join, or exited |
| SchedRuns.PlaceAgrees | asst1/my_pthread.c:214-551 | The status agrees with the place; a thread in queue p has priority p; the running thread has the current priority; a mutex with waiters has an owner; a blocked joiner's target is not done; intervals_run <= priority < 5 |
| SchedRuns.MutualExclusion | asst1/my_pthread.c:452-506 | At most one thread holds a mutex; it is the owner and is not in the wait queue |
| SchedRuns.ClaimOverwritesNobody | asst1/my_pthread.c:452-482 | The claim a woken thread makes finds the mutex already handed to it |
| SchedRuns.StepQueue | asst1/my_pthread.c:452-551 | Only a blocking lock appends to a wait queue, only the owner's unlock removes from it, and it removes the head and makes it owner; no step barges |
| SchedRuns.FirstComeFirstServed | asst1/my_pthread.c:452-506 | Over every run, the sequence of arrivals at a mutex is the sequence of grants followed by the present queue |
| SchedThreads.OthersChange | asst1/my_pthread.c:214-551 | No step changes anything of a thread other than the caller, except that the exit of its target, or the unlock that hands it its mutex, makes a blocked one active: priority, intervals and ids stay |
| SchedThreads.CallerChanges | asst1/my_pthread.c:214-551 | What each step does to the thread that takes it: which of status, priority, intervals, wait_id change, and to what |
| SchedThreads.BooksChange | asst1/my_pthread.c:92-123 | What each step does to the tables of threads and joiners, to the free ids, to `done` and to mutex_list |
| SchedThreads.QuietReady | asst1/my_pthread.c:283-331 | Calls that do not raise the alarm leave processor, level and ready queues alone, but that a new thread is last in queue 0 whatever the level, and a thread handed a mutex last in the queue of its priority |
| SchedThreads.PutAwayReady | asst1/my_pthread.c:219-252 | To the back of which queue the running thread, or the joiner its exit wakes, goes |
| SchedThreads.HandlerDispatches | asst1/my_pthread.c:254-267 | The handler lets an active thread with intervals left go on; else the front of the first non-empty queue above the present level, cyclically, runs |
| SchedThreads.WaiterWokenByOwner | asst1/my_pthread.c:498-502 | A thread that waits for a mutex stays as it is until the owner's unlock hands it the mutex; then it is active, last in the ready queue of the priority it had, and no other queue gains a thread |
| SchedThreads.JoinCodes | asst1/my_pthread.c:358-380 | Which code a join returns, each if and only if its condition on the fields holds |
| SchedThreads.JoinEffects | asst1/my_pthread.c:382-404 | A join of a target that is done goes on without waiting: its entry is gone, its id is first in the free list, the caller runs on; any other one that passes the checks registers the caller, and another thread runs |
| SchedThreads.RegisteredStays | asst1/my_pthread.c:416-448 | Over every run, a mutex in mutex_list stays there |
| SchedThreads.DestroyFindsMutex | asst1/my_pthread.c:511-551 | A mutex initialised while the list has room can be destroyed at any later time of a run when it is unlocked |
| SchedThreads.DrainMoves | asst1/my_pthread.c:540-544 | The drain loop makes exactly the waiters active and appends each, in order, to the queue of its priority |
| SchedJoin.NobodyWaitsForCaller | asst1/my_pthread.c:370-376 | A thread that somebody waits for cannot pass the checks of join |
| SchedJoin.NewWaiterAtTheEnd | asst1/my_pthread.c:358-390 | One new waiting edge from a thread nobody waits for closes no cycle of any length |
| SchedJoin.OnlyJoinWaits | asst1/my_pthread.c:214-551 | No step makes a thread wait except the caller of a join, for its target |
| SchedJoin.NeverACycle | asst1/my_pthread.c:358-390 | Over every run from initialisation no threads wait for each other in a circle of any length |
| SchedJoin.BlockedOnLiveTarget | asst1/my_pthread.c:383-390 | The target of a blocked joiner has not exited, and the joiner is the one registered for it |
| SchedJoin.JoinerWokenByTarget | asst1/my_pthread.c:240-247 | A blocked joiner is woken by the exit of its target and by no other step; nothing else about it changes |
| SchedLost.JoinLosesIff | asst1/my_pthread.c:371-391 | A join that passes the checks and has to wait loses a thread, to which nothing refers any more, if and only if some thread is registered for the target already |
| SchedLost.ReapStrandsIff | asst1/my_pthread.c:383-404 | A join that finds its target done leaves a thread that will read a NULL entry of thread_table if and only if a joiner is registered for it, woken but not yet run |
| SchedLost.InitLosesIff | asst1/my_pthread.c:416-430 | Initialising a mutex loses exactly its waiters, since the queue is replaced before EBUSY is reported |
| SchedLost.LostForever | asst1/my_pthread.c:214-551 | Over every run of possible steps, in order or not, a lost thread is never dispatched again |
| SchedLost.NobodyLost | asst1/my_pthread.c:214-551 | In every state the invariant admits nobody is lost |
| SchedExamples.SecondJoinerPasses | asst1/my_pthread.c:371-380 | A run from initialisation to a state in which a second joiner passes the check, which tests the caller and not the target |
| SchedExamples.FirstJoinerIsLost | asst1/my_pthread.c:383-391 | There the call loses the first joiner |
| SchedExamples.SecondReaperPasses | asst1/my_pthread.c:371-404 | A run to a state in which another thread reaps the target of a joiner that has been woken and has not run |
| SchedExamples.FirstJoinerIsStranded | asst1/my_pthread.c:393-404 | There the call strands the first joiner |
| SchedJoin.NewIdIsFree | asst1/my_pthread.c:92-111 | A new thread gets an id below the limit that no thread in the table and no thread that has not exited has |
| SchedInv.CreatedIds | asst1/my_pthread.c:92-111 | Taking an id, new or recycled, keeps the ids in use and the free list a partition of [1, thread_count) |
| SchedInv.ReapedIds | asst1/my_pthread.c:115-123 | Giving back the id of a joined thread keeps the ids in use and the free list a partition of [1, thread_count) |
| SchedLive.LevelAdvances | asst1/my_pthread.c:255-267 | The next level dispatched from is not beyond any non-empty level, counted cyclically, and what lies in between shrinks by its share |
| SchedLive.HandlerAdvances | asst1/my_pthread.c:214-274 | One handler invocation dispatches a queued thread or lowers its bound |
| SchedLive.BoundIsSmall | asst1/my_pthread.c:219-267 | The bound is between 1 and 15(k+1) for the thread at index k |
| SchedLive.DispatchedWithinBound | asst1/my_pthread.c:214-274 | In every run with that many handler invocations the queued thread is dispatched |
| SchedLive.NoStarvation | asst1/my_pthread.c:219-267 | A thread at index k of its ready queue is dispatched within 15(k+1) handler invocations, whatever the threads call and whenever the timer ticks |
| SchedTurns.TurnLasts | asst1/my_pthread.c:219-226 | An active thread at the start of a turn at level c keeps the processor during the first c ticks, and nothing else changes |
| SchedTurns.TurnEnds | asst1/my_pthread.c:219-267 | Tick c + 1 ends the turn, in every state: the thread is at the back of the next level with its interval count reset, and that level is served next |
| SchedTurns.YieldSticks | asst1/my_pthread.c:229-233 | The status yield is never reset: until the thread blocks or exits, no step of any thread changes its status, its level or its interval count |
| SchedTurns.DeadlockReportIsTrueIff | asst1/my_pthread.c:366-368 | Since wait_id is never reset, a join that meets the caller's id there is refused as a deadlock, which it is if and only if that thread is blocked in a join now |
| SchedExamples.StaleWaitIdRefusesJoin | asst1/my_pthread.c:366-368 | A run from initialisation, of ten steps, to a state in which a join is refused as a deadlock although nobody waits for anybody |
| Scheduler.Scheduler.constructor | asst1/my_pthread.c:128-199 | The initial state |
| Scheduler.Scheduler.SelectNext | asst1/my_pthread.c:262-267 | The search over the linked queues terminates and dispatches the head of the first non-empty one; all other queues are untouched |
| Scheduler.Scheduler.Alarm | asst1/my_pthread.c:214-274 | The handler, on the linked queues, is the transition of the state machine, and keeps the invariant where it holds |
| Scheduler.Scheduler.GetId | asst1/my_pthread.c:92-111 | The first of the free list, else the next number: below the limit, and no thread in the table and no thread that has not exited has it |
| Scheduler.Scheduler.Create | asst1/my_pthread.c:283-331 | The transition of the state machine, with the invariant: the new thread has the first free id or the next number, priority 0 and no wait_id, and is last in queue 0 |
| Scheduler.Scheduler.YieldNow | asst1/my_pthread.c:334-338 | Yield with the handler that follows is the transition of the state machine and keeps the invariant |
| Scheduler.Scheduler.ExitNow | asst1/my_pthread.c:343-354 | Exit with the handler that follows is the transition of the state machine and keeps the invariant |
| Scheduler.Scheduler.SomebodyWaitsForMe | asst1/my_pthread.c:370-376 | True if and only if some registered joiner waits for the caller |
| Scheduler.Scheduler.JoinOn | asst1/my_pthread.c:358-410 | OK, EDEADLK, EINVAL or ESRCH, each if and only if its condition on the old fields holds; no change if refused; a target that is done is reaped and its id freed; else the caller is registered and another thread runs |
| Scheduler.Scheduler.AfterJoin | asst1/my_pthread.c:393-410 | The rest of a join that waited is the clean-up transition |
| Scheduler.Scheduler.InitMutex | asst1/my_pthread.c:416-448 | EBUSY if and only if the mutex was in the list, which gains it otherwise while it has room and loses nothing; the wait queue is empty in both cases; an owner stays with EBUSY |
| Scheduler.Scheduler.LockMutex | asst1/my_pthread.c:452-482 | The error returns without change, or the transition of the state machine |
| Scheduler.Scheduler.AfterLock | asst1/my_pthread.c:478 | The rest of a lock that waited is the claim |
| Scheduler.Scheduler.UnlockMutex | asst1/my_pthread.c:487-506 | EPERM without change, or the owner's handoff: the first waiter owns the mutex and is last in the ready queue of its own priority, with nothing else of it changed; without waiters nobody owns it |
| Scheduler.Scheduler.MoveWaiters | asst1/my_pthread.c:540-544 | The drain loop moves every waiter, in order, to the level of its priority, and leaves the wait queue empty |
| Scheduler.Scheduler.DestroyMutex | asst1/my_pthread.c:511-551 | The error returns without change, or the mutex is reset |
| PageTable.PageTable.constructor | asst2/my_pthread.c:123-131 | All descriptors are free and all lists are empty |
| PageTable.PageTable.FindFree | asst2/my_pthread.c:159-174 | The first free descriptors in order, as many as needed; failure if and only if there are fewer |
| PageTable.PageTable.LinkRun | asst2/my_pthread.c:183-202 | The run is linked both ways and `more` is set on all of it but the last; no other descriptor changes |
| PageTable.PageTable.Splice | asst2/my_pthread.c:209-218 | The run is tied to the end of the caller's list |
| PageTable.PageTable.Malloc | asst2/my_pthread.c:134-228 | NULL, without any change, if and only if the free pages hold fewer than size bytes; else the fewest pages that hold them, the first free ones, are appended to the caller's list as one allocation, and the address is the next one of its memory |
| PageTable.PageTable.Find | asst2/my_pthread.c:237-247 | The position of the descriptor in the list, or EINVAL if and only if it is not there |
| PageTable.PageTable.Mark | asst2/my_pthread.c:268-278 | Exactly the pages of the allocation become free, and their number is counted |
| PageTable.PageTable.Free | asst2/my_pthread.c:230-284 | Not in the caller's list: nothing changed; else exactly the pages of that allocation leave the list and become free |
| PageLists.AllocateKeeps | asst2/my_pthread.c:134-228 | An allocation keeps the lists disjoint, acyclic and doubly linked, and together exactly the descriptors that are not free |
| PageLists.ReleaseKeeps | asst2/my_pthread.c:230-284 | So does the release of an interior allocation |
| PageLists.AllocateAdds | asst2/my_pthread.c:134-228 | Read by the `more` flags, the allocations of the caller are the old ones followed by the new one, and those of every other thread are the same |
| PageLists.ReleaseRemoves | asst2/my_pthread.c:230-284 | Read by the `more` flags, exactly one allocation of the caller is gone, and all others of all threads are the same, in order |
| PageLists.PagesConserved | asst2/my_pthread.c:134-284 | Free pages plus the sum of num_pages is 256 |
| PageRuns.EveryRunKeeps | asst2/my_pthread.c:134-284 | In every state of every run of allocations and releases by any threads, the lists are right and the pages conserved |
| PageRuns.NewBytesReached | asst2/my_pthread.c:224 | From the start of its first page on, every byte of a new allocation lies on the page of the run that should hold it |
| PageRuns.ReturnedBytesInsideIff | asst2/my_pthread.c:224 | The returned address is one byte further, so all bytes of the allocation are on its own pages if and only if the size is no multiple of 4096 |
| PageRuns.FreeKeepsAddressIff | asst2/my_pthread.c:230-284 | Releasing an allocation moves the later pages of the thread: an address reaches the same page as before if and only if it lies before the released allocation |
| Paging.PagedMemory.DescriptorOf | asst2/my_pthread.c:69-86 | The search finds the one descriptor whose page is in the frame |
| Paging.PagedMemory.Fault | asst2/my_pthread.c:43-104 | As written, the contents of the two frames change places and every link stays |
| Paging.AsWrittenKeepsPagesIff | asst2/my_pthread.c:95-100 | The handler as written puts the wanted contents in the addressed frame, but keeps the contents of all pages if and only if the two frames held the same |
| Paging.AsWrittenTwiceUndoes | asst2/my_pthread.c:95-100 | A second fault on the same page takes the wanted contents out of the addressed frame again |
| Paging.AsWrittenMixesPages | asst2/my_pthread.c:95-100 | A memory and a fault for which a page loses its contents |
| Paging.PagedMemory.FaultIntended | asst2/my_pthread.c:88-93 | With the links exchanged as the comment says: every page keeps its contents, and the wanted page is in the addressed frame |
| Paging.ExchangeKeepsPages | asst2/my_pthread.c:88-93 | The exchange keeps the contents of every page and the one-to-one correspondence of descriptors and frames |
| Paging.AccessIsPrivate | asst2/my_pthread.c:88-93 | One access, with its fault, acts on the accessing thread's memory as on an array and leaves the memory of every other thread |
| Paging.PagingIsPrivateMemory | asst2/my_pthread.c:88-93 | Over every run of accesses by any threads, each thread's pages hold what its own writes alone would leave |
| Paging.ReadsArePrivate | asst2/my_pthread.c:88-93 | After every run, each read returns what the reader's own memory holds |
| PageRuns.InvFits | asst2/my_pthread.c:134-284 | The lists the allocator keeps are such as paging needs: no shared page, and none longer than the number of frames |

## Left out

File system:

- BlockStore.Store.GetBlock: needs a free block, because the loop counter is a short and never reaches 32768; the ENOMEM path cannot be reached in the source either.
- BlockStore.Store.SetBlockIndex: takes an unmapped index < 1110 and a block. The source also admits 1110, which the getter never finds; storing over a mapped index, which loses its block, and the -1 of line 683, which is left out with that line.
- BlockStore.Store.Write: a write to offsets up to the end is not empty, ends within 1110 blocks and finds enough free blocks. With size 0 at a block boundary the source copies a block into an empty buffer; EFBIG comes only after the store at index 1110.
- BlockStore.Store.ReleaseDirect: line 130 compares the array instead of its entry and is always true; the store to `disk_blocks[-1]` that follows for an unused entry is not modelled.
- BlockStore.Store.FreeInode: not for inode 0, the root.
- BlockStore.Store.Read: offset + size stays below 2^64; else the sum wraps and the request is not cut at the end of the file.
- FileSystem.FileSystem.Write: offsets from the end of the file on; overwriting is covered by `Store.Write` and `FileImage.WriteIsPosixIffAppend`.
- FileSystem.FileSystem.Create: needs a free inode, a free handle, an existing parent directory and room in its one block, by its text and by its st_size, which decides at line 625 whether a second block is taken; the source tests the handle as unsigned, stores to `inode_table[-1]` when there is no inode, and does not check the parent.
- FileSystem.FileSystem.Mkdir: needs the same, but for the handle, and a free block.
- FileSystem.FileSystem.Unlink: not the path of a directory; files that no handle is open on, since the source leaves such a handle on the freed inode; a parent directory whose entry can be removed (`DirRemoval.RemoveEntryIff`) and whose st_size is not 0 at line 665 and does not count a block less at line 681, where the source would store outside its arrays.
- FileSystem.FileSystem.ReadDir: the path is not that of a file, and the st_size of the directory is not 0 at line 1131, where the source would read no block.
- FileSystem.FileSystem.Init: the literal of 9 bytes is written as a whole block; what follows it is arbitrary. The memset and the loop over the tables are one array construction each.
- Paths: absolute, normalised, shorter than 128 bytes and without `%`, which the source passes to sprintf as a format.
- A second block of a directory, and freeing blocks of the parent: st_size is kept as the source keeps it, and the calls that would come to these lines are excluded.
- sfs_rmdir, which leaves the inode allocated because the link count only drops from 2 to 1.
- Modes, owners, timestamps and the access check; logging, FUSE registration and `main`.
- TableBytes.TablesRoundTrip: the layout is that of x86-64 Linux, where the fields of struct stat that the source never stores are 0; modes, owners and times are any values.
- Partial reads and failing writes of the disk file.

Scheduler:

- Timers, signals, contexts and stacks: a tick is a step, and a call is atomic up to its alarm. The window between the check of `done` and the pause of the timer in join is inside one step.
- The calls of class `Scheduler` start in states where the invariant holds; what happens after a second join or a new init of a mutex in use is stated by `SchedLost.LostForever` over the state machine.
- Scheduler.Scheduler.Create: an id below the limit is left; the arrays are not checked in the source. A thread handle stands for a new thread each time.
- Scheduler.Scheduler.Alarm: some thread is ready once the running one is put away; else the search of the source does not end.
- The list of free ids and the tables of threads, joiners and mutexes are sequences and maps.
- Return values of threads, and functions that return without calling pthread_exit.
- Error returns that leave the timer paused.

Pages:

- PageTable.PageTable.Malloc: size > 0; for 0 the source stores outside an empty array. The TID field is not modelled.
- PageTable.PageTable.Free: the allocation is named by its first descriptor, since the returned address never equals a page address; and it lies between two others, since the source dereferences both neighbours.
- Paging.PagedMemory.Fault: the thread owns a page at the position it addresses; else the walk of the source leaves the list. Page protection, which decides when a fault comes, is taken to mean that the wanted page is not in the addressed frame.
- The copy of the scheduler in asst2, `mymalloc.c`, test programs and benchmarks.
