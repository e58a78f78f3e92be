# Xinu: a verified model of five components

A Dafny model of the parts of this Xinu kernel whose correctness depends on
linked structures kept in step with each other. The kernel's records that are
updated in place are classes with arrays, its loops are loops with invariants,
and each operation is proved against functions on plain values about which the
theorems are stated.

* **Local file system** — `LfsLayout` (byte layout), `LfsVolume` (the invariant:
  chains, data blocks, two free lists, what each open file holds in memory),
  `LfsSteps`, `LfsTruncate` (what each disk step keeps), `LfsDisk` (formatting and
  block access), `Lfs` (control blocks and operations), `LfsClient` and
  `LfsSession` (the file system as byte sequences with cursors, over all runs).
* **Demand paging** — `PagingTables` (directories and page tables),
  `PagingPages` (frame table against page tables, backing store, what each
  process last wrote), `PagingFifo`, `PagingStore`, `Paging` (the pager),
  `PagingClient` and `PagingKills` (private memories over all runs).
* **Message ports** — `PortNodes` (the message nodes), `PortSync` (permits,
  grants and incarnations), `PortRun` (the ports as a state machine, over all
  runs), `PortOrder` (turns, capacity and delivery over all runs), `Ports` (the
  calls), `PortClient` (the calls take its steps).
* **Process manager** — `QueueTable`, `Queues` (the table that holds every
  list), `Delays` (the delta list of sleepers), `Processes` (the global
  invariant), `Operations` (each call as a function, and that it keeps the
  invariant), `Kernel` (the calls), and theorems over all runs: `KernelRun`
  (the invariant), `KernelTime` (sleeping), `KernelTurns` (the processor),
  `KernelFrame` and `KernelSems` (semaphores), `KernelMail` (messages, rest,
  priorities). `Arrivals` has what queues in order of arrival share.
* **Heap** — `HeapLists` (free lists and the bytes they stand for), `Memory`
  (the allocator of the kernel and of each process).
* **Two algorithms** — `Qsort` and `Crc32`.

`dafny verify dfyconfig.toml` checks all of it.

## Main results

* `LfsSession.Session`: every run over any number of open files behaves as a
  world of byte sequences with cursors, and `LfsSession.FormatAndUse` gets there
  from a newly formatted disk.
* `PagingClient.DoAll`: paging is invisible over every run without a kill;
  `PagingClient.LostPage` is a run with one kill where it is not.
  `PagingKills.DoActs` covers every run with kills: an access loses its page
  exactly if a frame is free while the page is only in the store
  (`PagingKills.DoAct`), never before the first kill, and up to the first loss
  memories are private (`PagingKills.ReadsLastWritten`).
* `PortRun.RunKeeps`, `PortSync.Conservation`: in every run of sends, receives,
  resets, deletes, creations and kills, cut wherever the processor may change,
  capacity is conserved and messages keep their order. `PortOrder.CapacityIsCount`,
  `PortOrder.LongestFirst`, `PortOrder.SentArrives`: the capacity is the count asked
  for, those who wait are let on in turn, and what is sent arrives.
* `PortRun.NextIncarnationUntouched`: whoever was in a call on a port when a reset
  or delete of it began gets an error and touches nothing, whatever runs in the
  middle of the clearing or after it. `PortClient.DoAll` runs the calls themselves.
* `KernelRun.RunKeeps`, `KernelTime.SleepIsExact`, `KernelTurns.DispatchBound`:
  state and list of every process agree in every run, sleeps end on the tick
  they should, and a ready process that nobody outranks waits its turn only.
* `KernelSems.LongestFirst`, `KernelSems.PermitsConserved`: over every run a
  semaphore serves first come, first served, and lets through as many as it had
  permits and signals. `KernelMail.MailIsLastSent`, `KernelMail.ReceiverIsServed`:
  over every run the message a process finds is the one last sent to it, and nobody
  who waits for one misses it.
* `HeapLists.Unique`, `HeapLists.AnyOrder`, `Memory.Heap.Getmem`: the free list
  is the one canonical form of its set of bytes.
* `Qsort.QSort`, `Crc32.Crc32`: sorted permutation at logarithmic depth; the
  unrolled CRC is the bit-serial one, with the known residue (`Crc32.Residue`).

## Where the code does not do what it is for

Each of these is in the model as the code has it, with the condition under which
it matters.

* `lfsopen` copies the name without advancing its target, so an open file is
  never found to be open (`LfsClient.OpenTwice`).
* `getPFrame` does not reload a saved page into a frame it finds free, which
  happens once a kill has freed one (`Paging.Pager.Load`, `PagingClient.LostPage`).
* The page-fault handler's range test accepts one address too many
  (`PagingTables.AcceptsOneTooMany`).
* A sleep of more than 2^31 ms ends at once (`Delays.LongSleepIsLost`), and a
  timed receive of no time makes everybody behind it lose a tick
  (`Delays.ClockTick`).
* Killing a granted user of a port loses its permit
  (`PortSync.KillGrantedKeeps`, `PortSync.Conservation`).
* A request whose size wraps around when it is rounded up returns a block that is
  still free (`Memory.TakenUnlessHuge`); `freemem` does not look at the end of a
  block (`Memory.Heap.Freemem`, `Memory.FreesBeyondTheEnd`); private heaps count on
  the kernel's counter, which is then wrong exactly if the call succeeded with a
  size that does not round to 0 (`Memory.PrivateHeap.Vgetmem`, `Vfreemem`).
* `newqueue` tests for a full table with `>` where `>=` is meant: of the calls that
  find no room exactly the first is let through, and writes past the table
  (`Queues.FullTest`, `Queues.QueueTab.Newqueue`, `Queues.OneListTooMany`).

## Model

| member | source | states |
|---|---|---|
| `Crc32.ShiftStepLinear` | xinu-fall2018-paging/compile/uboot-tool/crc32.c:65-70 | one shift step distributes over exclusive or, the GF(2) linearity the table rests on |
| `Crc32.ShiftStepsLinear` | xinu-fall2018-paging/compile/uboot-tool/crc32.c:65-70 | any number of shift steps distributes over exclusive or |
| `Crc32.EightSteps` | xinu-fall2018-paging/compile/uboot-tool/crc32.c:65-70 | eight shift steps of a register are the table entry of its low byte combined with the rest moved down by eight bits |
| `Crc32.TableStepIsBitSerial` | xinu-fall2018-paging/compile/uboot-tool/crc32.c:149-149 | one table step on a byte is the bit-serial division by the eight bits of that byte, low bit first |
| `Crc32.AssemblePolynomial` | xinu-fall2018-paging/compile/uboot-tool/crc32.c:51-63 | the polynomial put together from its list of exponents is 0xEDB88320 |
| `Crc32.TableEntry` | xinu-fall2018-paging/compile/uboot-tool/crc32.c:65-70 | the inner loop computes entry n: eight shift steps of n |
| `Crc32.MakeCrcTable` | xinu-fall2018-paging/compile/uboot-tool/crc32.c:51-73 | the table built at run time has the entry of every byte value |
| `Crc32.Do1` | xinu-fall2018-paging/compile/uboot-tool/crc32.c:149-149 | one table look-up and shift is one table step |
| `Crc32.Crc32` | xinu-fall2018-paging/compile/uboot-tool/crc32.c:155-177 | the eight-fold unrolled loop and its tail give the complemented bit-serial CRC of section 8 of RFC 1952, for every start value and byte string |
| `Crc32.CrcConcat` | xinu-fall2018-paging/compile/uboot-tool/crc32.c:155-177 | continuing a CRC over a second part gives the CRC of the two parts put together |
| `Crc32.Residue` | xinu-fall2018-paging/compile/uboot-tool/crc32.c:155-177 | the CRC of any message followed by the four bytes of its own CRC, the low byte first, is 0x2144DF1C |
| `Qsort.Qsexc` | xinu-fall2018-paging/lib/qsort.c:109-124 | exchanging two elements byte by byte swaps them and leaves every other byte alone |
| `Qsort.Qstexc` | xinu-fall2018-paging/lib/qsort.c:126-144 | the three-way exchange moves k to i, i to j and j to k byte by byte, whatever the three places are |
| `Qsort.SwapElements` | xinu-fall2018-paging/lib/qsort.c:109-124 | swapping the bytes of two elements swaps them in the sequence of elements |
| `Qsort.RotateElements` | xinu-fall2018-paging/lib/qsort.c:126-144 | turning the bytes of three elements turns them in the sequence of elements |
| `Qsort.LeftScan` | xinu-fall2018-paging/lib/qsort.c:50-62 | a step of the scan from the left keeps the order less, unknown, equal, unknown, greater |
| `Qsort.RightScanStep` | xinu-fall2018-paging/lib/qsort.c:64-87 | a step of the scan from the right keeps that order |
| `Qsort.BothWrong` | xinu-fall2018-paging/lib/qsort.c:80-83 | exchanging a small and a large element that are both on the wrong side keeps that order |
| `Qsort.LeftLarge` | xinu-fall2018-paging/lib/qsort.c:104-105 | moving the equal part down for a large element keeps that order |
| `Qsort.ScanFromRight` | xinu-fall2018-paging/lib/qsort.c:64-87 | the right-hand scan stops with the order kept and the unknown part smaller |
| `Qsort.Partition` | xinu-fall2018-paging/lib/qsort.c:44-106 | the partition loop ends with all smaller elements in front of, and all larger ones behind, a stretch of elements equal to the pivot; the rest of the array is untouched and the part is permuted |
| `Qsort.PartSorted` | xinu-fall2018-paging/lib/qsort.c:89-102 | sorting one side of a partition leaves the other side still split from it |
| `Qsort.Qs1` | xinu-fall2018-paging/lib/qsort.c:29-107 | the part between the two pointers becomes a sorted permutation of what it was; recursing on the smaller side bounds the depth d by 2^(d-1) <= n |
| `Qsort.QSort` | xinu-fall2018-paging/lib/qsort.c:22-27 | for every length, element size and total preorder the array becomes a sorted permutation of its input, at recursion depth at most floor(log2 n) + 1 |
| `LfsLayout.WordRoundTrip` | xinu-fall2018-paging/include/lfilesys.h:71-90 | a 32-bit word stored as four bytes is read back unchanged |
| `LfsLayout.DecodeEncode` | xinu-fall2018-paging/include/lfilesys.h:71-90 | an index block stored as 72 bytes is read back unchanged |
| `LfsLayout.PutGet` | xinu-fall2018-paging/device/lfs/lfibput.c:23-42 | storing one of the seven index blocks of a sector changes that one and no other |
| `LfsDisk.Lfibget` | xinu-fall2018-paging/device/lfs/lfibget.c:22-30 | reads the index block of the given number out of its sector |
| `LfsDisk.Lfibput` | xinu-fall2018-paging/device/lfs/lfibput.c:23-42 | replaces one index block of a sector by read, change and write; every other index block and sector keeps its contents |
| `LfsDisk.Lfscreate` | xinu-fall2018-paging/device/lfs/lfscreate.c:29-73 | refuses exactly if half the disk does not hold the index blocks asked for; otherwise the disk holds the two free lists of all index blocks and all data sectors and satisfies the file-system invariant with no files |
| `LfsDisk.LeastSectors` | xinu-fall2018-paging/device/lfs/lfscreate.c:34-34 | the sectors set aside hold the index blocks asked for, and one sector less does not |
| `LfsDisk.FormatAndCount` | xinu-fall2018-paging/device/lfs/lfscreate.c:29-73 | on a disk that was formatted the check counts at least the index blocks asked for, fewer than a sector more, and all other sectors as free data sectors; the format is refused exactly if half the disk does not hold them |
| `LfsDisk.Lfsckfmt` | xinu-fall2018-paging/device/lfs/lfsckfmt.c:26-57 | following both free lists on disk visits every free block once and counts them |
| `LfsDisk.EveryBlockOnce` | xinu-fall2018-paging/device/lfs/lfsetup.c:78-112 | in every state each index block is in exactly one place: on the free list, or at one position of one chain; likewise each data sector |
| `LfsDisk.FreshIsOk` | xinu-fall2018-paging/device/lfs/lfscreate.c:49-71 | a freshly formatted disk satisfies the invariant |
| `LfsSteps.FlushData` | xinu-fall2018-paging/device/lfs/lfsetup.c:36-38 | writing the held data block back keeps the invariant and no file changes |
| `LfsSteps.FlushIndex` | xinu-fall2018-paging/device/lfs/lfsetup.c:36-38 | writing the held index block back keeps the invariant and no file changes |
| `LfsSteps.LoadIndex` | xinu-fall2018-paging/device/lfs/lfsetup.c:78-94 | holding another index block of the chain, nothing being unsaved, keeps the invariant |
| `LfsSteps.TakeFirstIndex` | xinu-fall2018-paging/device/lfs/lfsetup.c:45-72 | a free index block becomes the first of an empty chain and leaves the free list |
| `LfsSteps.TakeNextIndex` | xinu-fall2018-paging/device/lfs/lfsetup.c:78-94 | a free index block becomes the last of the chain and leaves the free list |
| `LfsSteps.TakeData` | xinu-fall2018-paging/device/lfs/lfsetup.c:100-119 | a free data sector becomes the last block of the file and leaves the free list |
| `LfsSteps.LoadData` | xinu-fall2018-paging/device/lfs/lfsetup.c:100-119 | holding another data block of the file keeps the invariant |
| `LfsSteps.Poke` | xinu-fall2018-paging/device/lfs/lflputc.c:55-60 | changing the held data block changes that block of that file only |
| `LfsSteps.SavedIsOnDisk` | xinu-fall2018-paging/device/lfs/lfflush.c:24-41 | with nothing unsaved, every byte of the file is found by following the chain on the disk |
| `LfsTruncate.StartTruncating` | xinu-fall2018-paging/device/lfs/lftruncate.c:25-52 | once the directory entry is cleared the other files are as before and the chain is still whole on disk |
| `LfsTruncate.FreeData` | xinu-fall2018-paging/device/lfs/lftruncate.c:54-75 | one data sector moves from the file to the free list, which keeps all its members |
| `LfsTruncate.ClearIndex` | xinu-fall2018-paging/device/lfs/lftruncate.c:76-90 | clearing an index block steps along the chain, which stays apart from the free list until its last link |
| `LfsTruncate.ChainJoins` | xinu-fall2018-paging/device/lfs/lftruncate.c:84-97 | with its last link on the old free list the chain is the front of the new one |
| `LfsTruncate.TruncationDone` | xinu-fall2018-paging/device/lfs/lftruncate.c:54-97 | after the loop the invariant holds with the file empty and its blocks free, none lost and none repeated |
| `Lfs.LocalFs.Lfiballoc` | xinu-fall2018-paging/device/lfs/lfiballoc.c:17-32 | takes the first index block off the free list |
| `Lfs.LocalFs.Lfdballoc` | xinu-fall2018-paging/device/lfs/lfdballoc.c:21-39 | takes the first data sector off the free list and fills the buffer |
| `Lfs.LocalFs.Lfdbfree` | xinu-fall2018-paging/device/lfs/lfdbfree.c:18-24 | puts a data sector at the front of the free list, with the next link in its first word |
| `Lfs.LocalFs.Lfflush` | xinu-fall2018-paging/device/lfs/lfflush.c:24-41 | writes what is unsaved of directory, data block and index block; afterwards nothing is, and the invariant holds |
| `Lfs.LocalFs.WalkChain` | xinu-fall2018-paging/device/lfs/lfsetup.c:78-94 | stepping along the chain ends at the index block of the position; a missing last block is appended |
| `Lfs.LocalFs.Lfsetup` | xinu-fall2018-paging/device/lfs/lfsetup.c:10-122 | the held index and data block become those of the position, appended if the position is at the end; no byte of any file changes |
| `Lfs.LocalFs.Lflputc` | xinu-fall2018-paging/device/lfs/lflputc.c:33-60 | puts the byte at the cursor, overwriting or appending, and advances; refused past the end; every other file keeps its bytes |
| `Lfs.LocalFs.Lflgetc` | xinu-fall2018-paging/device/lfs/lflgetc.c:32-49 | returns the byte at the cursor and advances, or end of file exactly at the end; no byte changes |
| `Lfs.LocalFs.Lflseek` | xinu-fall2018-paging/device/lfs/lflseek.c:27-40 | moves the cursor exactly if the offset is not past the end |
| `Lfs.LocalFs.Lflread` | xinu-fall2018-paging/device/lfs/lflread.c:9-39 | reads as many bytes as asked for or left, end of file if none are left |
| `Lfs.LocalFs.Lflwrite` | xinu-fall2018-paging/device/lfs/lflwrite.c:9-29 | overwrites and extends the file from the cursor on by the whole buffer |
| `Lfs.LocalFs.Lftruncate` | xinu-fall2018-paging/device/lfs/lftruncate.c:25-104 | the file is empty afterwards, its data sectors and its chain are back on the free lists, and every other file keeps its bytes; the cursor moves only if there was something to free |
| `Lfs.LocalFs.Lflclose` | xinu-fall2018-paging/device/lfs/lflclose.c:22-37 | flushes and gives the device up; the bytes are then on the disk |
| `Lfs.LocalFs.Lfsopen` | xinu-fall2018-paging/device/lfs/lfsopen.c:27-179 | succeeds exactly if the name fits, is not taken for open, a device is free and the mode fits the directory; takes the first free device at position 0 of that name, creating an empty file if need be; no file changes |
| `Lfs.Lflcblk.constructor` | xinu-fall2018-paging/include/lfilesys.h:133-158 | a control block that is not in use |
| `LfsClient.Do` | xinu-fall2018-paging/device/lfs/lfsetup.c:36-119 | each operation on an open file is the same operation on a byte sequence with a cursor |
| `LfsClient.OpenTwice` | xinu-fall2018-paging/device/lfs/lfsopen.c:159-163 | because the name copy does not advance its target, any file with a name of its own can be open twice at once |
| `LfsClient.WriteThenRead` | xinu-fall2018-paging/device/lfs/lflwrite.c:9-29 | what was written is read back from where it was written; all other bytes and the length are as they should be |
| `LfsClient.PutThenGet` | xinu-fall2018-paging/device/lfs/lflputc.c:9-60 | the same for one byte |
| `LfsSession.DoCmd` | xinu-fall2018-paging/device/lfs/lfsetup.c:36-119 | an open, a close or an operation on any device is the same step of a world of byte sequences with cursors, and used plus free blocks stay the same number |
| `LfsSession.Session` | xinu-fall2018-paging/device/lfs/lfsetup.c:36-119 | every run of opening, reading, writing, seeking, truncating, closing and reopening any number of files at once gives exactly the answers and bytes of that world |
| `LfsSession.FormatAndUse` | xinu-fall2018-paging/device/lfs/lfscreate.c:29-73 | a disk that is formatted and taken into use begins such a run in the empty world, with all its index blocks and data sectors free |
| `LfsSession.RefusedIs` | xinu-fall2018-paging/device/lfs/lfsopen.c:36-139 | an open is refused for reasons a caller can see: name length, no device, mode, full directory, and the empty name while anything is open |
| `PagingPages.ResidentIffRecorded` | xinu-fall2018-paging/system/pfHandler.c:55-63 | in every state an entry is present with frame f exactly if f is a page frame recorded as that process and page |
| `PagingPages.EvictAgrees` | xinu-fall2018-paging/paging/page.c:191-205 | clearing the present bit of a victim and freeing its frame keeps frame table and page tables in agreement |
| `PagingPages.ClaimAgrees` | xinu-fall2018-paging/system/pfHandler.c:55-63 | recording a page in a free frame and setting its entry keeps them in agreement |
| `PagingPages.KillAgrees` | xinu-fall2018-paging/paging/frame.c:205-238 | releasing a process and its frames keeps them in agreement |
| `PagingPages.StartAgrees` | xinu-fall2018-paging/system/vcreate.c:61-72 | a new process with an empty directory keeps them in agreement |
| `PagingPages.SlotsApart` | xinu-fall2018-paging/paging/bsdent.c:58-98 | no two pages of live processes share a page of the backing store |
| `PagingPages.EvictKeeps` | xinu-fall2018-paging/paging/frame.c:318-372 | evicting a page, saving it if it is dirty, loses no byte that any process wrote |
| `PagingPages.ReloadKeeps` | xinu-fall2018-paging/paging/bsdent.c:101-150 | reloading a saved page gives back every byte its process wrote |
| `PagingPages.StoreKeeps` | xinu-fall2018-paging/system/pfHandler.c:39-63 | a write to a resident page changes what that process last wrote at that address and nothing else |
| `PagingTables.WalkToTable` | xinu-fall2018-paging/paging/page.c:191-205 | following directory and table from a process reaches the process's own page table |
| `PagingTables.WriteThroughWalk` | xinu-fall2018-paging/paging/page.c:191-232 | writing one entry through the directory changes that entry of that process only |
| `PagingTables.KernelIdentity` | xinu-fall2018-paging/paging/page.c:10-94 | every process sees kernel memory mapped to itself |
| `PagingTables.HeapAddress` | xinu-fall2018-paging/system/pfHandler.c:29-63 | an address of the virtual heap splits into directory, table and offset parts that put together give it back |
| `PagingTables.AcceptsOneTooMany` | xinu-fall2018-paging/system/pfHandler.c:29-29 | the handler's range test lets exactly one address too many through, the end of the heap |
| `PagingFifo.UnlinkAt` | xinu-fall2018-paging/paging/frame.c:374-398 | unlinking a frame leaves the doubly linked list of all others in their order |
| `PagingFifo.LinkLast` | xinu-fall2018-paging/paging/frame.c:289-315 | linking a frame at the end leaves the list of the frames before it and that one |
| `PagingFifo.FrontIsOldest` | xinu-fall2018-paging/paging/frame.c:318-372 | the front of the list is the page frame allocated the longest ago |
| `PagingStore.WriteBs` | xinu-fall2018-paging/paging/write_bs.c:3-49 | writing a page as eight disk blocks replaces that page of that store and no other |
| `PagingStore.ReadBs` | xinu-fall2018-paging/paging/read_bs.c:3-50 | reading eight disk blocks returns the page last written there |
| `PagingStore.OpenBs` | xinu-fall2018-paging/paging/open_bs.c:5-29 | counts one more user of an allocated store |
| `PagingStore.CloseBs` | xinu-fall2018-paging/paging/close_bs.c:5-29 | counts one user less of an allocated store |
| `PagingStore.ClaimBs` | xinu-fall2018-paging/paging/get_bs.c:5-33 | opens a store that is not open with the given size |
| `PagingStore.ReleaseBs` | xinu-fall2018-paging/paging/release_bs.c:3-24 | closes a store that is open |
| `PagingStore.AllocateBs` | xinu-fall2018-paging/paging/allocate_bs.c:5-36 | allocates the first usable store, or fails exactly if the size is wrong or none is usable |
| `PagingStore.DeallocateBs` | xinu-fall2018-paging/paging/deallocate_bs.c:5-39 | frees an allocated store without users, and only such a one |
| `Paging.Pager.constructor` | xinu-fall2018-paging/system/initialize.c:199-225 | paging starts with no process, nothing resident and every frame free |
| `Paging.Pager.GetDSFrame` | xinu-fall2018-paging/paging/frame.c:67-89 | takes the first free low frame, or fails exactly if there is none |
| `Paging.Pager.GetPT` | xinu-fall2018-paging/paging/page.c:148-187 | a new page table has no entry present, or an error exactly if no low frame is free |
| `Paging.Pager.GetPD` | xinu-fall2018-paging/paging/page.c:97-145 | a new directory maps the kernel's tables and nothing else, or an error exactly if no low frame is free |
| `Paging.Pager.AddFifo` | xinu-fall2018-paging/paging/frame.c:289-315 | the frame joins the list at its end |
| `Paging.Pager.DeleteFifo` | xinu-fall2018-paging/paging/frame.c:374-398 | the frame leaves the list, all others keep their order |
| `Paging.Pager.UpdatePT` | xinu-fall2018-paging/paging/page.c:191-205 | the victim's entry is no longer present; no other entry changes |
| `Paging.Pager.IsDirty` | xinu-fall2018-paging/paging/page.c:208-232 | returns the victim's dirty bit and clears it; no other entry changes |
| `Paging.Pager.SendBs` | xinu-fall2018-paging/paging/bsdent.c:58-98 | stores the frame's page at its process's place and notes it as present there |
| `Paging.Pager.GetBs` | xinu-fall2018-paging/paging/bsdent.c:101-150 | loads the page if it was saved before, and otherwise changes nothing |
| `Paging.Pager.RemoveFifo` | xinu-fall2018-paging/paging/frame.c:318-372 | evicts the frame at the front of the list, saving the page if it is dirty |
| `Paging.Pager.RemoveRand` | xinu-fall2018-paging/paging/frame.c:241-286 | evicts the frame the random number picks, saving the page if it is dirty |
| `Paging.Pager.GetPFrame` | xinu-fall2018-paging/paging/frame.c:92-181 | gives the page a free frame or the victim's; under FIFO the victim is the oldest resident page and the new one goes last |
| `Paging.Pager.PfHandler` | xinu-fall2018-paging/system/pfHandler.c:5-74 | serves a fault exactly for an address of the heap that is not protected, while the semaphore is free; the page is then resident and what every process last wrote is kept, but for the page named by the lost-page condition |
| `Paging.Pager.NoLoss` | xinu-fall2018-paging/system/pfHandler.c:39-63 | without a kill in the run the lost-page condition never holds |
| `Paging.Pager.Load` | xinu-fall2018-paging/system/pfHandler.c:39-63 | a read, with the fault it may raise, returns the byte the process last wrote there, or, exactly under the lost-page condition, whatever the free frame held |
| `Paging.Pager.Store` | xinu-fall2018-paging/system/pfHandler.c:39-63 | a write, with the fault it may raise, is what that process last wrote there |
| `Paging.Pager.FreeFrames` | xinu-fall2018-paging/paging/frame.c:205-238 | every frame of the process is free, and off the list if it held a page; all others stay |
| `Paging.Pager.RemoveMapping` | xinu-fall2018-paging/paging/bsdent.c:153-184 | the process's store is free and its presence table cleared |
| `Paging.Pager.Kill` | xinu-fall2018-paging/system/kill.c:35-47 | the process's frames are free; its store is usable again unless it is number 0, and all other stores are as they were; nothing any other process wrote is lost |
| `Paging.Pager.EndProcess` | xinu-fall2018-paging/system/kill.c:40-46 | the store of the process is usable again unless it is number 0, and all others are as they were |
| `Paging.Pager.AddMapping` | xinu-fall2018-paging/paging/bsdent.c:29-55 | takes the first usable store with nothing present in it, or fails exactly if there is none |
| `Paging.Pager.Vcreate` | xinu-fall2018-paging/system/vcreate.c:61-72 | starts a process with an empty heap of the given size, or fails exactly for want of a store |
| `PagingClient.Do` | xinu-fall2018-paging/system/pfHandler.c:39-63 | each access or start does what a system of private memories does, with the same refusals |
| `PagingClient.DoAll` | xinu-fall2018-paging/system/pfHandler.c:39-63 | over every run without a kill, under either policy, every read of every process returns its own last write to that address, through any number of evictions and reloads |
| `PagingClient.LostPage` | xinu-fall2018-paging/paging/frame.c:92-181 | a run with one kill after which a read returns another process's byte, because a page given a free frame is not reloaded |
| `PagingClient.LowFrameLeft` | xinu-fall2018-paging/paging/frame.c:67-89 | in a run without kills low frames never run out: at most two per process |
| `PagingKills.DoAct` | xinu-fall2018-paging/system/pfHandler.c:39-63 | each access, start or kill does what it does to private memories; an access loses its page exactly if a frame is free while the page is not resident and is in the store |
| `PagingKills.DoActs` | xinu-fall2018-paging/paging/frame.c:92-181 | over every run with kills, under either policy, every access is served exactly to a running process inside its heap, every read returns the last byte written unless a fault has lost the page, no page is lost before the first kill, and a start of an acceptable size in a free slot is refused exactly if eight stores are held, by running processes or store 0 by a killed one |
| `PagingKills.StoresKilled` | xinu-fall2018-paging/system/kill.c:41-46 | a kill gives one store back, or store 0 stays held |
| `PagingKills.MemoryIsLastWritten` | xinu-fall2018-paging/system/pfHandler.c:39-63 | the memory of a run is the last byte that each process wrote to each address in its present life, as read off the run itself; all of it if nothing was lost |
| `PagingKills.ReadsLastWritten` | xinu-fall2018-paging/system/pfHandler.c:39-63 | in every run with kills, up to the first loss a read returns what its process last wrote there |
| `PagingKills.TableOrFrame` | xinu-fall2018-paging/paging/frame.c:67-89 | in a run with kills and at most 497 starts every process has its page table or finds a low frame for it, although a directory is given back only with its creator |
| `PagingKills.LeafIsChildless` | xinu-fall2018-paging/system/kill.c:35-47 | nobody's directory is charged to a process exactly if every process it started is gone |
| `PagingKills.StartsInStep` | xinu-fall2018-paging/system/initialize.c:199-225 | a new system starts such a run |
| `PortNodes.Deposit` | xinu-fall2018-paging/system/ptsend.c:42-56 | moving a node from the free list to a port's tail keeps all lists well formed and disjoint, and all nodes accounted for |
| `PortNodes.Take` | xinu-fall2018-paging/system/ptrecv.c:36-45 | moving a port's first node to the free list keeps them so |
| `PortNodes.Splice` | xinu-fall2018-paging/system/ptclear.c:27-38 | putting a port's whole queue on the free list keeps them so |
| `PortSync.Conservation` | xinu-fall2018-paging/system/ptsend.c:29-56 | free sender permits, senders granted and not yet done, queued messages and permits lost to killed senders add up to the capacity; receiver permits, receivers granted and permits lost to killed receivers add up to the queued messages |
| `PortSync.GrantIsGood` | xinu-fall2018-paging/system/ptsend.c:29-35 | a granted sender finds room and a granted receiver finds a message |
| `PortSync.SignalPermits` | xinu-fall2018-paging/system/signal.c:26-28 | a signal adds exactly one permit, to the count or to the first waiter |
| `PortSync.LimboMakesStale` | xinu-fall2018-paging/system/ptclear.c:21-24 | everybody blocked on, or granted but not done with, a port that begins to be cleared belongs to an older sequence number from then on |
| `PortRun.StepKeeps` | xinu-fall2018-paging/system/ptsend.c:29-56 | every step of a send, receive, reset, delete, creation or kill keeps all ports in balance and the received messages a prefix of those sent |
| `PortRun.RunKeeps` | xinu-fall2018-paging/system/ptsend.c:29-56 | so does every run |
| `PortRun.RunNumbers` | xinu-fall2018-paging/system/ptclear.c:21-24 | over every run no port's sequence number goes down |
| `PortRun.StepPlaces` | xinu-fall2018-paging/system/ptsend.c:29-35 | no step of another process changes the place of a process in a call, but that it may be granted |
| `PortRun.OutdatedForEver` | xinu-fall2018-paging/system/ptsend.c:29-35 | over every run a process whose port has a higher number than it read stays so until its call ends |
| `PortRun.OutdatedLeaves` | xinu-fall2018-paging/system/ptsend.c:29-35 | such a process returns an error and nothing of any port, semaphore or message changes |
| `PortRun.NextIncarnationUntouched` | xinu-fall2018-paging/system/ptclear.c:19-50 | for every run after a reset or delete of a port began, with its own later steps, creations and other clears in any order, who was in a call on the port then gets an error when it runs on and touches nothing |
| `PortRun.ClearReleases` | xinu-fall2018-paging/system/ptclear.c:40-48 | a clear grants everybody who was blocked on the port, so that they can run on |
| `PortSync.RoomForSender` | xinu-fall2018-paging/system/ptsend.c:37-40 | when a granted sender runs, fewer nodes are queued than all capacities together |
| `PortSync.WaitKeeps` | xinu-fall2018-paging/system/wait.c:29-35 | waiting on either semaphore of a port keeps the port invariant |
| `PortSync.SignalKeeps` | xinu-fall2018-paging/system/signal.c:26-28 | signalling the other semaphore after a deposit or a take keeps it |
| `PortSync.ClearKeeps` | xinu-fall2018-paging/system/ptclear.c:40-48 | releasing one side's waiters by reset or delete keeps it, though released processes may run in between |
| `PortSync.EndKeeps` | xinu-fall2018-paging/system/ptreset.c:10-27 | the cleared port's next incarnation starts in balance |
| `PortSync.CreateKeeps` | xinu-fall2018-paging/system/ptcreate.c:9-46 | a new port starts in balance |
| `PortSync.KillGrantedKeeps` | xinu-fall2018-paging/system/kill.c:51-72 | killing a granted process loses its permit and nothing else |
| `PortSync.KillBlockedKeeps` | xinu-fall2018-paging/system/kill.c:62-68 | killing a blocked process gives its place back |
| `Ports.PortSystem.Ptinit` | xinu-fall2018-paging/system/ptinit.c:13-45 | all ports are free and all nodes are on the free list |
| `Ports.PortSystem.Ptsend` | xinu-fall2018-paging/system/ptsend.c:9-59 | up to its wait: refused, blocked, or deposited as the last message of the port, with the first waiting receiver granted; the new state is the step Send of the state machine |
| `Ports.PortSystem.FinishSend` | xinu-fall2018-paging/system/ptsend.c:29-56 | after its wait: an error exactly if the port is another incarnation by now; a panic exactly if no node is free; otherwise its message is the last one sent and the first waiting receiver is granted, and nothing else changes |
| `Ports.PortSystem.Ptrecv` | xinu-fall2018-paging/system/ptrecv.c:9-48 | up to its wait: refused, blocked, or the first message sent and not yet received, with the first waiting sender granted; the new state is the step Recv |
| `Ports.PortSystem.FinishRecv` | xinu-fall2018-paging/system/ptrecv.c:28-45 | after its wait: an error exactly if the port is another incarnation by now; otherwise the first message sent and not yet received, with the first waiting sender granted, and nothing else changes |
| `Ports.PortSystem.BeginClear` | xinu-fall2018-paging/system/ptclear.c:21-24 | the port is in limbo under a new sequence number |
| `Ports.PortSystem.ClearSenders` | xinu-fall2018-paging/system/ptclear.c:27-42 | every queued message is handed to the disposal function in the order sent, the nodes are free, and all waiting senders are released |
| `Ports.PortSystem.ClearReceivers` | xinu-fall2018-paging/system/ptclear.c:43-48 | all waiting receivers are released |
| `Ports.PortSystem.EndClear` | xinu-fall2018-paging/system/ptdelete.c:9-27 | the port is free, or open again with its full capacity |
| `Ports.PortSystem.Ptcreate` | xinu-fall2018-paging/system/ptcreate.c:9-46 | takes the first free port and two free semaphores, one with as many permits as messages were asked for and one with none, and leaves all other ports as they were; or fails exactly if there is no port or the count is negative |
| `Ports.PortSystem.KillUser` | xinu-fall2018-paging/system/kill.c:51-72 | a killed user of a port is gone, its place given back or its permit lost |
| `Ports.PortSystem.Semreset` | xinu-fall2018-paging/system/semreset.c:27-32 | all waiters are granted and the count is the new one |
| `Ports.PortSystem.Semdelete` | xinu-fall2018-paging/system/semdelete.c:27-33 | all waiters are granted and the semaphore is free |
| `Ports.PortSystem.InOrder` | xinu-fall2018-paging/system/ptrecv.c:36-45 | in every state the messages received are a prefix of those sent, and the rest is what is queued, in order |
| `Ports.PortSystem.NodesConserved` | xinu-fall2018-paging/system/ptsend.c:42-56 | nodes on the free list and on all ports are constant |
| `Ports.PortSystem.NeverPanics` | xinu-fall2018-paging/system/ptsend.c:37-40 | with no more capacity than nodes a sender never finds the free list empty |
| `Ports.PortSystem.InOrderNow` | xinu-fall2018-paging/system/ptinit.c:13-45 | every state of the calls is one from which the theorems about runs hold |
| `PortClient.Do` | xinu-fall2018-paging/system/ptsend.c:9-59 | one call, or part of one up to where the processor may change, is one step of the state machine |
| `PortClient.DoAll` | xinu-fall2018-paging/system/ptclear.c:11-50 | any calls by any processes in any order are a run of the state machine |
| `PortOrder.StepQueue` | xinu-fall2018-paging/system/wait.c:29-36 | no step changes the order of those who wait on a port, and who comes is last |
| `PortOrder.LongestFirst` | xinu-fall2018-paging/system/wait.c:29-36 | over every run the senders, and the receivers, that wait on a port stand in the order in which they began to wait |
| `PortOrder.LetOnInTurn` | xinu-fall2018-paging/system/signal.c:26-28 | who is let on came before everybody who still waits on the same side |
| `PortOrder.SentArrives` | xinu-fall2018-paging/system/ptsend.c:29-56 | the message of a send is the last one of the port when the send is done, at once or after a wait with any run in between |
| `PortOrder.CapacityIsCount` | xinu-fall2018-paging/system/ptcreate.c:33-42 | over every run from the creation of a port to its first clear, permits, senders let on, lost permits and queued messages add up to the count asked for, and a send blocks exactly if the last three use it up |
| `PortOrder.NewPortTakes` | xinu-fall2018-paging/system/ptcreate.c:33-42 | a new port takes as many messages as it was made for without a receive, if there are nodes for them, and the next sender waits |
| `PortOrder.ResetRestores` | xinu-fall2018-paging/system/ptclear.c:19-49 | a reset that nothing interrupts leaves the port open, empty, with nobody waiting and with all the permits of its table entry |
| `PortOrder.NewEntry` | xinu-fall2018-paging/system/ptcreate.c:39-39 | the capacity in the table entry is the count modulo 2^16 |
| `QueueTable.QueuesInsert` | xinu-fall2018-paging/system/insert.c:22-34 | linking a process between two neighbours leaves all lists in queuetab well formed and disjoint |
| `QueueTable.QueuesRemove` | xinu-fall2018-paging/system/getitem.c:47-58 | unlinking a process leaves them so |
| `Queues.KeyPlaceOrders` | xinu-fall2018-paging/system/insert.c:22-34 | the place insert finds is behind every key not smaller and before a smaller one |
| `Queues.QueueTab.constructor` | xinu-fall2018-paging/system/queue.c:5-5 | an empty table |
| `Queues.QueueTab.Enqueue` | xinu-fall2018-paging/system/queue.c:11-30 | the process joins the list at its tail; all other lists stay; a bad queue or process is an error |
| `Queues.QueueTab.Dequeue` | xinu-fall2018-paging/system/queue.c:36-52 | the first process leaves the list, or EMPTY exactly if there is none; a bad queue is an error |
| `Queues.QueueTab.Getfirst` | xinu-fall2018-paging/system/getitem.c:9-22 | the first process leaves the list, or EMPTY exactly if there is none |
| `Queues.QueueTab.Getlast` | xinu-fall2018-paging/system/getitem.c:28-41 | the last process leaves the list, or EMPTY exactly if there is none |
| `Queues.QueueTab.Getitem` | xinu-fall2018-paging/system/getitem.c:47-58 | the process leaves whatever list it is on; all other lists stay |
| `Queues.QueueTab.Insert` | xinu-fall2018-paging/system/insert.c:9-36 | the process joins behind every key not smaller than its own; the scan stops at the tail's least key; a bad queue or process is an error |
| `Queues.QueueTab.Insertd` | xinu-fall2018-paging/system/insertd.c:9-42 | the process joins the delta list at the place of its delay, with what is left of it, and the next delta is less by that; a bad queue or process is an error |
| `Queues.QueueTab.Newqueue` | xinu-fall2018-paging/system/newqueue.c:9-30 | a new empty list exactly if there is room; otherwise the first such call writes outside the table and the later ones are refused |
| `Queues.FullTest` | xinu-fall2018-paging/system/newqueue.c:14-17 | the test admits a list whose two entries are not both in the table exactly if it begins at the table's end, which is so exactly after 2 + NSEM lists |
| `Queues.OneListTooMany` | xinu-fall2018-paging/system/newqueue.c:9-30 | a run of calls in which 2 + NSEM lists are made, the next call writes outside and the one after it is refused |
| `Queues.QueueTab.Firstid` | xinu-fall2018-paging/include/queue.h:25-32 | the first process, or the tail of an empty list |
| `Delays.InsertdTimes` | xinu-fall2018-paging/system/insertd.c:22-39 | inserting a delay of at most 31 bits gives the process that remaining time and leaves every other as it was |
| `Delays.UnsleepTimes` | xinu-fall2018-paging/system/unsleep.c:39-44 | removing a process leaves every other remaining time as it was |
| `Delays.TickTimes` | xinu-fall2018-paging/system/clkhandler.c:28-36 | a tick lowers every remaining time by one |
| `Delays.WakeupTimes` | xinu-fall2018-paging/system/wakeup.c:13-18 | exactly the processes with no time left are taken off |
| `Delays.ClockTick` | xinu-fall2018-paging/system/clkhandler.c:28-36 | with a positive first delta exactly those with one tick left are woken and the others lose one; with a first delta of zero, left by a timed receive of no time, the tick is lost for all others |
| `Delays.LongSleepIsLost` | xinu-fall2018-paging/system/sleep.c:26-50 | a sleep of more than 2^31 ms becomes negative and ends at the next tick |
| `Processes.StateIsList` | xinu-fall2018-paging/system/resched.c:11-53 | in every state a process is READY exactly if on the ready list, WAIT exactly if on the queue of the semaphore it recorded, SLEEP or RECTIM exactly if on the sleep queue, CURR exactly if current, and otherwise on no list |
| `Processes.CountIsWaiters` | xinu-fall2018-paging/system/wait.c:29-35 | in every state a negative count is exactly the number of waiters, all of whom recorded that semaphore, and otherwise there are none |
| `Processes.PutReadyKeeps` | xinu-fall2018-paging/system/ready.c:22-26 | making a process ready keeps the global invariant |
| `Processes.BlockKeeps` | xinu-fall2018-paging/system/wait.c:29-35 | blocking the current process on a semaphore keeps it |
| `Processes.LeaveSemKeeps` | xinu-fall2018-paging/system/kill.c:62-68 | taking a waiter off with its count given back keeps it |
| `Processes.LeaveSleepKeeps` | xinu-fall2018-paging/system/unsleep.c:39-44 | taking a sleeper off keeps it, and every other remaining time |
| `Processes.SleepsKeeps` | xinu-fall2018-paging/system/insertd.c:22-39 | putting a process to sleep keeps it, and every other remaining time |
| `Processes.ReschedKeeps` | xinu-fall2018-paging/system/resched.c:18-43 | a reschedule keeps it; unless put off, nobody ready outranks the current process afterwards |
| `Processes.DeferStopKeeps` | xinu-fall2018-paging/system/resched.c:72-79 | ending a deferral keeps it, with the reschedule that was put off |
| `Operations.SignalsInOrder` | xinu-fall2018-paging/system/signaln.c:29-33 | n signals release the first n waiters in the order they came, add n to the count, and touch nobody else |
| `Operations.ReleasesAll` | xinu-fall2018-paging/system/semreset.c:27-32 | emptying a semaphore's queue readies every waiter and nobody else |
| `Operations.FirstLeaves` | xinu-fall2018-paging/system/signal.c:26-28 | with a negative count there is a first waiter: the release loops never dequeue from an empty queue |
| `Kernel.Xinu.constructor` | xinu-fall2018-paging/system/initialize.c:140-190 | after initialization only the null process exists, and it runs |
| `Kernel.Xinu.Resched` | xinu-fall2018-paging/system/resched.c:11-53 | notes the attempt while put off; keeps a current process above all ready ones; otherwise runs the first ready process, after its equals |
| `Kernel.Xinu.ReschedCntl` | xinu-fall2018-paging/system/resched.c:59-84 | starts a deferral, or ends it with the reschedule that was attempted |
| `Kernel.Xinu.Ready` | xinu-fall2018-paging/system/ready.c:11-29 | the process joins the ready list behind its equals, and a reschedule follows |
| `Kernel.Xinu.Yield` | xinu-fall2018-paging/system/yield.c:9-17 | a reschedule |
| `Kernel.Xinu.Wait` | xinu-fall2018-paging/system/wait.c:9-39 | one off the count; the caller joins the queue's end if the count is negative; an error exactly for a bad or free semaphore |
| `Kernel.Xinu.Signal` | xinu-fall2018-paging/system/signal.c:9-31 | one on the count, and the first waiter, if any, made ready |
| `Kernel.Xinu.Signaln` | xinu-fall2018-paging/system/signaln.c:9-37 | as that many signals, with one reschedule at the end |
| `Kernel.Xinu.Semreset` | xinu-fall2018-paging/system/semreset.c:9-35 | all waiters made ready, then the new count, then one reschedule |
| `Kernel.Xinu.Semdelete` | xinu-fall2018-paging/system/semdelete.c:9-36 | all waiters made ready and the semaphore free, then one reschedule |
| `Kernel.Xinu.Newsem` | xinu-fall2018-paging/system/semcreate.c:34-50 | the next free entry in turn, or an error exactly if there is none |
| `Kernel.Xinu.Semcreate` | xinu-fall2018-paging/system/semcreate.c:11-28 | a new semaphore with the given count |
| `Kernel.Xinu.Sleepms` | xinu-fall2018-paging/system/sleep.c:26-50 | no delay yields; otherwise the caller sleeps that many ticks |
| `Kernel.Xinu.RecvtimeStart` | xinu-fall2018-paging/system/recvtime.c:9-32 | sleeps for the time unless a message is there; an error exactly for a negative time |
| `Kernel.Xinu.RecvtimeFinish` | xinu-fall2018-paging/system/recvtime.c:34-43 | the message, or TIMEOUT exactly if there is none |
| `Kernel.Xinu.ReceiveStart` | xinu-fall2018-paging/system/receive.c:9-20 | blocks unless a message is there |
| `Kernel.Xinu.ReceiveFinish` | xinu-fall2018-paging/system/receive.c:21-25 | takes the message |
| `Kernel.Xinu.Send` | xinu-fall2018-paging/system/send.c:9-41 | delivers and wakes a receiver; an error exactly for a bad or free process or one that has a message |
| `Kernel.Xinu.UnsleepProc` | xinu-fall2018-paging/system/unsleep.c:11-47 | the sleeper leaves and its delta goes to the next; an error exactly if it does not sleep |
| `Kernel.Xinu.Suspend` | xinu-fall2018-paging/system/suspend.c:9-41 | suspends a current or ready process other than the null process |
| `Kernel.Xinu.Resume` | xinu-fall2018-paging/system/resume.c:9-31 | makes a suspended process ready |
| `Kernel.Xinu.KillStart` | xinu-fall2018-paging/system/kill.c:9-30 | refuses a bad, free or null process; otherwise tells the parent |
| `Kernel.Xinu.KillFinish` | xinu-fall2018-paging/system/kill.c:51-72 | the process leaves whatever list it is on by then, its semaphore's count given back, and is free |
| `Kernel.Xinu.Newpid` | xinu-fall2018-paging/system/create.c:116-133 | a free entry, or an error exactly if there is none |
| `Kernel.Xinu.Create` | xinu-fall2018-paging/system/create.c:13-54 | a new suspended process, or an error exactly for a priority below 1 or a full table |
| `Kernel.Xinu.Clkhandler` | xinu-fall2018-paging/system/clkhandler.c:9-36 | one tick: milliseconds and seconds count on, and sleepers whose time is over are woken |
| `Kernel.Xinu.EndOfSlice` | xinu-fall2018-paging/system/clkhandler.c:38-45 | a reschedule every QUANTUM ticks |
| `Kernel.Xinu.Wakeup` | xinu-fall2018-paging/system/wakeup.c:7-20 | every sleeper with no time left becomes ready, with one reschedule at the end |
| `KernelRun.ApplyKeeps` | xinu-fall2018-paging/system/resched.c:11-53 | every call of every process keeps the global invariant |
| `KernelRun.RunKeeps` | xinu-fall2018-paging/system/resched.c:11-53 | so does every run |
| `KernelRun.ApplySplits` | xinu-fall2018-paging/system/resched.c:59-84 | every call is a first half and at most one reschedule |
| `KernelTime.TickRem` | xinu-fall2018-paging/system/clkhandler.c:28-36 | a tick readies exactly the sleepers with one tick left, and takes one from every other |
| `KernelTime.ApplyRem` | xinu-fall2018-paging/system/insertd.c:22-39 | every call changes the map of remaining times as it should and no other way |
| `KernelTime.SleepIsExact` | xinu-fall2018-paging/system/clkhandler.c:28-36 | over any run without a timed receive of no time, a process with t ticks to go sleeps on through fewer than t ticks and is readied on exactly the t-th, unless it is removed first |
| `KernelTurns.TurnTaken` | xinu-fall2018-paging/system/resched.c:18-43 | a reschedule that is not put off moves a ready process that nobody outranks one place on, or lets it run |
| `KernelTurns.PrepHeld` | xinu-fall2018-paging/system/insert.c:22-34 | before its reschedule no call lets an equal or lower process get ahead of a ready one |
| `KernelTurns.DispatchBound` | xinu-fall2018-paging/system/resched.c:18-43 | a ready process with k others ahead of it runs within k + 1 reschedules that are not put off, while nobody outranks it |
| `KernelSems.ApplyLine` | xinu-fall2018-paging/system/wait.c:29-36 | what every call makes of every semaphore: a wait takes one off the count and makes its caller the last to wait if there was none; signals add to it and release those in front; reset and delete release all; a kill gives a waiter's place back; nothing else touches count or order |
| `KernelSems.LongestFirst` | xinu-fall2018-paging/system/wait.c:29-36 | over every run those who wait on a semaphore stand in the order in which they began to wait |
| `KernelSems.SignalsReleaseLongest` | xinu-fall2018-paging/system/signal.c:26-28 | who is released by signal or signaln has waited longer than everybody who still waits |
| `KernelSems.SignalsRelease` | xinu-fall2018-paging/system/signaln.c:28-33 | as many are released as there are signals, or all, and they are ready or run |
| `KernelSems.CallerWaits` | xinu-fall2018-paging/system/wait.c:29-36 | a wait keeps its caller exactly if the count is not above zero |
| `KernelSems.CountOverRun` | xinu-fall2018-paging/system/signal.c:26-28 | over every run without reset, delete or creation the count is the one before, plus the signals, minus the waits, plus the waiters killed |
| `KernelSems.PermitsConserved` | xinu-fall2018-paging/system/wait.c:29-36 | over every such run the waits that got through and the permits left add up to the permits there were and the signals |
| `KernelMail.ApplyMail` | xinu-fall2018-paging/system/send.c:23-39 | only an accepted send gives a process its message, the one sent, and only its own receive or a new process in its place takes it |
| `KernelMail.MailIsLastSent` | xinu-fall2018-paging/system/receive.c:15-25 | in every state of every run the message of a process is the argument of the last send accepted for it and not yet taken, as read off the calls |
| `KernelMail.MailStays` | xinu-fall2018-paging/system/send.c:23-29 | a message stays as it is through every run in which its process does not take it |
| `KernelMail.SentIsReceived` | xinu-fall2018-paging/system/send.c:28-29 | what an accepted send sends is what the process then finds, whatever runs in between |
| `KernelMail.ReceiverIsServed` | xinu-fall2018-paging/system/receive.c:16-20 | over every run a process that waits for a message goes on only when it has one |
| `KernelMail.RestStays` | xinu-fall2018-paging/system/resched.c:11-53 | a process at rest stays so unless a call names it |
| `KernelMail.SuspendedStays` | xinu-fall2018-paging/system/suspend.c:28-38 | over every run a suspended process, a new one among them, neither runs nor is ready until it is resumed or killed |
| `KernelMail.NamedState` | xinu-fall2018-paging/system/kill.c:51-72 | killed is free, suspended at rest, resumed or given its message at work |
| `KernelMail.PriorityIsCreated` | xinu-fall2018-paging/system/create.c:45-46 | over every run a process has the priority it was created with |
| `HeapLists.FitsIffRun` | xinu-fall2018-paging/system/getmem.c:24-47 | there is a block that is big enough exactly if that many contiguous bytes are free |
| `HeapLists.LowestAndHighest` | xinu-fall2018-paging/system/getmem.c:24-47 | first fit finds the lowest run of free bytes that is long enough, last fit the highest |
| `HeapLists.TakenBottom` | xinu-fall2018-paging/system/getmem.c:34-42 | taking bytes off a block keeps the list sorted, disjoint, coalesced and in 8-byte units; exactly those bytes are no longer free; the sizes add up |
| `HeapLists.TakenTop` | xinu-fall2018-paging/system/getstk.c:43-51 | the same at the top of a block |
| `HeapLists.RejectsIffOverlaps` | xinu-fall2018-paging/system/freemem.c:43-49 | a block is rejected exactly if it overlaps a free one |
| `HeapLists.Released` | xinu-fall2018-paging/system/freemem.c:51-67 | releasing keeps the list in that form; exactly those bytes become free; the sizes add up |
| `HeapLists.Unique` | xinu-fall2018-paging/system/freemem.c:51-67 | a list in that form is determined by its set of free bytes |
| `HeapLists.GetThenFree` | xinu-fall2018-paging/system/freemem.c:28-67 | freemem after getmem restores the identical list |
| `HeapLists.StkThenFree` | xinu-fall2018-paging/include/memory.h:16-19 | freestk after getstk restores the identical list |
| `HeapLists.AnyOrder` | xinu-fall2018-paging/system/freemem.c:51-67 | freeing any set of blocks gives the same list in any order |
| `Memory.Heap.constructor` | xinu-fall2018-paging/system/meminit.c:62-85 | all of the heap is one free block |
| `Memory.Heap.Getmem` | xinu-fall2018-paging/system/getmem.c:9-50 | takes the bottom of the first block that fits; fails exactly if no such run of bytes is free; the counter stays the number of free bytes |
| `Memory.Heap.Getstk` | xinu-fall2018-paging/system/getstk.c:9-52 | takes the top of the last block that fits; fails exactly if no such run of bytes is free; the counter stays right |
| `Memory.Heap.Freemem` | xinu-fall2018-paging/system/freemem.c:9-70 | accepts a block that starts in the heap exactly if it overlaps no free one, and leaves the coalesced list, which is in bounds exactly if the block is; the counter stays right |
| `Memory.Heap.Freestk` | xinu-fall2018-paging/include/memory.h:16-19 | gives back what getstk took, with the same conditions |
| `Memory.PrivateHeap.constructor` | xinu-fall2018-paging/system/vcreate.c:61-65 | a private heap whose first node is not yet written |
| `Memory.PrivateHeap.Vgetmem` | xinu-fall2018-paging/system/vgetmem.c:8-60 | as getmem on the private heap, the first request included; it is the kernel's counter that changes, and it stays right exactly if the request fails or rounds to 0 |
| `Memory.PrivateHeap.Vfreemem` | xinu-fall2018-paging/system/vfreemem.c:8-69 | as freemem on the private heap; it is the kernel's counter that changes, and it stays right exactly if the release fails or rounds to 0 |
| `Memory.TakenUnlessHuge` | xinu-fall2018-paging/system/getmem.c:22-47 | the block returned is off the free list exactly if rounding up its size does not wrap around |
| `Memory.FreeBounds` | xinu-fall2018-paging/system/freemem.c:19-24 | an accepted block leaves the free list within the heap exactly if its end is within it, which the code does not look at |
| `Memory.FreesBeyondTheEnd` | xinu-fall2018-paging/system/freemem.c:19-24 | with nothing free, a block at the very end of the heap is accepted |
| `Memory.CounterOff` | xinu-fall2018-paging/system/vgetmem.c:39-39 | a counter that was right for any list of the kernel is right after n bytes were taken from or added to it exactly if n is 0 |

## Left out

- Lfs.LocalFs.Lfsopen: leaves it to the caller that a file is open at most once, because the test in the code does not see to it; the run theorem states that as a condition on the run.
- Lfs.LocalFs.Lflputc: an empty free list is a panic in the code and a precondition here; the run theorem turns it into a condition on file sizes.
- Lfs.LocalFs.Lflclose: the mutexes and the copying of the directory sector between memory and disk as bytes; the directory is a record.
- LfsDisk.Lfscreate: with no data sector left its loop counts an unsigned number down past zero; at least one is required where the size is not refused.
- LfsSession.Session: names with an embedded zero byte, and the parsing of the mode string, of which only the letters for old and new matter here.
- Paging.Pager.PfHandler: one fault at a time; after a refused fault the code leaves its semaphore taken, so every later fault waits, which the contract states by the semaphore's count; the end address of the heap is excluded by precondition.
- Paging.Pager.RemoveRand: the random number is a parameter.
- Paging.Pager.Kill: a process with living children is excluded, because their directories are charged to it; store 0 is not freed by a kill, because of the test for a null store.
- PagingKills.DoActs: a kill of a process with living children, and a start once 497 have been tried, are not carried out; the second is cautious, since frames may still be free then.
- Paging.Pager.Vcreate: a failure to get a directory is not looked at in the code; a free low frame is required.
- Paging.Pager.GetPFrame: the statistics, the page-server status, and policies other than FIFO and random.
- PortSync.Conservation: sequence numbers are unbounded, so that an old one does not come back after 2^32 resets; capacities of 65536 or more are cut to 16 bits as in the code.
- Ports.PortSystem.EndClear: killing a process in the middle of clearing a port.
- Ports.PortSystem.Ptcreate: semaphores of other users of the semaphore table.
- Kernel.Xinu.Sleepms: delays of 2^31 ms and more are excluded; what they do is stated by Delays.LongSleepIsLost, except exactly 2^31, where a signed overflow is not defined.
- Kernel.Xinu.Wait: the null process never blocks, and nobody blocks while rescheduling is put off, as everywhere in this module.
- Kernel.Xinu.KillFinish: closing descriptors, freeing the stack, and the semaphore around the paging part, which are calls of their own between the two halves; the count of processes and what happens when the last one ends.
- Kernel.Xinu.Create: the stack and its contents; priorities do not change afterwards, since chprio is not part of this model.
- Kernel.Xinu.Clkhandler: the rest of the handler after the wake-up is EndOfSlice, because the processor may go to another process in between.
- Queues.QueueTab.Newqueue: the call that writes past the table ends with the outcome Outside before it writes; what lies behind the table is not part of this model.
- Queues.QueueTab.Enqueue: an entry number that passes isbadqid without being the head of a list is excluded; likewise in Dequeue, Insert and Insertd.
- Memory.Heap.Freemem: a block whose end wraps around the address space is excluded by precondition, and the calls after one that left the list out of bounds; likewise in Freestk and Vfreemem.
- Memory.Heap.constructor: the size of the heap is a multiple of 8, which meminit does not see to.
- Memory.PrivateHeap.constructor: processes made by create have no private heap; a request of theirs follows a null pointer.
- Qsort.QSort: the comparator is a function on the bytes of two elements, without effects.
- Crc32.MakeCrcTable: the literal table that is used when tables are not built at run time.
- Interrupt masks, context switches as machine code, and the translation look-aside buffer: a call is one step up to each reschedule.
- The remote disk, its server and its cache: the disk returns what was last written.
- Crash consistency of the file system, and zero-filling of fresh pages, which the code does not do.
- The network stack, the terminal driver, the shell, formatted input and output, string helpers and tools: input and output plumbing with easier properties.
