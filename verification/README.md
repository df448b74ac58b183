# HVF model

HVF is a bare-metal hypervisor for z/Architecture written in C. This Dafny project models its
stateful parts and proves what they keep over every run:

- the EDF file system: the installer, which writes a volume, against the hypervisor's reader, which
  is separate code (`Edf*.dfy`, `SaveFile.dfy`, `Unload.dfy`);
- spool files, a queue of variable-length records packed into pages (`Spool.dfy`);
- tasks, the run queue and mutexes under timer preemption (`RunQueue.dfy`, `Mutex.dfy`, `MutexCalls.dfy`,
  `Places.dfy`, `LostTasks.dfy`), and the operations queued on an I/O device (`IoQueue.dfy`);
- the page allocator, slab caches, guest address spaces and guest storage (`Buddy.dfy`, `Slab.dfy`,
  `Storage.dfy`);
- the clock's calendar, SHA-1 in pieces, cpio archives on cards, formatted output (`Clock.dfy`,
  `Digest.dfy`, `Cpio.dfy`, `Format.dfy`, `FormatText.dfy`);
- a guest's subchannels and I/O interrupts (`Subchannel.dfy`).

`dafny verify dfyconfig.toml` checks everything.

## How to read it

Code that changes its state step by step is a class or a method with loops, specified by functions
and predicates on values; the lemmas about those values are the results. `ghost` fields record
history (the records given to a file, the order in which tasks were queued) so that a property of
every run is a property that every operation keeps.

Main results:

- **Volume.** Any sequence of `CreateFile` and `AppendRecord` keeps `Installer.Valid`, whatever the
  block size and number of pointer levels. Once `WritebackBuffers` has run, a reader that knows
  nothing but the disk and where its directory starts finds every file by name, each of its blocks
  through the pointer tree, and its records (`EdfReader.InstalledReadsBack`). Reads through the
  cache give what reads without it give (`EdfReader.File.Read`). From punched cards to the reader:
  every archive member the installer's table selects is found under its name with its contents
  (`Unload.UnloadVolume`, `Unload.UnloadedReadsBack`).
- **Spool.** Appends and grabs refine a queue of byte strings; the page chain parses to that queue in
  only one way.
- **Mutex.** Where no lock protects them the steps are single loads and stores, the run queue is the
  linked list it is, and the timer may come between any two steps. Over every run from the initial state each live task is in
  exactly one place all the time if and only if the run has no bad step (`Places.EveryRun`). There are
  three kinds: the timer takes the CPU from a task between queueing itself on a mutex and blocking;
  from a task between the first and the last store of `list_add_tail()` on the run queue; or that
  function stores with an end of the list that was read before the CPU was lost and is not the end
  any more. Without a bad step lock word and holders add up to one, nobody nobody is overtaken and no wakeup
  is lost. Runs are given that end with a task queued twice, and with every task lost for ever.
- **Storage.** Free blocks and live allocations partition the pages at all times, and every allocation
  leaves exactly the lists that splitting its block gives. Every table fits the pages allocated for it;
  no two guests share a page frame, and none that a guest can reach holds any part of a table.

### Where the code is not what was meant

Some expressions in the source differ from what the code around them needs. They are modelled as
written and as meant: `Coding` selects one, and for the code as written a lemma says exactly when it
works.

| source | as written | works exactly when | shown by |
|---|---|---|---|
| `installer/edf.c:355-357` | slot `n % P - 1`, which is -1 for every P-th block | the file has at most P - 1 data blocks (3 if P is 2), on zeroed pointer blocks | `EdfReader.AsWrittenReadable` |
| `cp/fs/spool.c:230` | copies from `buf-copied+2` | the record is copied in one piece | `Spool.AsWrittenStores` |
| `cp/mm/slab.c:98` | bitmap of `(count+4)/8` bytes | `count % 8` is 0 or more than 3, or alignment adds a byte | `Slab.BitmapApart` |
| `lib/string.c:53` | `strncmp()` compares one character | no member before the trailer has a ten-character name starting with T | `Cpio.AsWrittenReads` |
| `cp/mm/buddy.c:99-100` | looks past the 19 lists of low storage | a low request is for order 18 or less; a request for any storage finds a block of some order from its own to 18 in either zone, or above 2GB a block of the first order from 19 on | `Buddy.BeyondIff` |
| `cp/mm/buddy.c:51-63` | low storage has no list for order 19 | some storage below 2GB is reserved, or there is less than 2GB | `Buddy.PageAllocator.constructor` |
| `cp/nucleus/mutex.c:20-24`, `include/list.h:46-49` | the timer may switch tasks between queueing and blocking, and inside an insertion into the run queue | it does not switch there, and no insertion goes on with an end that is out of date | `Places.OnePlaceIff`, `Places.EveryRun`, `LostTasks.QueuedTwice`, `LostTasks.AllLost` |

## Model

| member | source | states |
|---|---|---|
| Words.WordAfterPut | installer/edf.c:357 | Storing a big-endian pointer in a block changes that pointer and no other. |
| Words.WordIs | cp/include/edf.h:68-73 | The value of a 32-bit field by its four bytes, the first counting most. |
| Bitmap.WithDigitIsMask | installer/edf.c:310 | Setting or clearing one binary digit adds or subtracts exactly its mask, or nothing if it was so already. |
| Bitmap.BitIs | installer/edf.c:295-302 | Bit k of a byte is set exactly when the byte divided by 2^(7-k) is odd: bit 0 is 0x80, bit 7 is 1. |
| Bitmap.WithBitIs | installer/edf.c:310 | Setting a clear bit k adds 2^(7-k), clearing a set one subtracts it. |
| Bitmap.FullByte | installer/edf.c:292-307 | A byte is 0xff exactly when none of its eight bits is clear, so the scan of a byte that is not always finds one. |
| Bitmap.TopZero | installer/edf.c:295-302 | A byte whose first clear bit is k starts with k ones and a zero, read from 0x80 down. |
| EdfVolume.ClaimUsed | installer/edf.c:309-314 | Claiming a block marks that block used and changes the mark of no other block number. |
| EdfVolume.UsedIs | installer/edf.c:309-314 | Block n is in use exactly when byte (n-1)/8 of the allocation map, counted over its blocks, divided by 2^(7-(n-1)%8) is odd. |
| EdfVolume.ClaimKeeps | installer/edf.c:309-314 | Claiming a block keeps the volume in order and changes no block of any file but the allocation map. |
| EdfVolume.AddKeeps | installer/edf.c:65-91 | Mapping a claimed block that nothing was mapped to keeps all mapped blocks distinct across files and levels, and marked used. |
| EdfVolume.StoreKeeps | installer/edf.c:118-127 | Changing a block's buffer and marking it dirty keeps the volume in order. |
| EdfVolume.LoadKeeps | installer/edf.c:93-116 | Reading a block into a buffer changes nothing that can be seen. |
| EdfTree.BlocksAtClosedForm | installer/edf.c:199-211 | Rounding the data block count up by a power of P gives the count of the level-by-level definition: one block for every P below. |
| EdfTree.FoundLinked | installer/edf.c:341-374 | If the append loop stops at a level that has room, every slot of every pointer block is right for one more data block. |
| EdfTree.TopLinked | installer/edf.c:376-388 | If no level has room, the new top block makes every slot right for one more data block and one more level. |
| EdfGrow.GrowStep | installer/edf.c:363-373 | One round of the append loop adds a block at its level whose only pointer is to the block just added below. |
| EdfGrow.FoundTree | installer/edf.c:344-361 | Ending at a level with room leaves a file whose tree is right: mapped blocks, one top block which is the file's origin, pointers. |
| EdfGrow.TopTree | installer/edf.c:376-388 | Ending with a new top leaves a file whose tree is right, with its origin at the new top. |
| EdfRecords.RecordPlace | installer/edf.c:403-423 | Where a record goes: it fits its block, or fills it exactly and goes on in the next one, which exists. |
| EdfRecords.DataWrite | installer/edf.c:415-425 | Writing in one block writes at one place of the file's data and nowhere else. |
| EdfRecords.RecordsExtend | installer/edf.c:391-430 | Writing a record behind the others keeps: block count is the bytes divided by the block size, rounded up, and the data starts with the concatenated records. |
| EdfRecords.RecordReplaced | installer/edf.c:187-191 | Overwriting one record in its block replaces it in the list of records and leaves the others. |
| EdfFiles.OtherFile | installer/edf.c:322-430 | A change of one file leaves every other file's tree and records as they were. |
| EdfFiles.FilesAfter | installer/edf.c:391-430 | All files of a volume are in order after one of them changed. |
| EdfFiles.WriteOne | installer/edf.c:134-142 | Writing one buffer brings its block up to date and touches no block another entry is mapped to, in whatever order entries come. |
| EdfFiles.OnlyMapped | installer/edf.c:134-142 | Write-back leaves every block of the disk that no entry is mapped to as it was. |
| EdfFiles.WrittenOk | installer/edf.c:129-143 | After write-back the disk holds what the block map shows, and every file is in order on it. |
| EdfDirectory.EntryReadBack | installer/edf.c:189 | An entry read back gives the stored status in 32-bit fields, under the same name, format and pointer size. |
| EdfDirectory.EntryFields | cp/include/edf.h:40-75 | Name and type are bytes 0-15 of an entry, record length 32-35, origin 40-43, block count 44-47, item count 48-51, levels 52, most significant byte first. |
| EdfDirectory.StatusOnly | installer/edf.c:189 | Storing a status changes no other byte of an entry. |
| EdfDirectory.NewEntry | installer/edf.c:259-274 | A new entry has the file's name and status, mode A1, fixed record format, four-byte pointers and zeros elsewhere. |
| EdfDirectory.EntryAdded | installer/edf.c:259-279 | Adding an entry with a new name keeps one up-to-date entry for every file. |
| EdfDirectory.EntryUpdated | installer/edf.c:177-197 | Overwriting a file's entry makes the directory up to date, and keeps all names, formats and pointer sizes. |
| EdfDirectory.SlotIsRecord | installer/edf.c:183-189 | Entry r of the directory is entry r modulo the entries per block of block r divided by them. |
| EdfDirectory.FirstSlot | installer/edf.c:183-194 | The first entry with a listed name in block and entry order is that file's record, whatever stands behind the entries in use. |
| EdfDirectory.ScanEntries | installer/edf.c:165-171 | The first entry of a block with the name, or none. |
| EdfInstaller.Installer.constructor | installer/edf.c:432-463 | A volume mounted with its allocation map and a one-block directory is in order. |
| EdfInstaller.Installer.FindFile | installer/edf.c:149-175 | Finds every file with its status; found exactly when some entry of the directory's blocks, in use or not, has the name. |
| EdfInstaller.Installer.ScanDirectory | installer/edf.c:183-194 | The first entry with the name over all directory blocks, or none; nothing visible changes. |
| EdfInstaller.Installer.UpdateDirectory | installer/edf.c:177-197 | Replaces exactly the file's entry by one with its new status; afterwards the whole directory is up to date. |
| EdfInstaller.Installer.CreateFile | installer/edf.c:259-279 | Adds an empty file; every other file keeps its records, the directory may grow; fails only when the volume is full. |
| EdfInstaller.Installer.AppendRecord | installer/edf.c:391-430 | Adds the record at the end of that file's records, keeps every other file, the invariant and the disk; fails only when every block is in use. |
| EdfInstaller.Installer.AppendData | installer/edf.c:400-427 | The same before the directory is updated. |
| EdfInstaller.Installer.PutRecord | installer/edf.c:403-425 | The record's bytes replace exactly their range of the file's data, also across two blocks. |
| EdfInstaller.Installer.StoreBytes | installer/edf.c:413-417 | Bytes replace exactly their range of the file's data; only data blocks of the file change. |
| EdfInstaller.Installer.WritebackBuffers | installer/edf.c:129-143 | Afterwards the disk holds every mapped block's contents, and its other blocks are as they were; nothing visible changes. |
| EdfInstaller.Installer.ReadFileBlk | installer/edf.c:93-116 | Returns the block's contents, from the buffer or the disk, and changes nothing visible. |
| EdfInstaller.Installer.GetFreeBlock | installer/edf.c:281-320 | Claims the lowest-numbered free block and nothing else, or there is none on the whole volume: the map bits of all lower blocks were set, and the block's byte of the map grows by exactly its bit's weight 2^(7-(n-1)%8). |
| EdfInstaller.ScanBlock | installer/edf.c:291-307 | The first clear bit of a map block, from 0x80 down in each byte, or all its bytes are 0xff. |
| EdfInstaller.FirstClear | installer/edf.c:295-302 | The first mask from 0x80 down that is clear: the byte starts with that many ones and a zero. |
| EdfInstaller.ScannedUsed | installer/edf.c:288-316 | When the scan has come to a bit, every block numbered below it is in use. |
| EdfInstaller.Installer.TryMapBlock | installer/edf.c:289-315 | One map block: its first free block is claimed, or all the blocks up to its end are in use. |
| EdfInstaller.Installer.ClaimBit | installer/edf.c:309-314 | Marks one free block used. |
| EdfInstaller.Installer.AddBlock | installer/edf.c:363-373 | A block no file had becomes the given block of the file and, above level 0, points to the block below. |
| EdfInstaller.Installer.PutPointer | installer/edf.c:351-357 | Stores one pointer; slot -1 changes nothing in the block. |
| EdfInstaller.Installer.FileBlocksAtLevel | installer/edf.c:199-211 | The number of blocks a level has. |
| EdfInstaller.Installer.AppendBlock | installer/edf.c:322-389 | The file's tree is right for one more data block; no other file and no data block changed. |
| EdfInstaller.Installer.AppendNext | installer/edf.c:340-388 | The same for a file that has blocks, at every depth. |
| EdfInstaller.Installer.GrowLevel | installer/edf.c:363-373 | A level gains the block the loop asks for. |
| EdfInstaller.Installer.PointTo | installer/edf.c:345-360 | The last block of a level with room takes the pointer, and the tree is right. |
| EdfInstaller.Installer.AddTop | installer/edf.c:376-388 | A new top over the old one and the new block, and the tree is right. |
| SaveFile.Save | installer/cpio.c:46-93 | The file's records are the contents byte for byte, each converted if they are text, and then as few zeros as make whole records; other files keep theirs; fails only for a name found or a full volume. |
| SaveFile.PaddedHolds | installer/cpio.c:68-92 | What is written, byte by byte: a converted byte for each byte of the contents, then zeros up to the next multiple of the record length. |
| SaveFile.AppendWhole | installer/cpio.c:82-83 | The whole records of the contents, in order. |
| SaveFile.AppendAll | installer/cpio.c:82-92 | The whole records and the padded rest. |
| Unload.SaveMember | installer/cpio.c:171-199 | If the table selects the member its file gets its contents; what was saved before stays. |
| Unload.SaveAll | installer/cpio.c:134-204 | Every selected member of the archive is saved, wherever cards end, and nothing is written to the disk yet. |
| Unload.UnloadVolume | installer/loader_c.c:333-343 | Afterwards the disk holds every selected member's file, and no block that is not mapped has changed; if anything fails the disk is unchanged. |
| Unload.Contents | installer/cpio.c:68-92 | A member's file gets its contents byte for byte, converted if they are text, and zeros up to whole records. |
| Unload.UnloadedReadsBack | cp/fs/edf.c:139-265 | From the disk and the directory's place alone the reader finds each selected member's file, and its data starts with the member's contents, converted and padded. |
| EdfReader.File.Lookup | cp/fs/bcache.c:66-69 | The entry with that level and block, or there is none. |
| EdfReader.File.CacheAdd | cp/fs/bcache.c:26-44 | Adds an entry behind the others, or fails for want of memory. |
| EdfReader.File.Read | cp/fs/bcache.c:55-123 | A cached read gives what the walk from the origin without a cache gives, or memory or device failed; every cache entry stays and agrees with the walk; what was read is cached. |
| EdfReader.File.ReadRec | cp/fs/edf.c:199-265 | A record read through the cache is the record without it, also across two blocks; refused for pointer levels, large records and past the end. |
| EdfReader.RecordSpans | cp/fs/edf.c:217-258 | A record is the bytes from its place on, also where they go on in the next block. |
| EdfReader.FindsBlock | cp/fs/bcache.c:71-102 | After write-back the reader's walk leads to the block the installer mapped, at every level and depth. |
| EdfReader.LostFindsStale | installer/edf.c:355-357 | A block whose pointer was written to slot -1 is read at the place the disk held in that slot at mount time. |
| EdfReader.IntendedReadable | installer/edf.c:355-357 | With slot (n-1) % P every data block of every file reads back. |
| EdfReader.AsWrittenReadable | installer/edf.c:355-357 | With the slot as written, on zeroed pointer blocks, all data blocks of a file read back if and only if there are at most P - 1 of them (3 when P is 2). |
| EdfReader.FirstLostIsLost | installer/edf.c:355-357 | The first block lost as written, and that its pointer blocks are not. |
| EdfReader.ReadDataIs | cp/fs/bcache.c:55-123 | Reading the blocks one after the other gives the file's data. |
| EdfReader.RecordsReadBack | cp/fs/edf.c:199-265 | The data the reader finds starts with the records given to the installer. |
| EdfReader.RecordReadBack | cp/fs/edf.c:199-265 | For a file without pointer levels every record number gives the record appended under it. |
| EdfReader.FileSystem.constructor | cp/fs/edf.c:71-84 | A directory whose first block is known from the label starts with a cache that agrees with the disk. |
| EdfReader.FileSystem.Lookup | cp/fs/edf.c:139-197 | A lookup, among files found before or in the directory, gives what the search of the disk gives, or memory or device failed. |
| EdfReader.FileSystem.Search | cp/fs/edf.c:165-196 | The search block by block gives the first entry with the name, or ENOENT. |
| EdfReader.LookupFinds | cp/fs/edf.c:172-187 | The search for a listed name ends at its own entry, although unused entries may hold anything. |
| EdfReader.RootFound | cp/fs/edf.c:59-78 | After write-back the label's directory block passes the mount checks, holds the directory's status, and is where the directory's tree starts. |
| EdfReader.FileFound | cp/fs/edf.c:139-197 | After write-back a lookup of any file gives the installer's status of it. |
| EdfReader.InstalledReadsBack | cp/fs/edf.c:139-265 | From the disk and the directory's place alone, every file's data starts with its records, their count is right, and record reads give them. |
| Spool.SpoolFile.constructor | cp/fs/spool.c:14-30 | A new spool file is an empty queue. |
| Spool.SpoolFile.NRecs | cp/fs/spool.c:37-48 | The length of the queue. |
| Spool.SpoolFile.AppendRec | cp/fs/spool.c:157-258 | Adds the stored record at the back exactly when there are enough pages, and then takes as many as what does not go into the last page needs, rounded up; otherwise queue and counts are as before. |
| Spool.SpoolFile.GrabRec | cp/fs/spool.c:55-155 | Returns the first min(cap, length) bytes of the oldest record and drops all of it; errors for no buffer length and an empty queue. |
| Spool.Append | cp/fs/spool.c:181-256 | The chain holds one more record; page count, record count and offsets match the chain. |
| Spool.FirstPage | cp/fs/spool.c:183-202 | What fits goes into the last page, and the records there stay readable if the append fails later. |
| Spool.AddPages | cp/fs/spool.c:206-235 | Stores what is left in as many new pages as it needs; fails exactly when there are fewer. |
| Spool.NewPagesIs | cp/fs/spool.c:206-235 | The pages the loop takes are header and data less what the last page had room for, divided by the page size and rounded up. |
| Spool.StorePage | cp/fs/spool.c:214-234 | One page takes the next part. |
| Spool.Grab | cp/fs/spool.c:74-149 | The chain without its oldest record. |
| Spool.Extract | cp/fs/spool.c:81-128 | Takes header and data off the chain, page by page, copying out what fits. |
| Spool.SkipPadding | cp/fs/spool.c:130-146 | Steps over the padding and drops a page that is used up. |
| Spool.ParsesUnique | cp/fs/spool.c:81-84 | The stored bytes determine the list of records. |
| Spool.ParsesSnoc | cp/fs/spool.c:189-241 | Bytes of a record behind a stream of records make a stream with that record last. |
| Spool.FirstRecord | cp/fs/spool.c:81-84 | The oldest record's header lies whole in the first page and gives its length. |
| Spool.IntendedStores | cp/fs/spool.c:230 | With source buf+copied-2 the stored record is the caller's. |
| Spool.AsWrittenStores | cp/fs/spool.c:230 | As written the stored record is the caller's, whatever surrounds it in memory, if and only if all its data is copied in one piece. |
| RunQueue.FirstStore | include/list.h:46 | The first store of an insertion leaves the list going forward as it was, with the new entry as its end going backward. |
| RunQueue.NextStore | include/list.h:47-48 | So do the second and third, which link the new entry itself. |
| RunQueue.LastStore | include/list.h:49 | The last store makes it a list with the new entry behind the others. |
| RunQueue.AddTailRing | include/list.h:74-77 | An insertion that is not interrupted adds the entry at the end. |
| RunQueue.DeleteRing | include/list.h:86-103 | Taking the first entry off leaves a list of the others. |
| RunQueue.DeleteForward | include/list.h:86-103 | Also in the middle of an insertion, going forward leads to the others and nothing else. |
| RunQueue.AddBehindHalf | include/list.h:46-49 | An entry added behind one that is not linked forward yet is not reached from the head. |
| RunQueue.OnListIs | include/list.h:176-179 | Exactly the entries of the list are reached going forward from its head. |
| RunQueue.AtEndIs | include/list.h:74-77 | Exactly the last entry is reached and leads back to the head. |
| Mutex.StepKeeps | cp/include/mutex.h:43-83 | Every step of every task and of the timer keeps the invariant, except the bad ones. |
| Mutex.PreemptKeeps | cp/nucleus/sched.c:194-253 | A switch away from a task that is in neither window keeps it. |
| Mutex.PreemptTo | cp/nucleus/sched.c:140-189 | Where the CPU goes at the end of a slice, also in the middle of an insertion: to the idle task if the slice ends three ticks from now or later, else to the first of the run queue. |
| Mutex.SwitchesTo | cp/nucleus/sched.c:194-253 | A task that yields, blocks or exits hands the CPU to the first of the run queue, itself put last if it yields, and that task gets a slice of three ticks; the idle task gets it if and only if nothing is left to run or the task's slice ends three ticks from now or later. Run queue and everything else in each case. |
| Mutex.LinkingKeeps | include/list.h:46-48 | A store of an insertion keeps the invariant if the end it uses is the end. |
| Mutex.LinkedKeeps | cp/nucleus/sched.c:314-318 | The last store makes the task runnable and keeps the invariant. |
| Mutex.CreateKeeps | cp/nucleus/sched.c:101-134 | A new task is in the hands of its creator until it is on the run queue. |
| Mutex.RunKeeps | cp/nucleus/mutex.c:11-25 | Every run without a bad step keeps the invariant. |
| Mutex.WordAndHolders | cp/include/mutex.h:43-83 | Lock word plus holders, a waiter already handed the mutex included, is one. |
| Mutex.NoOvertaking | cp/include/mutex.h:65-82 | While tasks wait the word is 0, and no step gives the mutex to any task but the first of the queue. |
| Mutex.ServedInOrder | cp/include/mutex.h:78-82 | Over the whole history tasks leave a mutex queue in the order they came. |
| Mutex.LockReturnsToOwner | cp/nucleus/mutex.c:11-25 | Taking a mutex, by either path, ends only in the task that has it. |
| Mutex.NoLostWakeup | cp/include/mutex.h:74-82 | While there was no bad step, a sleeper is queued behind a live holder, or has the mutex and runs, is runnable or is about to be made so. |
| Mutex.StepSlices | cp/nucleus/sched.c:162 | No slice ends later than a full slice from now. |
| Mutex.TimerPicksHead | cp/nucleus/ext.c:28-50 | Every third tick, unless it falls into an insertion, the CPU goes to the task that has been runnable longest with a slice of three ticks; the idle task runs only when there is none. Other ticks change nothing but the count. |
| MutexCalls.Progress | cp/include/mutex.h:43-83 | While the invariant holds, each task on the CPU can take its next step; only a spin lock that is held stops it. |
| MutexCalls.StepKnown | cp/include/mutex.h:43-83 | Every step keeps that nobody holds or awaits a mutex there is not. |
| MutexCalls.FastPath | cp/include/mutex.h:53-54 | Taking a free mutex takes three steps and no spin lock, sets the word to 0, and changes nothing else. |
| MutexCalls.SlowPath | cp/nucleus/mutex.c:11-25 | A task that finds the mutex taken is last on its queue when it gives up the CPU, the spin lock is free, and nothing else changed. |
| MutexCalls.FreePath | cp/include/mutex.h:65-72 | Giving up a mutex that nobody waits for adds one to its word and changes nothing else. |
| MutexCalls.HandOver | cp/include/mutex.h:74-82 | Giving up a mutex that tasks wait for leaves its word 0, makes the first of its queue the holder and puts that task last on the run queue. |
| Places.InvOnePlace | cp/nucleus/sched.c:194-253 | A live task is on the CPU, on the run queue as it is reached from its head, on one mutex queue, or in the hands of one task that is putting it at the end of the run queue. |
| Places.TwoPlaces | cp/nucleus/mutex.c:20-24 | A switch between queueing and blocking puts the task on two queues. |
| Places.NowhereLinked | cp/nucleus/sched.c:314-318 | A switch inside an insertion leaves the task to be inserted in no place. |
| Places.NowhereLinking | cp/nucleus/sched.c:227-245 | It leaves the task that was inserting in no place either: it is queued behind the other. |
| Places.StaleNowhere | include/list.h:74-77 | The first store with an end that is out of date leaves the task to be inserted in no place. |
| Places.OnePlaceIff | cp/nucleus/sched.c:194-253 | A step leaves every task in one place if and only if it is not one of the three bad ones. |
| Places.PlacedIff | cp/nucleus/sched.c:194-253 | A run keeps every task in one place in all its states if and only if it has no bad step. |
| Places.EveryRun | cp/nucleus/mutex.c:11-25 | The same for runs from the initial state; without a bad step each mutex's word and holders add up to one. |
| LostTasks.QueuedTwice | cp/nucleus/mutex.c:20-24 | A run from the initial state after which one task was put on the run queue twice and stays first when it is taken off. |
| LostTasks.AllLost | cp/nucleus/sched.c:314-318 | A run from the initial state, without a switch between queueing and blocking, after which a sleeper has been given its mutex, no task can be reached, and only the idle task runs whatever happens next. |
| LostTasks.DeadForever | cp/nucleus/sched.c:147-150 | Once the run queue's end hangs on an entry that is not linked, nothing but the idle task ever runs, whatever tasks are created. |
| IoQueue.Device.constructor | cp/nucleus/io.c:40-59 | A device without operations. |
| IoQueue.Device.StartNext | cp/nucleus/io.c:40-59 | Starts the first waiting operation if none is in flight; a refusal leaves it first and notes -EINVAL for condition code 3 and -EBUSY for 1 and 2. |
| IoQueue.Device.Submit | cp/nucleus/io.c:65-98 | The operation is last in submission order and not done; at most one is in flight. Queue and operations in every case. |
| IoQueue.Device.Interrupt | cp/nucleus/io.c:180-217 | Only an interrupt whose subchannel and parameter match the operation in flight completes it; anything else counts as attention. Its error is -EINVAL if the subchannel is not there, else what its handler leaves, else 0 for device end, -EUCHECK for unit check and -EAGAIN for neither; with -EAGAIN it stays in flight, otherwise it is done and the next one is started. Queue and operations in every case. |
| IoQueue.Device.CpuInitiated | cp/nucleus/io.c:139-171 | The operation in flight goes on, or is done and the next one starts. |
| IoQueue.Device.InOrder | cp/nucleus/io.c:40-98 | Completed, in flight and waiting operations are the submissions in order, in every reachable state. |
| IoQueue.Device.DoneMeansCompleted | cp/nucleus/io.c:89-95 | A submitted operation is marked done only if it completed; otherwise it waits or is in flight. |
| IoQueue.DefaultKeeps | cp/nucleus/io.c:122-137 | The default handler leaves an operation in flight exactly while neither unit check nor device end is set. |
| Buddy.InitLists | cp/mm/buddy.c:22-39 | One block for each binary digit of the page count that is 1, at the base plus the lower digits; they cover each page of the range exactly once and no other page. |
| Buddy.LowPartIs | cp/mm/buddy.c:22-39 | The lower digits are the page count modulo the power of two. |
| Buddy.ChipPages | cp/mm/buddy.c:134-145 | For each order from the wanted one up to the actual one exactly one block is put first on its list, the one 2^order behind the first page; the other lists are as before; what is returned and what is kept cover the block exactly. |
| Buddy.TakeBlock | cp/mm/buddy.c:70-101 | The first block of the order from the zones allowed is taken off its list, or both lists are empty. |
| Buddy.Search | cp/mm/buddy.c:161-188 | The smallest order that has a block serves the request; none exactly when no order does. The lists of its zone change exactly by splitting it. |
| Buddy.PageAllocator.constructor | cp/mm/buddy.c:46-68 | All pages from the start on are free, in one block for each binary digit of each zone's page count; if none is reserved and there are 2GB or more, all below 2GB are lost. |
| Buddy.PageAllocator.AllocPages | cp/mm/buddy.c:152-194 | The first block of the smallest order that has one is taken and exactly its halves down to the wanted order go back first on their lists, the other zone's lists being as before; free blocks and live allocations go on partitioning the pages; low requests are below 2GB; none exactly when no large enough block is free in the zones allowed. |
| Buddy.PageAllocator.FreePages | cp/mm/buddy.c:196-207 | The freed block is first on its zone's list, and the partition holds. |
| Buddy.PageAllocator.Disjoint | cp/mm/buddy.c:152-207 | In every reachable state a page of a live allocation belongs to no other one and to no free block, and lies in the storage given. |
| Buddy.BeyondIff | cp/mm/buddy.c:85-101 | When the search looks past the 19 lists of low storage: exactly when a request for any storage finds orders 18 and below and its first list above empty, or a low request asks for order 19 or more. |
| Slab.CreateFits | cp/mm/slab.c:87-111 | For every object size and alignment below 256 the objects fit the page, aligned, and are large enough. |
| Slab.ObjectsFit | cp/mm/slab.c:95-111 | The same for a rounded size, dropping at most one object. |
| Slab.CountFits | cp/mm/slab.c:95 | Header, a bit for every object and the objects fit before alignment, and one object more would not. |
| Slab.BitmapApart | cp/mm/slab.c:98-103 | The bitmap ends before the first object if and only if rounding lost no byte or alignment added one. |
| Slab.KilobyteOverlaps | cp/mm/slab.c:98 | In the 1024-byte cache the bitmap is the first object's first byte. |
| Slab.CachesApart | cp/mm/slab.c:18-46 | The exact layout of each of the seven caches; in all but the 1024-byte one bitmap and objects are apart. |
| Slab.FreeRecovers | cp/mm/slab.c:240-246 | From an object's address freeing computes its page and the very index it was allocated with. |
| Slab.ObjectsApart | cp/mm/slab.c:223 | Objects of different index or page have no byte in common. |
| Slab.UseSparesBitmap | cp/mm/slab.c:98 | Storing in objects, whatever and wherever, leaves the bitmap alone if and only if the bitmap ends before the first object. |
| Slab.OnesAfter | cp/mm/slab.c:220-221 | Changing one bit changes the number of set bits by one. |
| Slab.FirstClear | cp/mm/slab.c:212-218 | The first clear bit, or all are set. |
| Slab.Slab.constructor | cp/mm/slab.c:67-116 | A new cache has one page, with no object used, and no live object. |
| Slab.Slab.FirstWithRoom | cp/mm/slab.c:187-196 | The first page of the zone with room. |
| Slab.Slab.AllocObj | cp/mm/slab.c:167-231 | A new object that was not live, from the first page that is not full on the requested side of 2GB, else from a new page; its page's used count grows by one and no other page changes; fails exactly when there is neither. |
| Slab.Slab.AllocFrom | cp/mm/slab.c:210-225 | From a page with room always succeeds, with its lowest free index; the used count grows by one and stays the number of set bits, and the other pages are as before. |
| Slab.Slab.FreeObj | cp/mm/slab.c:233-257 | Exactly that object stops being live, and its page's used count falls by one. |
| Slab.Slab.Use | cp/mm/slab.c:223 | Storing in a live object changes nothing of the cache where objects lie behind the bitmap; otherwise it changes the byte of the bitmap that it hits. |
| Slab.Slab.LiveApart | cp/mm/slab.c:167-257 | In every reachable state live objects have no byte in common. |
| Storage.IndicesSplit | cp/include/dat.h:83-86 | Two pages have the same table indices exactly when they are the same modulo 2GB. |
| Storage.SegTableAdded | cp/mm/dat.c:39-50 | A new segment table changes no translation of any guest. |
| Storage.PageTableAdded | cp/mm/dat.c:81-97 | A new page table changes no translation of any guest. |
| Storage.PteSet | cp/mm/dat.c:99-107 | Setting an entry changes the translation of that page of that guest and of nothing else. |
| Storage.System.InsertPage | cp/mm/dat.c:30-110 | The walk goes on equalling the map of last insertions; fails only without memory for a table. |
| Storage.System.NewSegTable | cp/mm/dat.c:13-22 | A segment table of 2048 eight-byte entries in a block that holds all of it and that nothing else uses. |
| Storage.System.NewPageTable | cp/mm/dat.c:81-97 | A page table in a block that holds all of it and that nothing else uses. |
| Storage.System.AllocGuestStorage | cp/guest/init.c:57-78 | The walk translates every page v of the new guest below 2GB to the frame of its storage page v; fails only when memory ran out. |
| Storage.System.AddPage | cp/guest/init.c:64-74 | One more page of the guest, in a frame of its own. |
| Storage.System.FramesApart | cp/guest/init.c:57-78 | Different uses, of whatever guests, have different frames. |
| Storage.System.TablesApart | cp/mm/dat.c:13-97 | Two tables have no page in common, whatever guests they belong to. |
| Storage.System.Isolated | cp/guest/init.c:57-78 | In every reachable state no frame can be reached by two guests or through two pages of one, and none holds any part of a table, of eight bytes for each entry. |
| Storage.PageOwned | cp/guest/init.c:73-74 | Every page a guest can reach is one of its own storage pages. |
| Clock.ParseTod | lib/clock.c:66-176 | For every 64-bit clock value: a valid date and time, by month lengths in numbers, from which days, time of day and leap seconds so far, at 4096 to a microsecond, give the value back without its lowest 12 bits; second 60 exactly inside a leap second; all loops end. |
| Clock.OffsetIs | lib/clock.c:60-64 | The table of days before each month agrees with the lengths of the months: 28 or 29 by the leap year rule, 30 or 31. |
| Clock.YearStep | lib/clock.c:107-123 | A year from January or July on has 366 days exactly when its end of February is in a leap year. |
| Clock.FindEntry | lib/clock.c:77-80 | The most recent table entry. |
| Clock.TableDates | lib/clock.c:28-55 | Each entry's clock value is the start of its date plus the leap seconds so far. |
| Clock.LeapsCounted | lib/clock.c:28-55 | The current entry determines how many leap seconds have been inserted. |
| Clock.SecondAhead | lib/clock.c:77-96 | Comparing with the entry one second ahead, which wraps, finds exactly the leap seconds. |
| Clock.WholeYears | lib/clock.c:107-123 | Taking years off, from January or July on, keeps the point in time. |
| Clock.FindMonth | lib/clock.c:133-151 | The month and day found are valid, by month lengths in numbers, and denote the same day. |
| Clock.TimeOfDay | lib/clock.c:158-173 | Valid hour, minute, second and microsecond that add up to the time. |
| Digest.Context.constructor | lib/digest.c:12-21 | An empty context. |
| Digest.Context.Update | lib/digest.c:45-92 | The data given grows; chaining value, buffer and bit count stay those of all data given so far. |
| Digest.Context.FillBuffer | lib/digest.c:47-71 | The buffer takes what it can; a full one is hashed. |
| Digest.Context.Store | lib/digest.c:73-86 | Whole blocks are hashed and the rest is kept. |
| Digest.Context.Finalize | lib/digest.c:94-97 | The digest is that of the concatenation of all data in one shot, however it was divided. |
| Digest.FoldConcat | lib/digest.c:86 | Hashing whole blocks and then more is hashing both at once. |
| Digest.Last | lib/digest.c:83-84 | Finishing with the rest and the whole message's bit count is padding the whole message (section 5.1.1 of FIPS 180-4). |
| Digest.PaddedWhole | lib/digest.c:84 | A padded message is whole blocks. |
| Digest.PaddingIs | lib/digest.c:84 | Padding is 0x80, as few zeros as make whole blocks, and the length in bits modulo 2^64 as a 64-bit number with the most significant byte first. |
| Digest.Kimd | lib/digest.c:42 | Hashing block by block is the fold. |
| Cpio.NumberReadsBack | installer/cpio.c:95-103 | A number below 2^32 written in enough octal digits reads back. |
| Cpio.ReadNumber | installer/cpio.c:95-103 | The octal fold in 32-bit arithmetic. |
| Cpio.AsWrittenReads | lib/string.c:48-57 | As written the members before the first ten-character name starting with T are visited; all of them if and only if there is none. |
| Cpio.PackedParses | installer/cpio.c:8-21 | Any list of members, packed with octal lengths and ended by a trailer and anything that fills the last card, parses back to that list unless a name is taken for the trailer. |
| Cpio.Fill | installer/cpio.c:162-165 | Reads cards until enough is buffered; fails exactly when the cards do not hold that much. |
| Cpio.Take | installer/cpio.c:189-190 | Takes bytes off the front of the buffer, wherever cards end. |
| Cpio.ReadMember | installer/cpio.c:152-202 | One member read through the buffer is the first of the rest of the flat stream. |
| Cpio.UnloadArchive | installer/cpio.c:134-204 | Reading card by card visits the same names and contents, in order, as parsing the flat stream. |
| Format.DigitsEvaluate | lib/vsprintf.c:84-88 | The printed digits evaluate back to the number in every base. |
| Format.DigitCount | lib/vsprintf.c:52 | A 64-bit number has at most 64 digits, so the digit buffer is large enough. |
| Format.FieldLength | lib/vsprintf.c:50-141 | A field has max(width, sign + prefix + max(precision, digits)) characters. |
| FormatText.IntegerPrinted | lib/vsprintf.c:361-387 | An integer conversion prints sign, prefix and digits of one letter case without a leading zero, which evaluate in its base to the magnitude of the argument in its qualifier's size; blanks stand before or, left-justified, behind; zeros between prefix and digits. |
| FormatText.FieldLaid | lib/vsprintf.c:93-140 | The order of blanks, sign, prefix, zeros and digits in a field for each justification. |
| FormatText.DigitsPlain | lib/vsprintf.c:55-88 | Digits are below the base, of the letter case asked for, and start with no zero. |
| FormatText.DirectiveRead | lib/vsprintf.c:203-254 | Flags, width, precision and qualifier, however they are written, are read as what they say, and take one argument for each star; a negative one for the width justifies to the left. |
| FormatText.Justified | lib/vsprintf.c:259-287 | Characters and strings are filled up with blanks on one side, none if they are as wide already. |
| FormatText.Consumed | lib/vsprintf.c:259-387 | A conversion takes one argument for its letter, if that is one of ten, and none otherwise. |
| Format.DigitsOf | lib/vsprintf.c:84-88 | The digits taken off from the lowest are those of the number. |
| Format.Output.Put | lib/vsprintf.c:196-201 | A character past the end is counted and changes nothing in the buffer. |
| Format.Output.PutMany | lib/vsprintf.c:93-97 | That many characters, none for a negative count. |
| Format.Output.Number | lib/vsprintf.c:50-141 | Writes the integer field: blanks or zeros, sign, prefix, precision and digits in their order. |
| Format.Output.Finish | lib/vsprintf.c:389-396 | The buffer holds the first size - 1 characters at most, a NUL and nothing new behind; the result is the full length. |
| Format.ReadFlags | lib/vsprintf.c:203-213 | All flags up to the first other character. |
| Format.ReadNumber | lib/vsprintf.c:40-47 | A decimal number and where it ends. |
| Format.ReadSpec | lib/vsprintf.c:203-254 | Flags, width, precision and qualifier, from the format or the arguments. |
| Format.Convert | lib/vsprintf.c:259-387 | Writes one conversion's text. |
| Format.Step | lib/vsprintf.c:195-388 | Writes one character or one conversion and moves on in format and arguments. |
| Format.Vsnprintf | lib/vsprintf.c:163-397 | The first min(size - 1, n) characters of the untruncated output, a NUL, nothing past it, and n returned; a size negative as an int writes nothing. |
| Subchannel.Guest.constructor | cp/guest/reset.c:203 | Subchannels idle, nothing pending. |
| Subchannel.Guest.Operand | cp/guest/instruction_priv.c:143-168 | The common operand checks, in their order, and their outcomes. |
| Subchannel.Guest.Ssch | cp/guest/instruction_priv.c:130-239 | Condition code 1 while status is pending and 2 while busy, with nothing altered; otherwise the start is accepted: another kind of device stops the guest, without memory the start stays pending, and with it the status says how the channel program ended, an alert unless there is only channel end and device end, and one interrupt with the operand's parameter is queued. |
| Subchannel.Guest.Start | cp/guest/instruction_priv.c:206-238 | What an accepted start does on each kind of device. |
| Subchannel.SpoolExec | cp/drivers/spooldev.c:83-248 | A channel program that gets a buffer ends with status pending, its outcome in the status word, and exactly one interrupt queued in the device's subclass; without one nothing changes. |
| Subchannel.Guest.Tsch | cp/guest/instruction_priv.c:318-403 | A pending status is cleared with all functions and the activities they stand for, and the rest of the status word stays; otherwise alters nothing but the condition code. |
| Subchannel.Guest.Msch | cp/guest/instruction_priv.c:14-128 | Alters nothing while status is pending or the subchannel busy; otherwise sets every field of the path control but the valid bit and the device number. |
| Subchannel.Guest.IoReset | cp/guest/reset.c:173-206 | Every subchannel is free with its path control reset, field by field; all else stays, queued interrupts too. |
| Subchannel.Guest.IoInt | cp/guest/run.c:21-85 | Takes the oldest interrupt of the first subclass that control register 6 enables, from 0x80000000 down, and that has one; the guest finds it and its old PSW in its prefix area and goes on at the new PSW; without the guest's first page it is lost and the guest stops. |
| Subchannel.AcceptKeeps | cp/guest/instruction_priv.c:206-213 | Accepting a start keeps the balance of starts and tests. |
| Subchannel.EndKeeps | cp/drivers/spooldev.c:222-239 | The end of a channel program keeps it, and queues one interrupt for one start. |
| Subchannel.TestKeeps | cp/guest/instruction_priv.c:363-392 | A test that finds status pending frees the subchannel and keeps the balance. |
| Subchannel.InterruptKeeps | cp/guest/run.c:47-80 | Taking an interrupt conserves their number. |
| Subchannel.ResetKeeps | cp/guest/reset.c:173-206 | A reset keeps the balance of starts and tests. |
| Subchannel.StartsSeparated | cp/guest/instruction_priv.c:182-239 | In every reachable state the starts accepted for a subchannel are the interrupts queued for it plus the starts that got no buffer or stopped the guest, and those are the ones ended by a test or reset, plus one exactly while the subchannel is not free. |
| Subchannel.UnansweredKeeps | cp/drivers/spooldev.c:91-96 | A start that gets no buffer is the only kind, with one that stops the guest, that queues no interrupt. |
| Subchannel.InterruptsConserved | cp/guest/exception.c:19-39 | Queued interrupts are delivered, pending, or dropped by stopping the guest; each subclass delivers in order. |
| Subchannel.TestFrees | cp/guest/instruction_priv.c:363-395 | A test frees a subchannel that is not free if and only if status is pending; a start that got no buffer stays busy until a reset. |

## Left out

- EdfInstaller.Installer.AppendRecord: byte offsets are unbounded in the model and 32-bit in the source; they agree for files below 4 GB, which `EdfReader.Reaches` asks of a file. Records of length 0 are not modelled.
- EdfReader.AsWrittenReadable: pointer blocks are taken to be zero when allocated; for other contents `EdfReader.LostFindsStale` says what a lost block reads as.
- EdfReader.File.ReadRec: record format and pointer size are not among the status fields, so the tests of them are not modelled.
- EdfInstaller.Installer.constructor: volumes whose directory already has pointer blocks; loading one maps slots past the block count, and growing it stops the installer (installer/edf.c:247-254). The allocation map's blocks are given.
- EdfInstaller.Installer.PutPointer: a pointer to slot -1 is taken as lost; in memory it lands in the word before the buffer.
- EdfInstaller.Installer.GetFreeBlock: the number of blocks on the volume is not compared with the label's, as in the source.
- EdfReader.FileSystem.constructor: the label's checks, and directories whose first block is not where their tree starts.
- SaveFile.Save: special files, which are also written to a fixed block.
- Reading from the device, seek and channel programs: a disk is a map from block number to contents. A failed read or allocation in the reader is a choice that `healthy` excludes.
- Spool.SpoolFile: the mutex around each operation; operations are atomic. Page contents when allocated are arbitrary.
- Mutex.StepKeeps: spinning on a queue lock is not a step of its own; the list of all processes, lock dependency checks, running out of memory in `create_task`, and the cut of a slice end to an int are not modelled.
- Mutex.PreemptKeeps: the boot code is taken to run as the idle task; it creates tasks and takes no mutex.
- IoQueue.Device.Interrupt: interrupts inside an operation's own handler and destructors.
- IoQueue.Device.Submit: loops that wait for `done`, and progress while the subchannel refuses. Operation numbers are given by the caller.
- Buddy.PageAllocator.constructor: the number of pages above 2GB fits an int, as the source needs.
- Buddy.PageAllocator.AllocPages: entries past the 19 lists of low storage count as empty; `Buddy.BeyondIff` says when they are looked at.
- Slab.Slab.AllocObj: freeing pages and caches, and sizes whose layout overflows 16 bits.
- Storage.System.InsertPage: the region table, which nothing sets. Table entries hold frame numbers or nothing; their other bits are not modelled.
- Storage: copying to and from guest storage, which does not advance across pages (cp/mm/dat.c:150-169).
- Digest.Kimd: the compression function is any function; the instructions that compute it are taken as defined in the architecture.
- Cpio.UnloadArchive: the 2 MB buffer, and reading on after the last card, which the model reports as an incomplete archive.
- Unload.SaveMember: the table is any choice of a file for a member; how names are compared is not modelled.
- Subchannel.Guest.Ssch: fetching channel commands, whose address is stepped twice (cp/drivers/spooldev.c:125, 219); a channel program is any outcome. Restarting a stopped guest is not modelled.
- Subchannel.Guest.Tsch: the interruption response block, which the source fills and does not store.
- Subchannel.SpoolExec: channel programs that never end, and running out of memory for the interrupt itself, which stops the hypervisor.
- Format.Vsnprintf: what `%n` stores, widths past an int, and buffers that wrap the address space. A missing argument reads as 0 or no string.
- Clock: reading the clock and formatting dates.
- Interrupt stubs, PSW and control register handling, the SIE loop, the console, shell commands, disassembler tables, configuration and directory parsers, code page tables, `ldep.c`.
