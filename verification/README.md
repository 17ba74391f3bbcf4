# Verified models of an xv6 variant

This project models, in Dafny, the parts of an xv6 kernel and its user programs where the
correctness argument is hardest, and proves what those parts promise. The kernel is the
variant whose process-table lock has been replaced by compare-and-swap on the process
states. `dafny verify dfyconfig.toml` checks everything.

Code that changes things in place is modelled in place: a class with the source's fields,
methods with the source's loops, and contracts that tie the new state to a specification.
The specifications are separate modules, about which the theorems are proved.

| modules | what they model |
|---|---|
| `Blocks` | Disk blocks, and the 32-bit words laid over them |
| `BufferCache` | bio.c: the ring of buffers, reference counts, sleep locks, dirty pinning |
| `LogSpec`, `Reservation`, `Log` | log.c: what the log means on disk and at every crash point; admission of operations; the code, over the cache |
| `ProcTable`, `Granularity` | proc.c: the process table as interleaved steps; why two blocks must be single steps |
| `Wakeups`, `Sleepers`, `SpuriousWakeup` | sleep and wakeup: no wakeup is lost, who is woken and why, and a run in which the wrong process is |
| `Family`, `Orphans`, `WaitLoop` | fork, exit and wait: whose child a slot is, that exit hands its children over, what wait decides |
| `Scheduling` | The scheduler: every process gets its turn, frozen ones are put back, each goes on where it was left |
| `FileSpec`, `Files`, `Layout` | fs.c and file.c: bitmap, inodes, direct and indirect blocks, files as byte sequences, chunked writes; where on the disk each byte is |
| `Storage` | The files on the log on the cache: what a power failure leaves of a write |
| `VmSpec`, `Vm` | vm.c and kalloc.c: page tables, user memory, and the ownership of physical pages |
| `Malloc` | umalloc.c: the circular free list in the heap's own headers |
| `CStrings`, `Grep` | grep.c: the matcher against a language of patterns |
| `ShellLex`, `ShellSpec`, `Shell`, `ShellGrammar`, `ShellText` | sh.c: tokens, grammar, the cursor-based parser, nulterminate; the ways to write a command, as tokens and as lines of text |
| `Options` | An optional value |

The main results:

- `LogSpec.CrashAtomicity`: over any run of commits, power failures and recoveries, each cut
  off after any block write, recovery gives exactly the committed transactions. `Log.Log.Commit`
  and `Log.Log.Recover` are proved to write exactly the disk states that theorem is about.
- `Storage.WriteFile` and `Storage.Boot`: whichever block write of a filewrite is the last before
  a power failure, recovery and mounting give a consistent file system in which a number of
  three-block pieces of the bytes, or all of them, is written, without a gap, and no other file
  has changed; from there all goes on.
- `Wakeups.OneHolder` and `Wakeups.NoLostWakeup`: in every interleaving no process is held by
  two CPUs, and no parent is left asleep in wait with a zombie child and no waker to come.
  `Family.OwnChildren`: wait and exit touch only the caller's own children, with no lock held.
- `Orphans.ParentThere` and `HandedOver`, `WaitLoop.WaitDecides`: in every run a slot's parent is a
  process that is there, a zombie has no children left, and wait takes a zombie, sleeps or gives up
  as its children and its being killed say.
- `Sleepers.WakesAll`, `WokenOnly`, `WokenForChannel`, `Scheduling.EveryTurn`, `Resumes`: a wakeup
  misses nobody, a sleeper wakes only for a reason, no process is RUNNABLE through a whole pass of a
  scheduler, and each goes on where it was left.
- `Files.Fs.Writei`, `Readi`, `Itrunc`, `WriteOp`: files are byte sequences; pointers, bitmap
  and on-disk inodes stay exact; each chunk fits the log's budget. `Layout.FilesOnDisk` says where
  on the disk, byte by byte, they are.
- `Malloc.Heap.Malloc` and `Free`: every unit is free or handed out, the list stays ordered and
  coalesced, and one request of memory is enough.
- `Vm.Memory.Freevm`, `Deallocuvm`, `Allocuvm`, `Copyuvm`: every page is conserved, on success
  and on failure, the jump over absent page tables skips nothing, and they fail exactly when the
  free pages are fewer than a number given by the sizes.
- `Grep.Match`, `ShellGrammar.Accepts`, `ShellText.ReadsBack`, `Shell.ParseCmd`: matcher and parser
  do exactly what an independent meaning of patterns and of command lines says.

Where a promise turns out not to hold, there is an exact condition. Within budget, log_write's
size test passes for every new block if and only if the log has more than LOGSIZE blocks
(`NewBlockFits`, `SmallLogPanics`), and for a block already logged it fails once the log is
full (`FullLogPanics`). commit completes if and only if nothing is logged or the blocks logged
and the clean buffers other processes are using are together fewer than NBUF (`Log.Log.Commit`):
always when no buffer is in use and the log has at most NBUF blocks (`Log.Log.RoomAlone`), but
one reader is enough to make it panic in the log that mkfs lays out
(`Log.ReaderStopsCommit`). Two CPUs can get into one process if and only if one of two blocks
of proc.c is not a single step (`Granularity.TwoHolders`). wakeup1 can wake a process that is
asleep on another channel (`SpuriousWakeup.WakesAnother`, a run from boot), but not one that has
been in one sleep since its channel was read (`Sleepers.WokenForChannel`). writei and filewrite
panic if and only if the free blocks are fewer than the write lacks (`Files.Fs.Writei`). malloc's rounding is right if and
only if it does not wrap (`Malloc.Rounding`).

Modelling decisions:

- A panic is a result of the operation. Time spent asleep or spinning is not modelled: an
  operation that would sleep returns false, or its step is not enabled.
- The disk is a map from block names to contents, and each block write is one step. A crash
  loses everything but the disk.
- sbrk's answers and what the linker places (`data`) are parameters. Physical pages and heap
  memory are measured in pages and header units.
- The process table is over sequentially consistent memory. Each access to it is one step,
  except the scheduler's settling block (proc.c:512-532) and wakeup1's waking of one slot
  (proc.c:672-687), which are single steps, wakeup1's test of the state (proc.c:670), which
  reads it once, as it is compiled (kernel.asm:6918-6921), and wait's clearing of two fields of
  the child it has taken (proc.c:393-395). `Granularity.TwoHolders` shows that each of the first
  two is needed. An interrupt handler may call wakeup wherever interrupts are enabled.
- In `Storage`, the log_writes of one operation are taken together, after what the operation does
  to its blocks, in any order and each block once with its last contents; log_write absorbs
  repeats, and no block is written to disk before commit.
- The comment on wakeup1 says the table lock must be held (proc.c:662); the code takes no lock,
  and the model follows the code.
- gettoken reports the same mode for `>` and `>>` (sh.c:388-393), and the model does too.

## Model

| member | source | states |
|---|---|---|
| `LogSpec.EncodeHead` | log.c:101-113 | Rewriting the header block to list `bs` gives a block that decodes to exactly `bs` (its partner is `DecodeHead`, read_head's reading) |
| `LogSpec.LoggedReads` | log.c:177-190 | After k blocks of write_log, no home block and not the header has changed, and log slot i holds content i |
| `LogSpec.InstalledReads` | log.c:69-82 | After k blocks of install_trans, the first k home blocks hold the log slots' contents and every other block, log included, is untouched |
| `LogSpec.InstallApplies` | log.c:69-82 | Installing a whole log does to the home blocks what applying the transaction to a flat disk does |
| `LogSpec.CrashBeforeHead` | log.c:192-197 | A crash before the header write leaves a log that reads as empty: recovery gives back the home blocks of before |
| `LogSpec.HeadCommits` | log.c:98-113 | The one header write makes recovery give the whole transaction |
| `LogSpec.RecoveryCrash` | log.c:115-122 | Whatever part of recovery was done before a crash, recovering from what it left reaches the same home blocks |
| `LogSpec.RecoveryIdempotent` | log.c:115-122 | Recovering a second time changes no home block |
| `LogSpec.CommitCrash` | log.c:192-202 | For every k of the 2n+2 block writes of a commit: recovery gives all of the transaction if the header write is among the first k, none of it otherwise |
| `LogSpec.CommitDone` | log.c:192-202 | A commit that runs to the end leaves the transaction applied and the log clear |
| `LogSpec.StepAtomicity` | log.c:69-202 | One commit, power failure or recovery, each cut off anywhere, keeps the disk recoverable to the flat disk of the committed transactions |
| `LogSpec.CrashAtomicity` | log.c:69-202 | Over every run of commits, power failures and recoveries, each cut off at any block write, recovering gives exactly the flat disk to which the committed transactions were applied in order; when the system is up the disk already is that and the log is clear |
| `Reservation.StepKeeps` | log.c:125-233 | begin_op, log_write, end_op and the end of a commit each keep: blocks logged plus unspent reservations at most LOGSIZE, no block listed twice, none outstanding while committing |
| `Reservation.ReservationHolds` | log.c:125-233 | That holds at every reachable state, given that each operation logs at most MAXOPBLOCKS distinct blocks |
| `Reservation.NewBlockFits` | log.c:218-219 | With more log blocks than LOGSIZE, log_write's size test passes for every new block within budget |
| `Reservation.SmallLogPanics` | log.c:218-219 | With at most LOGSIZE log blocks (mkfs.c:25 lays out LOGSIZE), admitted operations within budget can reach the "too big a transaction" panic; the run is given |
| `Reservation.FullLogPanics` | log.c:218-227 | With more log blocks, writing again a block already logged panics once LOGSIZE blocks are logged, because the size test comes before the search; the run is given |
| `BufferCache.UnlinkRing` | bio.c:132-133 | Unlinking a buffer leaves a ring of the others in the same order, in both directions |
| `BufferCache.LinkRing` | bio.c:50-54 | Linking a buffer behind the head leaves a ring with it in front |
| `BufferCache.OneBufferPerBlock` | bio.c:61-93 | No two buffers that are in use or valid name one block, on any device |
| `BufferCache.UpdateKeeps` | bio.c:95-141 | Changing one buffer in use, and its own block only, keeps uniqueness and coherence of the whole cache |
| `BufferCache.RecycleKeeps` | bio.c:81-91 | Renaming a buffer that is unused and not dirty loses no contents: what each block was last left holding is still in the cache or on disk |
| `BufferCache.FrontKeeps` | bio.c:130-138 | Moving a buffer to the front keeps the invariant although searches go in ring order |
| `BufferCache.Cache.constructor` | bio.c:38-56 | binit: all NBUF buffers on the ring, none in use, the cache coherent with the disk |
| `BufferCache.Cache.FindCached` | bio.c:69-76 | The search forward finds the buffer of the block, or there is none |
| `BufferCache.Cache.FindVictim` | bio.c:81-91 | The search backward finds the least recently used buffer that is unused and clean, or there is none |
| `BufferCache.Cache.Bget` | bio.c:61-93 | bget keeps the invariant, returns a buffer of that block with one more reference, and panics exactly when the block is not cached and no buffer is unused and clean; a recycled buffer is the least recently used one that is |
| `BufferCache.Cache.AcquireSleep` | sleeplock.c:22-32 | The lock is taken exactly when it is free |
| `BufferCache.Cache.Fill` | bio.c:102-104 | A locked buffer then holds what the block was last left holding, whatever was evicted in between |
| `BufferCache.Cache.Update` | log.c:77 | Changing a held buffer's data changes what its block holds and nothing else |
| `BufferCache.Cache.MarkDirty` | log.c:231 | Only the dirty mark of that buffer changes |
| `BufferCache.Cache.Bwrite` | bio.c:108-116 | One block write: the disk has the buffer's data, the buffer is clean, no other block's dirtiness changes |
| `BufferCache.Cache.ReleaseSleep` | sleeplock.c:34-42 | Unlocking keeps the cache coherent provided changed data is marked dirty or written |
| `BufferCache.Cache.MoveToFront` | bio.c:132-137 | The six link writes put the buffer in front and keep the ring |
| `BufferCache.Cache.Bput` | bio.c:128-140 | One reference less; on the last one the buffer moves to the front |
| `BufferCache.Cache.CleanReads` | bio.c:78-91 | While whoever has a buffer locked only reads it, a block that is not dirty holds on disk what it was last left holding |
| `BufferCache.Cache.DirtyUnheld` | bio.c:78-91 | A dirty block is then not locked |
| `BufferCache.Cache.Bread` | bio.c:95-106 | bread returns a locked buffer with the contents last left in the block, recycling the least recently used one, or panics exactly when bget does |
| `BufferCache.Cache.Brelse` | bio.c:118-141 | Releasing changes the lock and the count of that buffer only, and no block's dirtiness |
| `BufferCache.Cache.WriteOut` | log.c:104-112 | Change, bwrite and brelse together: disk and contents both have the new data, by one block write |
| `Log.Log.RoomToCommit` | log.c:192-202 | A buffer can be recycled if and only if the blocks logged and the clean buffers in use are together fewer than NBUF |
| `Log.DirtyCount` | log.c:231 | There is exactly one dirty buffer for each logged block |
| `Log.RoomCount` | bio.c:78-92 | bget can recycle a buffer if and only if logged blocks and clean buffers in use leave one of the NBUF |
| `Log.Log.RoomAlone` | log.c:192-202 | With no buffer in use and a log of at most NBUF blocks, as mkfs.c:25 lays out, commit always has one to spare |
| `Log.ReaderStopsCommit` | log.c:192-202 | The witness that others matter: three operations log NBUF - 1 blocks in mkfs's log, one process that is in no operation reads a block (file.c:96-111), and commit panics |
| `Log.CopyLeaves` | log.c:183-188 | A copy between a log slot and a logged block leaves other processes the buffers they have, still unchanged by them, and none of the log |
| `Log.HeadLeaves` | log.c:101-113 | So does rewriting the header |
| `Log.Log.constructor` | log.c:53-65 | A log with nothing in it and nothing outstanding |
| `Log.Log.BeginOp` | log.c:125-141 | One turn of begin_op is exactly the admission step of `Reservation`, taken if and only if that step is enabled |
| `Log.Log.Find` | log.c:224-227 | The index of the block in the log, or the length of the log |
| `Log.Log.LogWrite` | log.c:213-233 | log_write is exactly the write step (absorbing repeats), pins the buffer dirty, keeps dirty buffers and logged blocks the same set, and panics exactly when the size test fails; the "outside of trans" panic is unreachable |
| `Log.Log.Put` | log.c:204-233 | The use log_write is for, bread to brelse: the block's contents become the new ones, it is logged and pinned, no block is written, others keep their buffers; it panics exactly when bget or log_write's size test does |
| `Log.Log.EndOp` | log.c:145-163 | end_op is exactly the end step and asks for a commit exactly for the last operation; the "log.committing" panic is unreachable |
| `Log.Log.EndCommit` | log.c:169-172 | Committing ends with the log empty |
| `Log.Log.ReadTwo` | log.c:183-184 | With others using buffers that are not the log's, the two breads of a copy return both blocks' contents if and only if some buffer could be recycled |
| `Log.Log.Copy` | log.c:183-188 | One block is copied over the other by one block write, if and only if some buffer could be recycled, and nothing else changes, for others neither |
| `Log.Log.FillHead` | log.c:107-110 | The loop produces the encoded header |
| `Log.Log.WriteHead` | log.c:101-113 | write_head is one block write of the encoded header, in cache and on disk |
| `Log.Log.LogBlock` | log.c:182-189 | One turn of write_log writes the block's contents into its log slot and leaves the transaction pinned |
| `Log.Log.WriteLog` | log.c:177-190 | write_log's block writes are exactly the first k log writes of the specification |
| `Log.Log.InstallBlock` | log.c:74-81 | One turn of install_trans writes the log slot to its home and unpins it |
| `Log.Log.InstallTrans` | log.c:69-82 | install_trans's block writes are exactly the first k installs of the specification; afterwards nothing is dirty |
| `Log.Log.AppliedIsStore` | log.c:192-202 | Applying the transaction to the disk gives what every home block was last left holding in the cache |
| `Log.Log.Commit` | log.c:192-202 | With any number of other processes using buffers, but not the log's and not changing what they have locked: commit's block writes are exactly the first k disk states of `CommitCrash`; recovery from where it got to gives what every home block was left holding if the header write is among them, and the disk of before otherwise; it completes if and only if nothing is logged or logged blocks plus clean buffers in use are fewer than NBUF, and then the disk holds what every home block was left holding, and others have what they had |
| `Log.Log.ParseHead` | log.c:91-94 | The loop decodes the header |
| `Log.Log.ReadHead` | log.c:84-96 | The in-memory list becomes the one in the on-disk header, without a block write |
| `Log.Log.Recover` | log.c:115-122 | recover_from_log writes exactly the states of recovery, cannot run out of buffers, and leaves a valid log and the recovered disk |
| `ProcTable.CoreScheduler` | proc.c:465-510 | Picking and dispatching a process, and an interrupt on an idle CPU, keep the core invariant |
| `ProcTable.CoreSettle` | proc.c:510-532 | Settling the process switched away from keeps it |
| `ProcTable.CoreWaker` | proc.c:668-690 | One access of wakeup1 keeps the core invariant |
| `ProcTable.CoreBegin` | proc.c:573-645 | Starting a sleep, wakeup, wait or exit, or a wakeup by an interrupt handler inside fork, keeps the core invariant; the compare-and-swap panics are not reached |
| `ProcTable.CoreBeginFork` | proc.c:110-120 | Reserving an UNUSED slot for a child keeps the core invariant |
| `ProcTable.CoreLeave` | proc.c:553-585 | yield's compare-and-swap and the switch into the scheduler keep it |
| `ProcTable.CoreUnfork` | proc.c:255-294 | Making the child RUNNABLE, or giving it up, keeps it |
| `ProcTable.CoreAdvanceReap` | proc.c:384-402 | wait's taking and freeing of a zombie keeps it |
| `ProcTable.CoreAdvanceClear` | proc.c:392-395 | wait's clearing of its fields keeps it |
| `ProcTable.CoreAdvanceExit` | proc.c:347-353 | exit's handing of children to init keeps it |
| `ProcTable.CoreStep` | proc.c:243-699 | Every step of every CPU keeps the core invariant: one holder per process, each process at a point its state allows, children reserved by one fork, no panic |
| `Wakeups.WaitingAsleep` | proc.c:371-424 | A process in wait's scan, or left there, is MINUS_SLEEPING or SLEEPING |
| `Wakeups.SettleStarts` | proc.c:524-530 | A child that becomes a zombie has its CPU in a wakeup1 for its parent, so nothing is lost |
| `Wakeups.HandOver` | proc.c:347-349 | A child handed to init by a concurrent exit is covered by the test that exit still has to make |
| `Wakeups.HandOverCheck` | proc.c:350-351 | The test starts the wakeup of init if the child is a zombie |
| `Wakeups.WakerPasses` | proc.c:670-687 | wakeup1 leaves its sleeper's slot only when that process is not asleep in wait |
| `Wakeups.WakerMoves` | proc.c:668-690 | One access of wakeup1 loses no pending wakeup |
| `Wakeups.StepKeeps` | proc.c:243-699 | Every step keeps: a parent past a zombie child's slot in wait has a waker still to reach it |
| `Wakeups.RunKeeps` | proc.c:243-699 | That holds at every state of every run from boot |
| `Wakeups.OneHolder` | proc.c:371-690 | At every state of every run: a process is RUNNING, MINUS_SLEEPING, MINUS_RUNNABLE or MINUS_ZOMBIE if and only if some CPU holds it, never two, and nothing has panicked |
| `Wakeups.RunnableAfterSwitch` | proc.c:510-532 | In every run a process becomes RUNNABLE only when no CPU is in its context |
| `Wakeups.RunStaysHeld` | proc.c:502-532 | A CPU in a process's context still holds it after any one step |
| `Wakeups.NoLostWakeup` | proc.c:347-425 | In every run, a parent asleep in wait with a zombie child has some CPU in a wakeup1 that has not passed its slot, or in an exit about to start one |
| `WaitLoop.ScanNotices` | proc.c:377-405 | In every run and at every point of a scan: with no child throughout, none has been noticed; a slot that has been a child throughout and is behind the scan has been noticed; one that has been a zombie child throughout is not behind it |
| `WaitLoop.WaitDecides` | proc.c:371-424 | In every run, when a process comes to the end of a scan: it takes a zombie, gives up or sleeps; it takes one if some child was a zombie all the while; with a child all the while and not killed it does not give up; with none it gives up; killed, it does not sleep |
| `Scheduling.PcKept` | proc.c:243-699 | A step of a CPU that is not running a process does not move that process on, unless it is a child that fork starts, and does not end its life |
| `Scheduling.EveryTurn` | proc.c:473-534 | In every run, from one end of a CPU's pass over the table to the next, no process is RUNNABLE all the while |
| `Scheduling.DispatchesRight` | proc.c:475-510 | In every run a CPU comes to run a process only by dispatching the one it picked, as that was left, and a frozen one only if it may run all the same; one it picks and does not run is frozen, may not, and is RUNNABLE again |
| `Scheduling.Resumes` | proc.c:553-645 | In every run a process that is preempted, or goes to sleep, next has the processor exactly where it was preempted, or where sleep returns |
| `Sleepers.WakerGoes` | proc.c:668-690 | wakeup1 leaves a slot only if its process is then not asleep on the channel |
| `Sleepers.WakesAll` | proc.c:524-530 | In every run, from the start of a wakeup (by a call, an interrupt, a process that becomes a zombie, or an exit that hands a zombie to init) to its end, no process is asleep on its channel all the while |
| `Sleepers.WokenOnly` | proc.c:515-520 | In every run the channel of a process asleep, or on its way, stays, and it becomes RUNNABLE if and only if a wakeup1 that has chosen it finds it SLEEPING, or it settles after being killed |
| `Sleepers.SleepsOnAsked` | proc.c:612-645 | In every run a process that calls sleep is asleep on the channel it gave, or on its way, until it is RUNNABLE again |
| `Sleepers.SpinChosen` | proc.c:670-687 | In every run wakeup1 spins on a slot only after finding it asleep and then on its channel, and has been there since |
| `Sleepers.WokenForChannel` | proc.c:670-687 | In every run a process that a wakeup1 wakes had that wakeup's channel when it was read; if it has been in one sleep since, that is the channel it is asleep on |
| `Sleepers.RunCleared` | proc.c:396-415 | In every run a process that has exited or is free, or is leaving wait, has no channel |
| `SpuriousWakeup.WakesAnother` | proc.c:670-687 | The witness that the condition is needed: a run from boot on two CPUs in which a wakeup for a parent in wait wakes it when it is asleep on something else |
| `Family.ChangeKin` | proc.c:347-402 | A change to a slot on which no other process relies keeps what every process in the middle of wait, exit or fork relies on about the slot it found |
| `Family.ForkKin` | proc.c:110-120 | Taking a slot in fork keeps it |
| `Family.ChildKin` | proc.c:255-294 | Naming, starting or giving up the child keeps it |
| `Family.ReapKin` | proc.c:347-402 | Reaping or handing over a child keeps it, although the parent was read earlier and no lock is held |
| `Family.StepKin` | proc.c:243-699 | Every step of every CPU keeps it |
| `Family.RunKin` | proc.c:243-699 | It holds at every state of every run from boot |
| `Family.StepParent` | proc.c:243-699 | What one step can do to a slot's parent and to a zombie |
| `Family.OwnChildren` | proc.c:347-402 | In every run: a slot's parent changes only by its own forking parent, its own exiting parent giving it to init, or its own parent reaping it; a zombie goes only when its own parent reaps it; a free slot has no parent |
| `Orphans.StepTended` | proc.c:243-699 | Every step keeps: a slot's parent is neither free, being made, nor a zombie, and if it is in exit, has not passed that slot |
| `Orphans.RunTended` | proc.c:243-699 | That holds at every state of every run from boot |
| `Orphans.ParentThere` | proc.c:346-356 | In every run, no slot is the child of a free slot, of a child being made, of a zombie or of a process done with exit, and a process in exit's scan has handed over every slot before the one it is at |
| `Orphans.HandedOver` | proc.c:346-356 | In every run, a slot that was the child of a process is, when that process is a zombie, init's, or has been reaped in between |
| `Granularity.TwoHolders` | proc.c:510-532 | On enough CPUs some run puts two of them in one process if and only if settling or waking is split into its single compare-and-swaps |
| `Granularity.SettlingSplit` | proc.c:515-522 | The run, when settling alone is split |
| `Granularity.WakingSplit` | proc.c:672-686 | The run, when waking alone is split |
| `Granularity.StepExclusive` | proc.c:510-532 | With both as single steps, no access lets a second CPU in |
| `Granularity.RunExclusive` | proc.c:510-532 | Nor does any run, on any number of CPUs |
| `Malloc.InsertedOk` | umalloc.c:24-44 | Putting a block in and merging it with each neighbour it touches keeps the list address-ordered, non-overlapping and fully coalesced, and adds exactly its units |
| `Malloc.RelinkedLinks` | umalloc.c:32-42 | free's header writes turn the circle through the old list into the circle through that new list |
| `Malloc.SpotWhen` | umalloc.c:30-31 | The two tests that stop free's search hold exactly at the one right place, the wrap included |
| `Malloc.PartitionFree` | umalloc.c:24-44 | Freeing moves the block's units from handed-out to free; every unit stays in exactly one of them |
| `Malloc.TakeWhole` | umalloc.c:75-76 | Unlinking a whole block keeps the list and the partition of units |
| `Malloc.TakeTail` | umalloc.c:77-81 | Cutting units off the end of a block keeps the list and the partition of units |
| `Malloc.Rounding` | umalloc.c:68-69 | The units after the header hold the request with less than one to spare if and only if the rounding does not wrap, and when the argument of sbrk stays positive |
| `Malloc.PassOne` | umalloc.c:74-85 | A trip round the list that meets only small blocks has seen them all |
| `Malloc.Heap.constructor` | umalloc.c:21-22 | No list and no memory yet |
| `Malloc.Heap.FindSpot` | umalloc.c:30-32 | free's search terminates and ends at the block to insert after |
| `Malloc.Heap.Relink` | umalloc.c:32-42 | The header writes of free, in order |
| `Malloc.Heap.Free` | umalloc.c:24-44 | free keeps the list circular, ordered, apart and coalesced; exactly the block's units become free; freep is left next to, or at, a block at least as big |
| `Malloc.Heap.Morecore` | umalloc.c:46-61 | On success the new region is free and a big enough block is at freep or next to it, even when it merged with its predecessor; on failure nothing changes |
| `Malloc.Heap.Take` | umalloc.c:74-84 | Exactly the units asked for are handed out, from a block of the list, whole or off its end |
| `Malloc.Heap.Start` | umalloc.c:70-73 | The first call makes the list of base alone, later ones change nothing |
| `Malloc.Heap.Malloc` | umalloc.c:63-90 | malloc terminates, asks sbrk exactly when no free block is big enough and then once, returns 0 exactly when sbrk then refuses, and otherwise hands out one new block of the right size; units from sbrk stay the free plus the handed-out ones |
| `FileSpec.MarkBit` | fs.c:66-68 | `data[bi/8] \|= m` marks that block and no other |
| `FileSpec.UnmarkBit` | fs.c:88-92 | `data[bi/8] &= ~m` unmarks that block and no other |
| `FileSpec.BallocedFresh` | fs.c:55-78 | A balloc'ed block is a data block, never 0 or metadata, that no pointer of any inode has |
| `FileSpec.GrowInode` | fs.c:378-388 | Pointing an empty slot of the inode to a balloc'ed block keeps all pointers distinct and the bitmap exact; a fresh indirect block reads as all absent |
| `FileSpec.GrowIndirect` | fs.c:389-395 | Putting a balloc'ed block into an indirect block does too |
| `FileSpec.GrewBlk` | fs.c:372-400 | No byte of any file changes when a block is allocated |
| `FileSpec.StoreKeeps` | fs.c:498-504 | Storing into a block that is no indirect block or bitmap block changes no pointer and no ownership |
| `FileSpec.SplicedContents` | fs.c:481-511 | Bytes written block by block make the splice of the old contents with the new bytes |
| `FileSpec.SplicedMore` | fs.c:498-504 | One trip of writei's loop extends the splice by its bytes, across block boundaries |
| `FileSpec.PutInode` | fs.c:220-236 | iupdate's stores are read back as the inode by ilock, and the other inodes of the block are unchanged |
| `FileSpec.KeptFiles` | fs.c:481-511 | A write that changes no inode leaves every file free of holes and on disk as in memory |
| `FileSpec.ExtendNoHoles` | fs.c:498-509 | A write that extends the file from at most its end leaves no hole |
| `FileSpec.FirstBlockThere` | fs.c:498-499 | The first block of an unaligned write at or before the end exists already |
| `FileSpec.FreedOne` | fs.c:414-430 | itrunc frees a pointer's block once: its bit was set, and only it changes |
| `FileSpec.FreedAll` | fs.c:407-435 | With all pointers freed and cleared, ownership and bitmap are exact again and other files are untouched |
| `FileSpec.FreeCount` | fs.c:60-77 | The blocks free in the bitmap and the ones that have an owner are together the data blocks |
| `FileSpec.LacksStep` | fs.c:372-400 | Bringing in one block of a file lowers what the write lacks by exactly what bmap takes, the indirect block counted once |
| `FileSpec.EnoughWithin` | fs.c:498-504 | A write within the file lacks nothing |
| `Layout.InodeOnDisk` | fs.h:29-36 | The fields of inode inum are at 512 * inodestart + 64 * inum of the disk, at the offsets of struct dinode, lowest byte first |
| `Layout.BitOnDisk` | fs.c:66-68 | A block is marked if and only if bit b % 8 of byte b / 8 of the bitmap is set |
| `Layout.ByteOfFile` | fs.c:372-400 | Byte x of a file is byte x % 512 of block addrs[x / 512], or of the block whose number is the four bytes at 4 * (x / 512 - 12) of block addrs[12] |
| `Layout.ByteOnDisk` | fs.c:372-400 | So it is by the bytes of the disk alone, the inode being on disk |
| `Layout.FilesOnDisk` | fs.c:372-476 | In a valid file system every file has the size its on-disk inode says, and each of its bytes is at the place on the disk that the pointers give |
| `Layout.LogOnDisk` | log.c:101-113 | When a transaction commits, the header block holds the count and then the block numbers, each in four bytes, and the contents follow it in order |
| `Files.Fs.constructor` | fs.c:41-95 | A file system of empty inodes, the bitmap marking exactly the metadata |
| `Files.Fs.Balloc` | fs.c:53-78 | balloc returns the first free block, marked and zeroed, logging its bitmap block and itself, and panics exactly when none is free |
| `Files.Fs.FillInode` | fs.c:378-388 | A direct or indirect pointer is filled exactly if it is 0; no byte of any file and no other pointer changes |
| `Files.Fs.FillIndirect` | fs.c:389-395 | The same for an entry of the indirect block |
| `Files.Fs.Bmap` | fs.c:372-400 | bmap returns the block's address, takes a block exactly for each pointer that was missing, changes no byte of any file and no other pointer, and panics only past MAXFILE or when the bitmap is full before it has them; what it logs is bounded (`Layout.ByteOfFile` says which address it is) |
| `Files.Fs.Iupdate` | fs.c:217-236 | The inode on disk becomes the one in memory; no pointer, file block or other inode changes |
| `Files.Fs.WritePiece` | fs.c:498-504 | One block patched with the bytes; every other block of every file unchanged |
| `Files.Fs.WriteBlocks` | fs.c:498-504 | The loop splices src in; pointers change only if the write goes past the end; blocks logged are at most one data block per block touched, one bitmap block per new block, one more for a new indirect block, and the indirect block |
| `Files.Extended` | fs.c:506-509 | After a write that extends the file, with size and iupdate done, all files are well formed and this one is spliced |
| `Files.Overwritten` | fs.c:498-511 | After a write within the file too, although iupdate does not run |
| `Files.Fs.Writei` | fs.c:481-511 | writei refuses exactly the bad offsets, panics exactly when the file lacks more blocks for the write than are free, and otherwise splices src into the file and leaves every other file alone; no file has a hole and every on-disk inode equals the one in memory; the blocks logged are bounded, and those taken are exactly the ones lacking |
| `Files.Fs.Affords` | fs.c:498-504 | The blocks lacking are at most those free if and only if the loop gets through |
| `Files.Fs.Readi` | fs.c:452-476 | readi returns exactly the slice clipped to the size, across direct and indirect blocks; although it calls bmap it changes nothing and cannot panic |
| `Files.Fs.ReadPiece` | fs.c:468-473 | One trip of readi's loop appends exactly the bytes of one block that are asked for |
| `Files.ChunkSpan` | file.c:128-138 | A chunk of filewrite touches so few blocks that the bound of writei is at most MAXOPBLOCKS, and one less when aligned |
| `Files.Fs.WriteOp` | file.c:140-145 | Each chunk, from begin_op to end_op, does what writei does, moves the offset past what it wrote, and logs at most MAXOPBLOCKS distinct blocks (the budget `Reservation` relies on), even if every allocation is in another bitmap block |
| `Files.WroteTwice` | file.c:135-152 | Two chunks one after the other are one splice |
| `Files.AcceptedIs` | file.c:128-139 | Of n bytes filewrite gets all past writei's tests if they end within 140 blocks, and otherwise as many three-block pieces as do |
| `Files.Fs.NextOp` | file.c:135-152 | One trip of filewrite's loop: one more chunk written and paid for, or the panic for want of blocks for the whole, or a refusal |
| `Files.Paid` | file.c:135-152 | When the loop ends, the blocks taken are those the whole write lacked |
| `Files.Unpaid` | file.c:135-152 | A chunk that cannot be paid for means the whole write lacks more blocks than were free |
| `Files.Fs.Filewrite` | file.c:117-156 | filewrite splices the first `done` bytes and moves the offset past them, returns n or -1 accordingly, stops early exactly at a chunk writei refuses, and panics exactly when the file lacks more blocks than are free for the bytes before that |
| `Files.Fs.Bfree` | fs.c:80-95 | The block's bit is cleared; it panics exactly if it was clear |
| `Files.Fs.FreeDirect` | fs.c:414-419 | Exactly the direct blocks are freed, without a panic, and their pointers cleared |
| `Files.Fs.FreeIndirect` | fs.c:421-431 | Exactly the listed blocks and the indirect block are freed, without a panic |
| `Files.Fs.Itrunc` | fs.c:407-435 | The file is empty, a block is marked afterwards if and only if it was and the inode did not point to it, and every other file is unchanged |
| `Files.Fs.Mount` | fs.c:287-307 | A consistent file system on disk gives a valid one in memory with its inodes |
| `Storage.AgreeCore` | mkfs.c:98-103 | Consistency of pointers and bitmap depends only on the blocks from the inodes on, none of them the log's |
| `Storage.AgreeFiles` | fs.c:287-307 | So do the inodes ilock would load and the contents of the files |
| `Storage.MountsStore` | fs.c:287-307 | A disk with the blocks of a file system mounts as its files |
| `Storage.MountsHome` | log.c:69-82 | What is in the log makes no difference to mounting |
| `Storage.ClearRecovers` | log.c:115-122 | Between commits recovery changes no file |
| `Storage.CutCommit` | log.c:192-202 | A commit cut off after any of its block writes recovers to a consistent file system: the files of after if the header write was done, those of before otherwise |
| `Storage.CommitSurvives` | log.c:192-202 | So it is after every block write of the history of a commit |
| `Storage.CommitFiles` | log.c:192-202 | commit with files on top: every disk it goes through recovers to the files on disk before or to the files as they are now; at its end the disk has the latter |
| `Storage.PutOne` | log.c:213-233 | One more block of an operation reaches the cache and the log; it fails only for want of log space or of a buffer |
| `Storage.PutAll` | log.c:213-233 | The blocks an operation logged, in any order, bring cache and log to the operation's result without a block write |
| `Storage.WriteLogged` | file.c:140-145 | A chunk of filewrite up to end_op's critical section: the files have it or writei refused it, nothing is written to disk, and it panics only when no block is free, the log is too small, or the buffers run out |
| `Storage.WriteChunk` | file.c:140-145 | A chunk to its end: every disk it goes through recovers to a consistent file system with the files on disk before, or those with the chunk; once a chunk that commits has returned, the disk has it |
| `Storage.NextChunk` | file.c:135-152 | Within filewrite: every disk recovers to the files with a number of three-block pieces of src written, or all of it |
| `Storage.WriteFile` | file.c:117-156 | filewrite down to the disk: whichever block write is the last before a power failure, recovery and mounting give a consistent file system in which a number of three-block pieces of src, or all of it, is written at the offset without a gap, and every other file is unchanged; on return what is reported written is on disk |
| `Storage.Boot` | log.c:53-65 | Whatever happened before: booting a disk from which recovery gives certain files leaves log, cache and file system valid, nothing pending, and the files those |
| `VmSpec.SetLookup` | vm.c:35-55 | Writing the entry found for one page changes that page's translation in that address space and no other |
| `VmSpec.MapUser` | vm.c:60-80 | Mapping a page just allocated keeps all pages of all address spaces distinct and not free |
| `VmSpec.UnmapUser` | vm.c:269-276 | Freeing a mapped page and clearing its entry keeps that |
| `VmSpec.SeenIs` | vm.c:44-53 | In an address space the directory takes nothing away: what the processor's walk through both levels allows is what the page's own entry allows |
| `VmSpec.AddTableOk` | vm.c:44-53 | A new page table, whose directory entry allows writing and the user, keeps that and changes no translation |
| `VmSpec.Skip` | vm.c:265-268 | Where the page table is absent, visiting every page up to the next table does nothing |
| `VmSpec.UnmapAllOk` | vm.c:255-279 | Visiting every page in a range unmaps exactly the mapped ones in it, changes no other translation, and puts exactly their pages on the free list |
| `Vm.Memory.constructor` | kalloc.c:20-24 | An empty allocator |
| `Vm.Memory.Freerange` | kalloc.c:46-53 | Exactly the whole pages of the range go on the free list |
| `Vm.Memory.Kalloc` | kalloc.c:82-95 | The head of the free list, or none exactly if it is empty |
| `Vm.Memory.Kfree` | kalloc.c:59-77 | The page goes to the head; panics exactly on a page outside the allocator's range |
| `Vm.Memory.Walk` | vm.c:32-55 | walkpgdir finds the page table; making one takes exactly one free page, adds exactly that place to the directory and changes no translation; it fails exactly if there is none and it may not, or cannot, make one |
| `Vm.Memory.MapOne` | vm.c:68-78 | One page is mapped, or there is no memory, or it was mapped already (panic), with exactly the page table as by-product |
| `Vm.Memory.Mappages` | vm.c:57-80 | Consecutive pages map to consecutive pages and nothing else changes; on failure exactly the pages before `stop` are mapped; the page tables added, and the free pages taken, are exactly the missing ones those pages are under |
| `Vm.Memory.UnmapPage` | vm.c:266-276 | The body of deallocuvm's loop is one visit of the page-by-page form |
| `Vm.Jump` | vm.c:267-268 | The jump to the next page table equals visiting the pages between |
| `Vm.Memory.Deallocuvm` | vm.c:251-279 | For all sizes up to KERNBASE memory is left exactly as by visiting every page, free list order included |
| `Vm.FreedEnd` | vm.c:284-298 | With user pages, page tables and directory pushed, each page of the address space is on the free list once |
| `Vm.Memory.FreeTables` | vm.c:291-296 | Exactly the page tables are pushed, each once |
| `Vm.Memory.Freevm` | vm.c:281-298 | freevm returns every page of the address space exactly once and leaves every other address space, and its contents, alone |
| `Vm.Memory.GrowPage` | vm.c:234-246 | A page is taken, filled and mapped, or the free pages were too few for it and its page table and what was taken is known |
| `Vm.Memory.GiveUp` | vm.c:235-246 | Both failure exits restore the translations and give back every page taken, page tables apart |
| `Vm.Memory.AllocPage` | vm.c:233-246 | One trip of allocuvm's loop maps one more cleared page, or gives everything back because the free pages were too few for the whole |
| `Vm.NewPages` | vm.c:219-249 | The processor sees the new pages as present, writable by the user and zero |
| `Vm.PaidShort` | vm.c:234-246 | A page that cannot be had means there were fewer free pages than the new pages and the page tables they lack |
| `Vm.Memory.Allocuvm` | vm.c:219-249 | On success exactly the new pages are mapped and the processor sees them cleared and writable by the user; it fails if and only if the free pages are fewer than the new pages and the page tables they lack, and then translations and contents are as before and pages are conserved, only page tables staying in the directory |
| `Vm.KernNext` | vm.c:129-134 | One entry of the kernel's map brings in exactly its pages, on pages not mapped before |
| `Vm.KernSize` | vm.c:105-115 | The kernel's map takes exactly 64 page tables, none of them under user addresses |
| `Vm.EntriesSeen` | vm.c:105-136 | The processor sees of the kernel's part low physical memory with the text read-only, and the devices, none of it the user's, and nothing else |
| `Vm.Memory.Setupkvm` | vm.c:117-136 | A new address space in which the processor sees exactly the kernel's map and no user page, for exactly 65 pages; it fails if and only if fewer are free, and then everything is given back |
| `Vm.Memory.Undo` | vm.c:132-133 | Freeing a new address space gives back exactly what was taken since before it was made |
| `Vm.Memory.CopyBad` | vm.c:335-344 | copyuvm's failure exit gives back every page |
| `Vm.EntriesCopied` | vm.c:313-345 | The processor sees in the child's pages what it sees in the parent's, allowing the same, in other physical pages |
| `Vm.CopyShort` | vm.c:330-344 | A page that cannot be had means there were fewer free pages than the directory, the kernel's 64 page tables, the pages and one page table for every 1024 of them |
| `Vm.Memory.Copyuvm` | vm.c:313-345 | The processor sees in the child's pages below sz what it sees in the parent's, with the same contents, in pages disjoint from all others, and no other user page; it succeeds if and only if every such page is there and that many pages are free; on failure every page is given back; the parent is unchanged |
| `Grep.FirstPiece` | grep.c:85-96 | A text is in the language of a list of items iff it is a piece for the first and then one for the rest |
| `Grep.BeginsOne` | grep.c:93-95 | A literal or dot at the front means one accepted character and then the rest |
| `Grep.BeginsMany` | grep.c:89-90 | A star means any number of accepted characters and then the rest |
| `Grep.BeginsEnd` | grep.c:91-92 | A final dollar means the end of the text |
| `Grep.MatchStar` | grep.c:98-106 | matchstar is true iff some number of accepted characters is followed by a match |
| `Grep.MatchHere` | grep.c:84-96 | matchhere is true iff some prefix of the text is in the pattern's language (and is all of it after a dollar); termination is by pattern, then text |
| `Grep.Match` | grep.c:72-82 | match is true iff the pattern occurs at some position, or at the start after a caret |
| `ShellLex.LexFindsWords` | sh.c:265-308 | The word tokens of a line are exactly its longest runs of ordinary characters, each once and in order |
| `ShellSpec.LineWords` | sh.c:344-446 | The command has exactly the words of the tokens it was made from, each as often |
| `ShellGrammar.ReadSimple` | sh.c:415-446 | A command with redirections before, between and after its words, by any of the three symbols, is read as the words in order inside the redirections in order |
| `ShellGrammar.ReadBlock` | sh.c:399-413 | So is a line in parentheses with redirections after it |
| `ShellGrammar.ReadPipe` | sh.c:361-372 | So is a pipe, which nests to the right |
| `ShellGrammar.ReadBack` | sh.c:349-353 | So are any number of ampersands |
| `ShellGrammar.ReadLine` | sh.c:344-359 | However a line is written, it is read as what it means, so precedence and nesting are as the grammar says |
| `ShellGrammar.WrittenLine` | sh.c:344-446 | Whatever is read was written in one of those ways, with that meaning |
| `ShellGrammar.Accepts` | sh.c:327-359 | The tokens of a line are accepted as a command if and only if they are one of the ways to write it |
| `ShellGrammar.LineWritten` | sh.c:344-446 | Every command tree the shell can represent can be written |
| `ShellGrammar.Rejects` | sh.c:382-440 | No line is accepted in which a redirection has no word after it, parentheses do not match, or a command has a tenth word |
| `ShellText.LineAlike` | sh.c:344-446 | The grammar does not look into words: replacing the words of the tokens replaces those of the command |
| `ShellText.LexShown` | sh.c:265-308 | Lexing a line to which tokens were written, with any blanks that keep them apart, gives those tokens, each word as its characters |
| `ShellText.ReadsBack` | sh.c:327-359 | However a line of characters is written, parsecmd makes of it the command it means |
| `ShellText.HasLine` | sh.c:327-359 | Every command with words that can be written has a line of characters from which parsecmd makes exactly that command |
| `Shell.GetToken` | sh.c:265-308 | The cursor loops find exactly the token of the specification and where it ends |
| `Shell.Peek` | sh.c:310-320 | The next non-blank position, and whether its character is one of the given |
| `Shell.ParseRedirs` | sh.c:374-397 | Exactly the redirections the grammar gives for the tokens ahead, or a panic exactly when it does (`ShellGrammar.Accepts` says which those are) |
| `Shell.ParseArgs` | sh.c:429-444 | The same for the arguments of a command, at most MAXARGS - 1 |
| `Shell.ParseExec` | sh.c:415-446 | The same for a command |
| `Shell.ParseBlock` | sh.c:399-413 | The same for a parenthesised line |
| `Shell.ParsePipe` | sh.c:361-372 | The same for a pipe; the recursion terminates |
| `Shell.ParseLine` | sh.c:344-359 | The same for a line; the mutual recursion terminates |
| `Shell.TerminateArgs` | sh.c:465-466 | A NUL at the end of each argument and nowhere else |
| `Shell.NulTerminate` | sh.c:448-493 | A NUL where a word of the command ends, and nowhere else |
| `Shell.WordsReadBack` | sh.c:448-493 | No NUL lands inside a word: every stored pointer reads as exactly its word |
| `Shell.ParseCmd` | sh.c:327-342 | The line in the buffer is accepted exactly if the grammar takes all its tokens; then every word of the line is in the command once and reads back from the buffer as itself; a rejected line leaves the buffer alone |

## Left out

- BufferCache.Cache.Bread: models a bread whose buffer no other process has locked; waiting for a sleep lock is `AcquireSleep` returning false.
- Log.Log.Commit: other processes may have buffers, unused or locked for reading, when commit starts; that they take or release some while it runs is not modelled, and that they have none of the log's is assumed, here and in its parts.
- Storage.WriteChunk: requires that no buffer is locked when it starts; other operations may be in progress, but what they do while it runs is not modelled.
- Storage.WriteFile: requires that no other operation is in progress; `Storage.WriteChunk` does not.
- Log.Log.LogWrite: requires the caller to stay within MAXOPBLOCKS distinct blocks, which `Files.Fs.WriteOp` proves for file writes only; other system calls are not modelled.
- Malloc.Heap.Malloc: works in header units, so that sbrk's answer is a multiple of the header size is assumed, and requests are below 2^31 - 15 bytes, where sbrk's argument stays positive.
- Files.Fs.Writei: device inodes (T_DEV) are not modelled; the inode cache and its reference counts are replaced by one in-memory inode per inode number.
- Files.Fs.Readi: device inodes (T_DEV) are not modelled.
- Files.Fs.Filewrite: assumes that no other process writes to the file between two chunks, where the inode lock is dropped (file.c:140-145); pipes are not modelled.
- Vm.Memory.Mappages: takes a range in the kernel's part of the address space, or one user page just allocated, which are its uses; several user pages at once are not modelled.
- Vm.Memory.Copyuvm: requires a size of at most KERNBASE, which allocuvm's test keeps process sizes under.
- Vm.Memory.Allocuvm: requires that no page between the two sizes is mapped, which is what its callers ensure by passing the process size.
- Wakeups.NoLostWakeup: says that a waker is still to come, not when; the spinning in wakeup1 and the scheduler have no bound.
- Sleepers.SleepsOnAsked: the lock that sleep releases is not modelled, so nothing is said of a wakeup that its holder makes.
- ProcTable.CoreBegin: a process sets its own killed and frozen flags, as signal handling on return to user space does; signals and the pending set that sends them are not modelled, and whether a frozen process may run all the same (proc.c:429-449) is an input of the step.
- Reservation.ReservationHolds: the numbers of waiting operations and the sleep and wakeup on the log are not modelled.
- pipe.c: the ring buffer would only add easy members.
- Signals (proc.c:720-990), process ids, pids returned by wait, kernel stacks and trap frames.
- ialloc, iget, iput, directories and path names, link counts (fs.c, sysfile.c).
- Device drivers, interrupts, the console, boot code and assembly; swtch is one step.
- growproc, exec, inituvm, loaduvm, clearpteu and copyout.
- grep's reading of lines, and runcmd and the other user programs.
- mkfs.c, apart from the layout its superblock describes.
