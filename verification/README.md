# A verified model of Voxia's core

Voxia is an x86_64 SMP kernel.  This project models the parts of it whose
correctness is hardest to see by reading, and proves what they promise.
Hardware (paging, interrupts, context switches, physical windows) is left out:
a suspension is a step, a physical window is the array behind it, a lock makes
what it protects one step.

`dafny verify dfyconfig.toml` checks everything.

| files | what they model |
|---|---|
| `BitMath`, `Canonical`, `Rfc1951` | numbers as bits, canonical Huffman codes and DEFLATE itself, written from sections 3.2.2 to 3.2.7 of RFC 1951 and independent of the kernel's code; the one parameter is how many literal and length codes a block may have (RFC 1951: 286) |
| `BitReverse`, `Huffman`, `Inflate` | the kernel's decoder: table building, the 9-bit fast table and the slow path, the bit reservoir, the block loop |
| `Readahead`, `HlitLimit`, `Streams`, `Samples` | how many bytes the decoder asks for, where it accepts more than RFC 1951, complete streams, and two concrete streams |
| `Deflate`, `DeflateStream`, `DeflateBytes` | a DEFLATE writer, from the same sections of RFC 1951: numbers, codes, tokens, run-length coded code lengths, blocks, streams and bytes |
| `Workqueue`, `WorkqueueRuns`, `WorkqueueTrace`, `WorkqueueLeak`, `WorkqueueFair` | the per-core work queues with cross-core dependencies and the module loader's references, as interleaved atomic steps, one program counter for each worker: safety, what the actions of a run say of its tasks, which tasks are freed, progress under every schedule |
| `BlockWake`, `SleepWake`, `TtyRead` | `thread_block` and `thread_sleep` against any number of `vxThreadWake`, and a canonical-mode terminal reader on top of `thread_block` |
| `Lists`, `Ring`, `RunQueue` | lists, circular lists, a core's run queue and its selection loop |
| `Dentry`, `DentryPath`, `DentryNames`, `DentryTree`, `Namespace` | the dentry cache, its references, path resolution, path printing, what a path means in names, subtree deletion |
| `PhysBitmap`, `GrowBitmap`, `Slab`, `Kalloc` | the four allocators |
| `UserStack`, `UserAux` | the initial stack of a process, the walk a program makes over it and what it finds there |
| `Checksum` | the two Internet checksum routines |

Conventions.  Machine integers are unbounded here; where the width matters it is
written out (16-bit carries and 32-bit sums in `Checksum`, 64-bit words in
`UserStack`, the 32-bit reservoir in `Inflate`).  Shifts and masks on disjoint
bits are written as multiplication, division and addition.  A bitmap is a
sequence of bits, and testing a word of it is testing its 64 bits.  Concurrent
code is a state machine over sequentially consistent atomic steps, with fields
that record history (`starts`, `returned`, `handed`, `live`) beside the
kernel's own; theorems are about every state that any run reaches.  Where the
code does not look where its memory ends, reading or writing past it is a fault
in the model, and the contract says exactly when that happens: the decoder (the
bytes it asks for are not there), `elf_prepare_stack` (the stack is too small),
`grow_bitmap_free_pages` (the range runs over its block), `vxnamei` (a component
is too long to be copied).  The reference counts of the work queue and of the
dentries, task numbers and `workqueue_count` do not wrap.  `call_rcu` is a
pending multiset with a later step that frees.

Places where the code does something a reader may not expect, kept as they are:

- The work queue's caller can drop its reference between the worker's own drop
  and the worker's store of FINISHED.  If it also loads `in_use` in that window,
  nobody is left to mark the finished task EMPTY.  `WorkqueueLeak` gives such a run
  (`LeavesOrphan`) and proves that a task without references is lost in exactly
  this way and in no other (`OrphanIff`, `FreeableIff`).
- A module whose load is given up keeps the references it took, so its
  dependencies are never freed (`WorkqueueLeak.GivenUpIsNeverFreed`).
- The decoder takes 287 and 288 literal and length codes, which RFC 1951 does
  not allow: it agrees with RFC 1951 if and only if no such header is met
  (`HlitLimit.AgreesIff`), and accepts a stream that RFC 1951 refuses
  (`Samples.AcceptsOversized`).
- The decoder reads up to three bytes past the end of a stream; three are enough
  (`Streams.DecodeStream`) and two are not (`Samples.TwoAreNotEnough`).
- Detaching the node that ran last passes its successor over, which then waits a
  full round.  That is the only detach that makes a thread wait longer
  (`RunQueue.DetachDelays`), and it breaks the one-round bound
  (`RunQueue.PassedOverWaits`).
- `thread_sleep` looks for a pending wake before it stores BLOCKED, so a wake in
  between is lost until the timer (`SleepWake.LostIff`, `SleepWake.TimerEnds`);
  `thread_block` stores first and loses none (`BlockWake.EveryWakeArrives`).
- The timer tick's search for the next thread stops where it started; if it has
  just detached that node, it stops only at a runnable thread
  (`RunQueue.TickSearchEnds`).
- Detaching a run-queue node that is in no ring empties the whole queue
  (`RunQueue.Queue.Detach`).
- A slab with a single block goes back to the partial list, never to the free
  list (`Slab.Fitting`).
- `vxnamei` takes "." and ".." for ordinary names and does not trim, unlike
  `resolve_dentry`.
- The stack pointer a program starts with is aligned to 16, as the psABI promises,
  if and only if argv and envp together hold an odd number of strings; otherwise
  it is off by 8 (`UserAux.AlignedIff`, `UserAux.Misaligned`).

## Model

| member | source | states |
|---|---|---|
| `Canonical.OwnerUnique` | kernel/libk/ssfn.h:511-523 | the code lengths split the 16-bit code space: no 16-bit window belongs to two symbols |
| `Canonical.FeasibleIsKraft` | kernel/libk/ssfn.h:508-522 | the builder's per-length checks succeed exactly for the length arrays that satisfy Kraft's inequality |
| `Canonical.DecodeCode` | kernel/libk/ssfn.h:580-606 | bit-by-bit decoding, as section 3.2.2 of RFC 1951 defines the codes, finds the symbol whose code comes next and consumes exactly its length |
| `BitReverse.BitReverseIsRev` | kernel/libk/ssfn.h:484-496 | the mask-and-shift reversal followed by the shift is the reversal of the low bits, for every word and length |
| `Huffman.FastOwnerUnique` | kernel/libk/ssfn.h:531-537 | no two codes write the same slot of the fast table |
| `Huffman.FastFilled` | kernel/libk/ssfn.h:531-537 | a fast slot is nonzero exactly when the reversed code lies below `maxcode[9]` |
| `Huffman.FastDecode` | kernel/libk/ssfn.h:594-606 | a nonzero fast slot holds the symbol and length that bit-by-bit decoding gives; a zero one means the code is longer than nine bits |
| `Huffman.SlowDecode` | kernel/libk/ssfn.h:580-592 | between `maxcode[s-1]` and `maxcode[s]` the slow path's index is the rank of the symbol that bit-by-bit decoding finds, and that symbol has length s, so the size check cannot fail |
| `Huffman.SlowNone` | kernel/libk/ssfn.h:580-586 | above `maxcode[15]` no code matches |
| `Huffman.Tables.Build` | kernel/libk/ssfn.h:498-542 | the builder accepts exactly the arrays within Kraft's inequality, complete or not, and then the tables describe the canonical code: code ranges, symbols in order, and every fast slot |
| `Inflater.LengthTable` | kernel/libk/ssfn.h:627-628 | the static length tables are those of section 3.2.5 of RFC 1951 |
| `Inflater.DistTable` | kernel/libk/ssfn.h:629-630 | the static distance tables are those of section 3.2.5 of RFC 1951 |
| `Inflater.DezigzagTable` | kernel/libk/ssfn.h:667 | the table of the order in which code length codes are sent is that of section 3.2.7 of RFC 1951, given there as a closed form |
| `Inflater.ZBuf.FillBits` | kernel/libk/ssfn.h:562-568 | filling keeps the reservoir equal to the unread bits of the stream, below 2^num_bits with num_bits at most 32, and faults exactly if fewer than (32 - num_bits) / 8 bytes are left |
| `Inflater.ZBuf.Receive` | kernel/libk/ssfn.h:570-578 | receives exactly the next n bits of the stream, least significant first, and fills the reservoir only if they are not there |
| `Inflater.ZBuf.Decode` | kernel/libk/ssfn.h:580-606 | fast table and slow path together return the symbol, and consume the bits, of bit-by-bit decoding |
| `Inflater.ZBuf.Copy` | kernel/libk/ssfn.h:658-660 | the copy, with its shortcut for distance 1, is the byte-by-byte overlapping copy |
| `Rfc1951.CopyBackPeriodic` | kernel/libk/ssfn.h:658-660 | the overlapping copy repeats the last dist bytes |
| `Inflater.ZBuf.ParseHuffmanBlock` | kernel/libk/ssfn.h:632-663 | emits exactly the output of a compressed block (section 3.2.3 of RFC 1951) or refuses exactly a malformed one |
| `Inflater.ZBuf.ParseUncompressedBlock` | kernel/libk/ssfn.h:708-729 | emits exactly the bytes of a stored block, after draining the reservoir to a byte boundary |
| `Inflater.ZBuf.ComputeHuffmanCodes` | kernel/libk/ssfn.h:665-706 | reads the code lengths section 3.2.7 of RFC 1951 gives, in the order of its own table and with repeats, for up to 288 literal and length codes, and leaves tables that describe both codes |
| `Inflater.ZBuf.InitZdefaults` | kernel/libk/ssfn.h:731-740 | fills in the fixed code lengths of section 3.2.6 of RFC 1951 |
| `Inflater.ZBuf.ParseZlib` | kernel/libk/ssfn.h:742-762 | the block loop agrees with the reference on result, position and refusal, and faults exactly if memory ends before the bytes it asks for |
| `Inflater.ZlibDecode` | kernel/libk/ssfn.h:764-773 | on any memory: a fault if and only if the decoder asks for more bytes than there are, else the output of the reference or a refusal of a malformed stream |
| `Readahead.LateInflate` | kernel/libk/ssfn.h:562-578 | the decoder asks for a byte past the end only if the reference result is not decided three bytes before it |
| `Readahead.OneBlock` | kernel/libk/ssfn.h:742-762 | what is decoded and what is asked for go on from block to block together |
| `HlitLimit.AgreesIff` | kernel/libk/ssfn.h:672-675 | reading with the kernel's limit gives the result and position of RFC 1951 if and only if no dynamic header with more than 286 literal and length codes is met before the stream is decided; if one is, RFC 1951 refuses the stream |
| `HlitLimit.VerdictsDiffer` | kernel/libk/ssfn.h:672-675 | the verdicts differ exactly on the streams with such a header that can be read to the end |
| `Streams.DecodeStream` | kernel/libk/ssfn.h:742-773 | every complete stream without an oversized header decodes to what RFC 1951 says and every complete malformed one is refused, whatever three or more readable bytes follow; with such a header it decodes to what a reading without that check gives |
| `Deflate.ClenAt` | kernel/libk/ssfn.h:678-681 | the length of each of the 19 code length codes is the number sent at its place in the order, or zero if none was sent |
| `Deflate.ClensBack` | kernel/libk/ssfn.h:678-681 | any 19 code length lengths, written in that order, read back |
| `Deflate.ItemsBack` | kernel/libk/ssfn.h:684-702 | code lengths written with any mix of plain lengths, copies of the previous one and short and long runs of zeros read back |
| `Deflate.TokensBack` | kernel/libk/ssfn.h:632-663 | any literals and matches written with any two codes that are not over-subscribed, and the end of the block, read back as what they stand for |
| `Deflate.StoredBack` | kernel/libk/ssfn.h:708-729 | any string of up to 65535 bytes written as a stored block reads back |
| `DeflateStream.PartBack` | kernel/libk/ssfn.h:665-762 | a written block of any of the three kinds, with any header RFC 1951 allows, reads back |
| `DeflateStream.StreamBack` | kernel/libk/ssfn.h:742-762 | any sequence of written blocks, whatever follows it, reads back as what it stands for, to the bit where it ends |
| `DeflateBytes.DecodeWritten` | kernel/libk/ssfn.h:742-773 | the kernel's decoder, given the bytes of any written stream and any three bytes after it, succeeds and returns what the stream stands for |
| `DeflateBytes.StoredStreamOut` | kernel/libk/ssfn.h:708-762 | every byte string of any length is what some stream stands for, as stored blocks of 65535 bytes |
| `Samples.TwoAreNotEnough` | kernel/libk/ssfn.h:562-568 | a well-formed stream of eight bytes for which the decoder asks for eleven, so that two bytes after it are not enough |
| `Samples.AcceptsOversized` | kernel/libk/ssfn.h:672-675 | a stream with 287 literal and length codes that RFC 1951 refuses and the kernel's reading decodes |
| `Workqueue.StepKeeps` | kernel/procc/workqueue.c:22-172 | every atomic step of every worker keeps the invariant: reference counts, stages, lists, who may mark a task EMPTY, what each worker relies on |
| `Workqueue.ActKeeps` | kernel/modules/voxmo.c:135-174 | so does every step of the loader (take, give up, submit, release) and of any other submitter |
| `Workqueue.TakeKeeps` | kernel/modules/voxmo.c:161-162 | taking a reference on a dependency while the caller's is held keeps the count equal to its holders |
| `Workqueue.AddKeeps` | kernel/procc/workqueue.c:199-226 | a new task joins the end of a list with two references and takes over its dependencies'; which dependencies, core and place it gets is `WorkqueueTrace.EveryTaskAsSubmitted` |
| `Workqueue.ReleaseKeeps` | kernel/modules/voxmo.c:366-375 | the caller's release keeps the invariant, and the caller then has the right to mark it EMPTY if and only if it dropped the last reference |
| `WorkqueueRuns.EveryRunIsSafe` | kernel/procc/workqueue.c:22-172 | in every run from the start, the next action touches no freed task, every count is worker hold + caller hold + undropped dependents + leaked, and every function has run at most once |
| `WorkqueueRuns.OneLastDrop` | kernel/procc/workqueue.c:90-130 | in every run at most one step sees a task's count go from one to zero |
| `WorkqueueRuns.RightFromLastDrop` | kernel/procc/workqueue.c:96-124 | a party gets the right to mark a task EMPTY only by its own step that took the count from one to zero |
| `WorkqueueRuns.OnlyThatPartyClears` | kernel/procc/workqueue.c:100-124 | only that party stores EMPTY, and only once nobody holds it |
| `WorkqueueRuns.RightIsSole` | kernel/modules/voxmo.c:367-372 | no two parties have that right for one task |
| `WorkqueueRuns.NoUseAfterFree` | kernel/procc/workqueue.c:138-164 | whatever any party is about to read or write through a pointer has not been freed |
| `WorkqueueRuns.FreedIsUnheld` | kernel/procc/workqueue.c:142-161 | a freed task is held by nobody and on no list of dependencies still to be dropped |
| `WorkqueueRuns.EmptyIsFreed` | kernel/procc/workqueue.c:142-161 | a task the cleanup pass finds EMPTY has no references left and is unlinked and freed by that pass |
| `WorkqueueRuns.RunsOnceAfterDependencies` | kernel/procc/workqueue.c:50-88 | a function runs at most once, and when it starts the functions of all its dependencies have returned |
| `WorkqueueTrace.EveryTaskAsSubmitted` | kernel/modules/voxmo.c:135-174 | in every run, from the actions alone: the tasks are those queued, in order; a module's has its core and, as dependencies, exactly what was taken since the last module was queued or given up; any other has none; the references leaked are exactly those taken for modules given up |
| `WorkqueueTrace.CallsRecorded` | kernel/procc/workqueue.c:79-88 | a task's record counts the calls of its function in the run, and says it has returned if and only if one has |
| `WorkqueueTrace.CalledOnceAfterDependencies` | kernel/procc/workqueue.c:50-88 | in every run, when a function is called it has not been called before, and the function of every dependency its submitter took has returned |
| `WorkqueueTrace.SleepsWhenDone` | kernel/procc/workqueue.c:27-34 | in every reachable state an idle worker whose submitters have counted their tasks sleeps on if and only if every task queued on its core is done |
| `WorkqueueTrace.AnyModuleCanBeQueued` | kernel/modules/voxmo.c:135-174 | from every reachable state before the releases, some run queues a module with any given dependencies on any given core |
| `WorkqueueTrace.AnyModuleCanBeGivenUp` | kernel/modules/voxmo.c:135-174 | and a load can be given up there, which leaks exactly the references taken for it |
| `WorkqueueRuns.OldestIsReady` | kernel/procc/workqueue.c:50-80 | the dependencies the oldest BUSY task waits for are all FINISHED, never EMPTY |
| `WorkqueueRuns.OldestFinishes` | kernel/procc/workqueue.c:27-140 | steps of its worker alone bring the oldest BUSY task to its end, whatever the worker was doing |
| `WorkqueueRuns.AllFinish` | kernel/procc/workqueue.c:27-172 | no deadlock: from every reachable state every task can still run, exactly once, without another step of the loader |
| `WorkqueueFair.OldestFinishesAnyway` | kernel/procc/workqueue.c:27-140 | in every run in which nothing new is queued on its core, the oldest BUSY task has finished once its worker has made a stated number of steps, whatever the others do meanwhile |
| `WorkqueueFair.AllFinishAnyway` | kernel/procc/workqueue.c:27-172 | in every run without new tasks in which every worker makes that many steps in each of as many rounds as there are BUSY tasks, all of them finish |
| `WorkqueueLeak.BusyUnheld` | kernel/procc/workqueue.c:118-127 | a BUSY task without references has its worker at the store of EMPTY or FINISHED |
| `WorkqueueLeak.OrphanBorn` | kernel/procc/workqueue.c:118-127 | a step makes an orphan (FINISHED, no references, nobody with the right to mark it EMPTY) if and only if it is a worker's store of FINISHED at zero references after the caller has looked |
| `WorkqueueLeak.OrphanIff` | kernel/modules/voxmo.c:366-375 | a run from the start leaves a task an orphan if and only if one of its steps was such a store |
| `WorkqueueLeak.OrphanIsNeverFreed` | kernel/procc/workqueue.c:142-161 | an orphan stays one and is not freed, in every run |
| `WorkqueueLeak.FreeableIff` | kernel/procc/workqueue.c:100-161 | a task that has run and has no references left can still be freed if and only if it is not an orphan |
| `WorkqueueLeak.RightClears` | kernel/procc/workqueue.c:100-109 | the party with the right to a finished task marks it EMPTY, alone, in at most two steps |
| `WorkqueueLeak.LeavesOrphan` | kernel/modules/voxmo.c:366-375 | a run of one task that ends with it an orphan |
| `WorkqueueLeak.GivenUpIsNeverFreed` | kernel/modules/voxmo.c:135-174 | a task with a reference that a given-up load took is not freed, in every run |
| `BlockWake.ActKeeps` | kernel/procc/scheduler.c:484-520 | every interleaved step of the thread and of any number of wakers keeps the flag protocol's invariant: a wake stored since the last clearing is pending, or still has RUNNING to store, or the thread is no longer BLOCKED |
| `BlockWake.NoLostWakeup` | kernel/procc/scheduler.c:866-875 | while the thread is suspended in BLOCKED, every wake that started since it last cleared `wake_pending` has yet to store RUNNING |
| `BlockWake.EveryWakeArrives` | kernel/procc/scheduler.c:484-520 | in every run, when a thread calls `thread_block` once and is then suspended in BLOCKED, every wake that started since any moment before the call at which it was outside is still on its way, ends the suspension by itself in at most three steps, and the thread then returns |
| `BlockWake.FlagsRecorded` | kernel/procc/scheduler.c:484-520 | in every run `wake_pending` is set if and only if a wake has stored it since the thread last cleared it, and the state is BLOCKED if and only if that was the last store to it |
| `BlockWake.StoresIfFound` | kernel/procc/scheduler.c:866-875 | in every run a wake stores RUNNING if and only if its load found BLOCKED |
| `BlockWake.ReturnsOnlyWoken` | kernel/procc/scheduler.c:484-520 | in every run, at the clearing before each return of `thread_block` a wake had stored `wake_pending` since the clearing before, or RUNNING since the thread stored BLOCKED |
| `BlockWake.SleepsUnwoken` | kernel/procc/scheduler.c:484-520 | in every run, a call with no wake pending leaves the thread suspended in BLOCKED after three steps, and it stays so as long as no wake takes a step |
| `BlockWake.ReturnsPaid` | kernel/procc/scheduler.c:484-520 | in every run the calls of `thread_block` are at most one more than the steps of wakers |
| `BlockWake.RunsOutside` | kernel/procc/scheduler.c:515-519 | outside `thread_block` the thread is RUNNING |
| `SleepWake.LostIff` | kernel/procc/scheduler.c:523-561 | in every run: while the thread is suspended in BLOCKED by `thread_sleep`, a wake that started since the call is over, and so lost, if and only if some step of it loaded the state after the thread's test of `wake_pending` and before its store of BLOCKED |
| `SleepWake.LosesWake` | kernel/procc/scheduler.c:523-561 | a run that loses a wake |
| `SleepWake.TimerEnds` | kernel/procc/scheduler.c:244-258 | in every run a suspended sleeper returns in three steps, after the timer's scan if nothing else has resumed it |
| `SleepWake.FlagsRecorded` | kernel/procc/scheduler.c:523-561 | in every run `wake_pending`, the state and `wakeup_time` are what the last store to each made them |
| `SleepWake.ReturnsPaid` | kernel/procc/scheduler.c:523-561 | in every run the calls of `thread_sleep` are at most one more than the steps of wakers and of the timer |
| `TtyRead.ActKeeps` | kernel/tty/tty.c:1197-1316 | every step of reader, handlers and wakers keeps: from registering until it wakes, the reader is the waiter and no line is there, or a handler took it; outside a read it is not the waiter |
| `TtyRead.NeverLeftWaiting` | kernel/tty/tty.c:876-892 | in every run the reader is never left suspended in BLOCKED with a line there unless a handler still holds it as the thread to wake, and that wake alone makes it runnable |
| `TtyRead.LinesCounted` | kernel/tty/tty.c:876-892 | in every run the lines there are the newlines there was room for less the reads that copied out the end of a line |
| `TtyRead.WaiterRecorded` | kernel/tty/tty.c:888-891 | in every run the reader is the waiter if and only if it has looked without finding a line and has not been taken or left since, and each handler that takes it starts one wake |
| `TtyRead.ReadEndsIff` | kernel/tty/tty.c:1197-1316 | in every run a read ends if and only if it looks with a line there, or is interrupted without one; a look without a line makes the reader the waiter |
| `TtyRead.SuspendsWithoutLine` | kernel/tty/tty.c:1285-1289 | a reader that has found no line and has no wake pending is suspended |
| `TtyRead.ReadCompletes` | kernel/tty/tty.c:1197-1316 | from every reachable state a read with a line there can be completed, by the reader and the handler that took it alone |
| `TtyRead.NewlineEndsRead` | kernel/tty/tty.c:876-892 | in every run a newline there is room for lets a read be completed without a signal |
| `Ring.AddTail` | include/llist.h:23-34 | the new node becomes the last of the ring |
| `Ring.Del` | include/llist.h:36-46 | exactly the given node leaves the ring, and its links are cleared |
| `RunQueue.Queue.Attach` | kernel/procc/scheduler.c:732-764 | the node joins the end of the single ring; head, last and current stay consistent |
| `RunQueue.Queue.Detach` | kernel/procc/scheduler.c:41-80 | exactly the node leaves the ring and its successor takes over as current; a node in no ring empties the queue |
| `RunQueue.Queue.Select` | kernel/procc/scheduler.c:674-700 | selects the first runnable thread after the current one, once around, and makes it current; nothing is selected if and only if every node is without a thread or has one that has not started, has ended or is blocked |
| `RunQueue.PickIsNearest` | kernel/procc/scheduler.c:674-700 | a thread is found if and only if one is runnable, and it is the nearest one |
| `RunQueue.TickSearchEnds` | kernel/procc/scheduler.c:259-286 | the tick's search, when it has detached the node it starts from, ends if and only if some thread in the ring is runnable, and then within one round |
| `RunQueue.TickSearchFirst` | kernel/procc/scheduler.c:259-286 | what it finds is the first runnable thread from the head of the ring on |
| `RunQueue.RoundRobin` | kernel/procc/scheduler.c:674-700 | a thread that stays runnable is chosen within as many selections as the ring has nodes, plus one for each node attached and the rest of a round for each detach that passes it over |
| `RunQueue.DetachDelays` | kernel/procc/scheduler.c:41-80 | a detach makes a thread wait longer if and only if it takes out the node that ran last and the thread is its successor; then the thread waits a full round |
| `RunQueue.WithinOneRound` | kernel/procc/scheduler.c:674-700 | a thread that is never passed over is chosen within one round, counting the nodes attached meanwhile, whatever else is detached |
| `RunQueue.PassedOverWaits` | kernel/procc/scheduler.c:41-80 | a run in which a thread that is passed over is not chosen within one round |
| `Dentry.GetKeeps` | kernel/vfs/dentry.c:83-87 | taking a reference keeps buckets, flags, count and rings in agreement and every count equal to cache hold + living children + outside holders |
| `Dentry.PutKeeps` | kernel/vfs/dentry.c:89-96 | so does dropping one, which schedules the free exactly when it was the last |
| `Dentry.CachedIsHeld` | kernel/vfs/cache.c:72-77 | a cached entry, a parent and a held entry never reach zero |
| `Dentry.AddKeeps` | kernel/vfs/dentry.c:37-60 | creating, caching and holding a missing entry keeps everything in order |
| `Dentry.WiredAdded` | kernel/vfs/cache.c:72-95 | inserting keeps bucket, flag, count and ring describing the same entries |
| `Dentry.RemoveKeeps` | kernel/vfs/cache.c:145-167 | removing takes the entry out of bucket, ring, flag and count alike and drops the cache's reference |
| `Dentry.WaitingIsAlone` | kernel/vfs/dentry.c:62-81 | an entry waiting to be freed is not cached, has no children and is held by nobody |
| `Dentry.FreeKeeps` | kernel/vfs/dentry.c:62-81 | the deferred free drops the parent's reference and keeps everything in order |
| `DentryPath.LookupIsScan` | kernel/vfs/cache.c:97-120 | the cached child of a name is what a scan of the parent's ring finds |
| `DentryPath.PrintThenParse` | kernel/vfs/dentry.c:403-443 | resolving the printed path from the root finds the entry if and only if the path is at most 4096 characters long and every entry up to the root is cached with a name that is not empty, has no slash, is neither "." nor ".." and does not end in a space |
| `DentryPath.WalkStaysReachable` | kernel/vfs/dentry.c:107-229 | whatever path is resolved, the result and its ancestors are cached and cleanly named |
| `DentryNames.PiecesJoin` | kernel/vfs/dentry.c:121-126 | a path is cut at every slash and nowhere else |
| `DentryNames.ComponentsArePieces` | kernel/vfs/dentry.c:121-126 | the components seen are those pieces, without an empty last one |
| `DentryNames.TrimCuts` | kernel/vfs/dentry.c:128-133 | trimming cuts all spaces and slashes at the end of a component and nothing else |
| `DentryNames.PathIsNames` | kernel/vfs/dentry.c:403-443 | the printed path is the names from the root down, each after a slash |
| `DentryNames.WalkNames` | kernel/vfs/dentry.c:107-229 | whatever the tree and the path: what a walk reaches has the names that following the components gives, where an empty component and "." do nothing, ".." takes the last name away and any other adds one |
| `DentryNames.CleanWalkIff` | kernel/vfs/dentry.c:107-229 | a walk over clean names finds an entry if and only if the entry has those names and is cached with all above it |
| `DentryNames.DotDotIsParent` | kernel/vfs/dentry.c:135-146 | the printed path of a reachable entry with "/.." behind it leads to its parent, with "/." to itself |
| `DentryNames.RootDotDot` | kernel/vfs/dentry.c:135-146 | "/.." leads to the root |
| `DentryNames.RawWalkPath` | kernel/vfs/dentry.c:265-299 | what `vxnamei` reaches has exactly the non-empty components of the path as its names |
| `DentryNames.PathGiven` | kernel/vfs/dentry.c:231-305 | for a path of one or more plain names, the path printed for what `vxnamei` reaches is the path given |
| `DentryTree.ClearedTop` | kernel/vfs/dentry.c:308-340 | clearing the subtrees of all children and then the entry clears exactly its cached subtree |
| `Namespace.HoldersDecide` | kernel/vfs/dentry.c:118-229 | with the same entries and the same holders, all counts and pending frees are the same: a failed resolve leaves every count as it was |
| `Namespace.OneMoreReference` | kernel/vfs/dentry.c:118-229 | with one more holder, exactly that entry's count is one higher |
| `Namespace.WalkExtends` | kernel/vfs/dentry.c:173-208 | what a path led to it still leads to after entries have been created |
| `Namespace.Namespace.Lookup` | kernel/vfs/cache.c:97-120 | the bucket loop finds what a scan of the parent's ring would find, the cached child of that name if there is one, and holds it once more |
| `Namespace.Namespace.Resolve` | kernel/vfs/dentry.c:107-229 | finds what walking the components finds, an entry with the names that following them gives; adds one holder to it on success and none on failure, changes no entry unless asked to create, makes only entries the walk passes through, and what it creates is where the path leads from then on |
| `Namespace.Namespace.Namei` | kernel/vfs/dentry.c:231-305 | for every non-empty path makes what is missing on the way and nothing else and returns what the path then leads to, held once, whose printed path is the path's non-empty components; faults if and only if a component has more than 4096 characters |
| `Namespace.Namespace.FullPath` | kernel/vfs/dentry.c:403-443 | the loop prints the names from the root down, separated by slashes |
| `Namespace.Namespace.Delete` | kernel/vfs/dentry.c:308-340 | terminates and takes exactly the cached subtree out of the cache |
| `Namespace.Namespace.RunFree` | kernel/vfs/dentry.c:62-81 | the deferred free removes the entry and keeps the invariant |
| `PhysBitmap.NaiveIsFirstFit` | kernel/memory/phys_base_allocator.c:156-209 | a scan one block at a time finds the lowest run of free blocks, or none if there is none |
| `PhysBitmap.Allocator.Alloc` | kernel/memory/phys_base_allocator.c:156-209 | with word skipping, takes the run that scan takes, sets exactly its bits, and returns 0 exactly when there is no such run (block 0 being reserved) |
| `PhysBitmap.Allocator.Free` | kernel/memory/phys_base_allocator.c:231-240 | clears exactly the bits of the blocks given |
| `PhysBitmap.Allocator.FreeBlockCount` | kernel/memory/phys_base_allocator.c:218-229 | returns the number of free blocks |
| `PhysBitmap.FreeUndoesAlloc` | kernel/memory/phys_base_allocator.c:156-240 | an allocation lowers the free count by its size, and freeing what it returned restores every bit |
| `GrowBitmap.Bitmap.AllocPages` | kernel/libk/grow_bitmap.h:49-141 | takes the lowest run of free pages within a block; else doubles the blocks up to the limit and starts the first new one; 0 for a valid request only at full growth with no run |
| `GrowBitmap.Bitmap.FreePages` | kernel/libk/grow_bitmap.h:147-171 | clears exactly the pages of the range that lie in its block, and runs over the block's end exactly if the range does; addresses below the base or above the active blocks are ignored |
| `GrowBitmap.Bitmap.AddressBack` | kernel/libk/grow_bitmap.h:150-155 | freeing computes back the block and page an allocation gave out |
| `GrowBitmap.Bitmap.AddressesTile` | kernel/libk/grow_bitmap.h:89-138 | pages lie one after the other from the base on, across blocks |
| `GrowBitmap.Bitmap.BytesApart` | kernel/libk/grow_bitmap.h:89-138 | ranges that do not overlap have bytes that do not overlap |
| `GrowBitmap.Bitmap.constructor` | kernel/libk/grow_bitmap.h:21-47 | one empty block, and the limit for the capacity |
| `GrowBitmap.BlocksDouble` | kernel/libk/grow_bitmap.h:102-108 | over any history the number of blocks is that of doubling one block as often as it has grown, up to the limit |
| `GrowBitmap.RangesStayApart` | kernel/libk/grow_bitmap.h:49-171 | over any history of requests and frees, the ranges in use never overlap, never cross a block, and the bits set are exactly theirs |
| `Slab.Slab.constructor` | kernel/memory/slab.c:132-151 | a new slab chains all its blocks in order |
| `Slab.PushChain` | kernel/memory/slab.c:292-295 | a block put back heads a chain that is still distinct and linked |
| `Slab.PopChain` | kernel/memory/slab.c:174-184 | what follows the first block of a chain is again a chain without it |
| `Slab.Remove` | kernel/memory/slab.c:160-165 | unlinking takes exactly that slab out of a well-formed list |
| `Slab.PushFront` | kernel/memory/slab.c:167-171 | pushing puts a slab in front of a well-formed list |
| `Slab.Cache.Alloc` | kernel/memory/slab.c:99-210 | hands out a block that was not in use, from the first partial slab, else the first free one, else a new one; makes a new one only when every block is in use; never fails to find a block in the slab it picks, and leaves every slab on the one list its free count asks for |
| `Slab.Cache.Free` | kernel/memory/slab.c:275-333 | exactly the given block is free again and every slab is on its right list |
| `Slab.FittingPartial` | kernel/memory/slab.c:301-313 | a full slab that gets its first block back belongs on the partial list |
| `Kalloc.Refill` | kernel/memory/kalloc.c:92-109 | cuts a new page into slots that overlap nothing, all on the list of their class, with the right count |
| `Kalloc.AllocKeeps` | kernel/memory/kalloc.c:118-144 | taking the first slot of a list keeps every slot either in use or on exactly one list of its class, and the slot taken was not in use and has intact red zones |
| `Kalloc.FreeKeeps` | kernel/memory/kalloc.c:344-350 | giving a slot back to a list of its class, on any processor, does too |
| `Kalloc.Allocator.Alloc` | kernel/memory/kalloc.c:146-166 | returns a slot that was not in use, of the smallest class with room for request, header and red zones, off the front of the list of that class and processor, refilled with one page first if it was empty; no other list changes |
| `Kalloc.Allocator.Free2` | kernel/memory/kalloc.c:307-385 | a slot in use with intact red zones goes back to the class it came from on the processor that frees it; NULL, a slot with a damaged red zone and a slot already freed are left alone |
| `Kalloc.SetupRedzone` | kernel/memory/kalloc.c:58-62 | writes exactly the four words of a red zone |
| `Kalloc.CheckRedzone` | kernel/memory/kalloc.c:64-71 | succeeds if and only if all four words are intact |
| `Kalloc.Allocator.Overrun` | kernel/memory/kalloc.c:127-141 | a write to a red zone of an allocation in use keeps everything in order and changes that word only |
| `Kalloc.OverrunShows` | kernel/memory/kalloc.c:64-71 | after it the red zones are intact if and only if the word written is the one that belongs there and all others were |
| `Kalloc.FreedHasNoMagic` | kernel/memory/kalloc.c:316-322 | a slot freed and not handed out again carries no magic, so a second free changes nothing |
| `Kalloc.DataApart` | kernel/memory/kalloc.c:127-141 | what two allocations in use may write, red zones included, does not overlap |
| `UserStack.Builder.Prepare` | kernel/procc/process.c:106-200 | lays out vector, random bytes and strings below the top of the stack and returns the address of the lowest word, with an auxiliary vector that `UserAux.AuxLookup` describes tag by tag; runs over the end of the stack's memory if and only if that is smaller than what it needs |
| `UserStack.WalkRoundTrip` | kernel/procc/process.c:106-200 | walking user memory from that address recovers argc, every argv and envp string, both NULLs and the auxiliary vector; the vector ends below the random bytes, and these below the strings |
| `UserStack.AuxTerminated` | kernel/procc/process.c:151-182 | the auxiliary vector ends in AT_NULL and has no other such entry |
| `UserAux.AuxLookup` | kernel/procc/process.c:151-182 | looking up any tag, by its number in the psABI, gives what the loader had for it: program headers, page size, interpreter base only if there is one, entry point, user and group numbers, zero flags, the random bytes' address; and nothing for any other tag |
| `UserAux.ProgramSees` | kernel/procc/process.c:106-200 | a program that walks its stack finds its arguments, its environment and the loader's value under every tag |
| `UserAux.RandomSeen` | kernel/procc/process.c:143-147 | the address under AT_RANDOM is where the random bytes are |
| `UserAux.AlignedIff` | kernel/procc/process.c:149-199 | the stack pointer is aligned to 16 if and only if the strings of argv and envp are odd in number, and off by 8 otherwise |
| `UserAux.Misaligned` | kernel/procc/process.c:149-199 | one argument and one environment string give a misaligned one |
| `UserStack.Builder.PushStrings` | kernel/procc/process.c:123-141 | pushes the strings in order with their terminators and returns their user addresses |
| `Checksum.Adc` | kernel/net/netutils.c:26-47 | for data of any length, the add-with-carry loop gives the complement of the one's complement sum |
| `Checksum.Raw` | kernel/net/netutils.c:49-58 | the plain sum modulo 2^32, exact up to 131072 bytes |
| `Checksum.Fold` | kernel/net/tcp.c:130-131 | folding until nothing is left above 16 bits gives the one's complement sum |
| `Checksum.Segment` | kernel/net/tcp.c:198-207 | pseudo header, header and payload summed apart give the checksum of the whole segment, without overflow |
| `Checksum.SegmentSum` | kernel/net/tcp.c:126-133 | pieces of even length can be summed apart, and the sum of a segment fits in 32 bits |
| `Checksum.FilledInSumsToOnes` | kernel/net/tcp.c:133 | data with its checksum filled in sums to 0xFFFF |
| `Checksum.ByteOrder` | kernel/net/netutils.c:26-58 | summing the words as loaded or in network order gives the same checksum bytes |

## Left out

- Paging, MSR, FPU, APIC, TSS and the assembly of context switches: foreign state.
- Body of `vxSchedulerTick` but for its search after a detach and the scan that ends a `thread_sleep`: time and registers; the scan may find at any moment that a sleeper's time has come.
- Reuse of memory: a freed task's number is not given to a new one, because tasks are told apart by number.
- More than one load phase of the module loader: every dependency reference is taken while the caller's is held.
- Backing filesystems in `resolve_dentry` (lookup and create callbacks), mount and umount: not shown or of a different discipline.
- Locking inside the namespace operations: they run one after the other, because a lookup and the insertion after it are not atomic in the kernel.
- Dentry.WiredAdded: the hash chains and child rings are sequences, not pointers; `Ring.AddTail` proves the insertion into a ring on pointers and `Slab.PushFront` that into a null-terminated list.
- Dentry.RemoveKeeps: the same; `Ring.Del` and `Slab.Remove` prove the removals on pointers.
- `kalloc` for whole pages, `kfree`, `slab_cache_destroy`, failures of the page allocators inside `slab`, `kalloc` and the growing bitmap: bookkeeping or not handled by the code.
- Slab.Cache.Free: takes a block that is not in use to have no valid header; in memory such a block starts with a link, whose low half could by chance equal the magic.
- Signals and polling in the terminal, line editing, drawing: only what touches `waiter` and `lines_available` is modelled; what a read copies out is arbitrary.
- The output buffer's growth in the decoder (output is a sequence), font lookup and rasterising.
- What happens after a fault or an overrun: the model stops there.
- Data bytes of `kalloc` slots: a slot is its header and the words of its two red zones.
- Alignment of slab objects, TCP/IP beyond the checksum, ELF loading, drivers, graphics.
