# Verification of out-of-process execution

A Dafny model of how Neuropod runs a model in another process: the shared memory
allocator, the message queue with its acknowledgements, the control protocol, the
encodings on that path, and the two small cores every inference goes through (shape
validation, strides and accessors).

`dafny verify dfyconfig.toml` checks everything.

## How it is built

| files | what they hold |
|---|---|
| `ShmModel`, `ShmTheorems` | the allocator as a step machine over any number of processes and threads, one step per mutex region, and what holds over whole runs |
| `ShmAllocator` | the caches and the allocator as classes; their methods are runs of that machine |
| `ShmLocks` | the same code lock by lock, for freedom from deadlock |
| `ShmReduction`, `ShmRegions` | why a mutex region may be one step, with all the data that the mutexes guard |
| `Transport`, `TransportInv`, `TransportTheorems`, `TransportShutdown`, `TransportWait` | two message queue ends over the allocator as one step machine |
| `TransportMemory` | the data in the blocks that messages guard |
| `Queues`, `MessageQueue` | the blocking queue, the transferrables and `IPCMessageQueue` as classes |
| `WaitingQueue` | the blocking queue with its condition variables |
| `Control`, `Protocol`, `ProtocolTheorems`, `Processes` | the transition verifier, the backend and worker protocol, and both as classes |
| `Joint`, `JointShutdown`, `JointRuns` | the protocol over the queues over the allocator, and how it ends |
| `Serialization`, `Streams`, `WireFormat`, `Payloads` | the encoding, the stream code that computes it, inline and spilled payloads, and the block ids in them |
| `ShmTensor`, `Shape`, `Validation` | tensors in shared memory, strides and accessors, validation in C++ and Python |
| `Wrappers` | what several modules share |

Where threads interleave, the steps are functions on an immutable state and the theorems
quantify over all runs. Where the source updates fields, arrays or streams, the same code is
also a class or a method, and its contract equates the new state with the step functions. A
call that blocks in the source returns where it would wait, and is continued by a later call.

## Assumptions

- UUIDs are fresh, and `reuse_count` does not wrap around 2^64.
- The IPC queue delivers messages of equal priority first in, first out.
- Each end has one caller of `recv_message`, and there is one caller of `infer` at a time.
- No receive times out; the clock and the heartbeat timer are not modelled, heartbeat messages are.
- A string tensor is packed at most once per transit (`source/neuropod/multiprocess/shm_tensor.hh:165-167`).
- `free_unused_shm_blocks` does not throw, and neither does the send in a catch block of the worker loop.
- What a model computes is an uninterpreted function of its configuration, inputs and requested outputs, and may throw.

## Where the code does not do what one expects

- `payload_size` is 32 bits wide, so a payload of 2^32 bytes or more is cut and never decodes (`WireFormat.PayloadSurvives`; an input: `WireFormat.PayloadTooLong`).
- A queue destroyed with more than 20 unread user messages never finishes shutting down (`TransportShutdown.DestroyFinishesIff`; a run: `TransportShutdown.JamReachable`). The control protocol never gets there (`Joint.ReadThreadsNeverWait`).
- When ADD_INPUT throws in the worker, INFER is answered all the same. The backend fails on the EXCEPTION and does not read that RETURN_OUTPUT. If it then shuts down, it waits in `waitpid` for a worker that waits for the acknowledgement of just this message. The worker's queue has stopped its heartbeat by then, so after 5000 ms the read thread of the backend throws out of its `std::thread` (`source/neuropod/multiprocess/mq/ipc_message_queue_impl.hh:76-83`), which ends the process; that timeout is not modelled (`JointShutdown.WorkerExitsIff`; a run: `JointRuns.BackendHangs`).
- `TransferrableController::size` counts items, its comment says messages; being zero means the same for both (`Queues.SizeCountsMessages`; an input: `MessageQueue.MoveOfSpilled`).
- The element count is cut to 32 bits at every factor (`Shape.CountExact`; an input: `Shape.CountWrong`). A string tensor therefore arrives only if its packed form is below 2^31 bytes; beyond that the block is too small and the copy loop runs past it, or it cannot be allocated (`ShmTensor.GetNativeData`, `ShmTensor.Transit`; inputs: `ShmTensor.PackedRoomWrong`, `ShmTensor.HeadersWrap`).
- The deleters of the allocator move from a constant captured copy, which copies. A mapping therefore outlives the unlock of the block mutex that lies inside it; the machine keeps it in `closing` until the deleter returns.
- The comment before `serialize_payload` says that a payload of less than 8192 bytes is inline; the code keeps one of exactly 8192 bytes inline as well.
- Python takes integer dims from 2^31 on and C++ does not; C++ takes 2.0 for 2 and Python does not (`Validation.LoadersAgreeIff`). For zero and negative dims, which both loaders refuse, the two validators disagree (`Validation.IntegerDimsAgreeIff`).
- The verifier accepts a request before it is sent. If sending then fails, the backend refuses all later requests, as it does after an EXCEPTION (`ProtocolTheorems.UnsentFails`, `ProtocolTheorems.FailedForever`).

## Model

| member | source | states |
|---|---|---|
| `ShmModel.StepInv` | source/neuropod/multiprocess/shm/shm_allocator.cc:145-317 | every mutex region of allocate_shm, load_shm, their deleters and free_unused_shm_blocks keeps: user refcount = live pointers over all processes, raw refcount = live mappings, every live pointer carries the block's current reuse count and has a mapping of its own |
| `ShmTheorems.ReachableInv` | source/neuropod/multiprocess/shm/shm_allocator.cc:145-317 | that invariant holds after every interleaving of any number of processes and threads |
| `ShmTheorems.LoadChecksIffLive` | source/neuropod/multiprocess/shm/shm_allocator.cc:265-296 | the two checks of load_shm pass if and only if some pointer obtained under that id is still alive |
| `ShmTheorems.LiveIdLoads` | source/neuropod/multiprocess/shm/raw_shm_block_allocator.cc:121-153 | for a live id the object exists, and neither the raw refcount check nor the user block checks can throw |
| `ShmTheorems.RecycledBlockUnshared` | source/neuropod/multiprocess/shm/shm_allocator.cc:156-172 | a recycled block has exactly the requested size, nobody holds it, its new id was never issued, and no older id of it passes the checks |
| `ShmTheorems.DeadIdRefused` | source/neuropod/multiprocess/shm/shm_allocator.cc:265-296 | in every continuation of any state: an id that no pointer is alive under is refused for ever, however often its block is recycled |
| `ShmTheorems.BlockKept` | source/neuropod/multiprocess/shm/shm_allocator.cc:197-310 | no step changes the size or reuse count of a block somebody holds, or removes it |
| `ShmTheorems.LivePtrKept` | source/neuropod/multiprocess/shm/shm_allocator.cc:312-317 | no step except its own deleter takes away a live pointer or its mapping; clearing the caches does not |
| `ShmTheorems.IdsNeverRepeat` | source/neuropod/multiprocess/shm/shm_allocator.cc:197-242 | over any run and all processes the ids returned by allocate_shm are pairwise distinct and new |
| `ShmTheorems.DeadStaysDead` | source/neuropod/multiprocess/shm/raw_shm_block_allocator.cc:138-190 | a raw refcount that has reached zero never rises again |
| `ShmTheorems.FreedInAnyOrder` | source/neuropod/multiprocess/shm/shm_allocator.cc:312-317 | free_unused_shm_blocks in any processes, in any order and interleaved with any destructors: no pointer or mapping appears, and a mapping keeps an owner only if it is in a cache that was not cleared |
| `ShmTheorems.AllFreed` | source/neuropod/multiprocess/shm/shm_allocator.cc:312-317 | once every process that has mappings has freed, in whatever order, no mapping has an owner |
| `ShmTheorems.NothingLeaks` | source/neuropod/multiprocess/shm/raw_shm_block_allocator.cc:159-190 | then destructors are all that is left to run, and when none is left no shared object and no mapping remains |
| `ShmTheorems.DestructorsRun` | source/neuropod/multiprocess/shm/raw_shm_block_allocator.cc:159-190 | such a run of destructors exists from every such state and ends with no shared object |
| `ShmTheorems.StepRefines` | source/neuropod/multiprocess/shm/shm_allocator.cc:145-317 | every step is a step of an allocator without caches (allocate a new id, load exactly a live id, fail exactly on a dead one, also where the object is gone, release), or invisible to it |
| `ShmTheorems.RunRefines` | source/neuropod/multiprocess/shm/shm_allocator.cc:145-317 | so every run of any number of processes has the same visible events as a run of the allocator without caches |
| `ShmAllocator.SharedMemory.CreateRaw` | source/neuropod/multiprocess/shm/raw_shm_block_allocator.cc:96-118 | a new object is the machine's creation step: both counts one, reuse count zero |
| `ShmAllocator.SharedMemory.LoadRaw` | source/neuropod/multiprocess/shm/raw_shm_block_allocator.cc:121-153 | attaching succeeds exactly when the object exists with a positive raw refcount, which it then raises; otherwise nothing changes |
| `ShmAllocator.SharedMemory.CheckLoad` | source/neuropod/multiprocess/shm/shm_allocator.cc:265-296 | the sanity checks of load_shm: passes exactly on a used block with the same reuse count, then raises the refcount |
| `ShmAllocator.SharedMemory.DestroyRaw` | source/neuropod/multiprocess/shm/raw_shm_block_allocator.cc:159-190 | the raw refcount falls by one; the object is gone afterwards exactly when that was the last mapping, and no other object is touched |
| `ShmAllocator.AllocationCache.MaybeGetAndPop` | source/neuropod/multiprocess/shm/shm_allocator.cc:145-174 | the scan returns the first entry of the size whose refcount is zero with both its counts raised, and removes just it; otherwise nothing changes |
| `ShmAllocator.AllocationCache.Insert` | source/neuropod/multiprocess/shm/shm_allocator.cc:176-181 | the entry goes to the end of the list of its size |
| `ShmAllocator.AllocationCache.Clear` | source/neuropod/multiprocess/shm/shm_allocator.cc:183-187 | the cache is empty and exactly its entries lose their owner |
| `ShmAllocator.LoadCache.MaybeGetAndPop` | source/neuropod/multiprocess/shm/shm_allocator.cc:89-98 | returns and removes the entry of the handle, if any |
| `ShmAllocator.LoadCache.Insert` | source/neuropod/multiprocess/shm/shm_allocator.cc:100-104 | replaces the entry of the handle and says which raw block that evicts |
| `ShmAllocator.LoadCache.Clear` | source/neuropod/multiprocess/shm/shm_allocator.cc:106-110 | the cache is empty and exactly its entries lose their owner |
| `ShmAllocator.SHMAllocator.AllocateShm` | source/neuropod/multiprocess/shm/shm_allocator.cc:197-242 | a cached unused block of the size is recycled if there is one, else a block is created; the caches stay what the machine says and the state stays reachable |
| `ShmAllocator.SHMAllocator.DeleteAllocated` | source/neuropod/multiprocess/shm/shm_allocator.cc:232-241 | the deleter lowers the refcount and puts the raw block into the created cache |
| `ShmAllocator.SHMAllocator.LoadShm` | source/neuropod/multiprocess/shm/shm_allocator.cc:244-310 | succeeds if and only if the block is in use under this reuse count, cached or not; a failure leaves all pointers alone, keeps no pending load and gives up the mapping it used; an object that was mapped is there afterwards exactly if it still is |
| `ShmAllocator.SHMAllocator.DeleteLoaded` | source/neuropod/multiprocess/shm/shm_allocator.cc:300-309 | the deleter gives up exactly its pointer and caches the raw block; one that it replaces in the cache is unmapped, and its object removed exactly if that was its last mapping |
| `ShmAllocator.SHMAllocator.FreeUnusedShmBlocks` | source/neuropod/multiprocess/shm/shm_allocator.cc:312-317 | exactly the mappings owned by the two caches of this process go away, and with them exactly the objects that nobody maps any more; pointers, ids and loads stay |
| `ShmAllocator.OthersKeepAgrees` | source/neuropod/multiprocess/shm/shm_allocator.cc:77-188 | no step of another process, and no step of this one outside of its cache operations, disturbs the caches of a process |
| `ShmLocks.StepInv` | source/neuropod/multiprocess/shm/shm_allocator.cc:145-310 | lock by lock: a mutex has one holder, a block whose allocation pointer is being dropped is in no created cache, a scanned block is in the scanner's cache |
| `ShmLocks.WaitingDescends` | source/neuropod/multiprocess/shm/shm_allocator.cc:145-181 | waiting goes strictly down in a rank of program points although maybe_get_and_pop and the deleter take cache and block mutex in opposite orders |
| `ShmLocks.NoSelfWait` | source/neuropod/multiprocess/shm/shm_allocator.cc:145-310 | no thread takes a mutex it holds |
| `ShmLocks.NoWaitCycle` | source/neuropod/multiprocess/shm/shm_allocator.cc:232-241 | no chain of waiting threads of any length closes |
| `ShmLocks.FindRunnable` | source/neuropod/multiprocess/shm/shm_allocator.cc:145-310 | whenever a thread is inside an operation some thread inside an operation can take a step towards the end of it |
| `ShmLocks.DeadlockFree` | source/neuropod/multiprocess/shm/shm_allocator.cc:145-310 | both hold after every run, also for deleters that run inside TransferrableController::done |
| `ShmLocks.OperationEnds` | source/neuropod/multiprocess/shm/shm_allocator.cc:145-317 | left to itself a thread ends what it is in, from wherever it stands, in at most five steps, and then holds no mutex |
| `ShmLocks.BlockMoves` | source/neuropod/multiprocess/shm/shm_allocator.cc:156-181 | popping gives a block to a pointer, a deleter puts it into its cache, clearing takes it out, and nothing else moves a block |
| `ShmLocks.RegionsAtomic` | source/neuropod/multiprocess/shm/shm_allocator.cc:145-310 | in every run two threads are never inside regions of the same mutex |
| `ShmReduction.MoveRight` | source/neuropod/multiprocess/shm/shm_allocator.cc:145-310 | taking a mutex, using data that held mutexes guard, or a move that releases none, may as well come after any steps of other threads that followed it, with the same end state |
| `ShmReduction.MoveLeft` | source/neuropod/multiprocess/shm/shm_allocator.cc:145-310 | using guarded data, working under mutexes and releasing them may as well come before any steps of other threads that preceded it |
| `ShmReduction.RegionReduces` | source/neuropod/multiprocess/shm/shm_allocator.cc:145-310 | so a region, acquisitions followed by work and releases and interleaved with anything, may be taken without interruption: the same steps of the other threads before and after it lead to the same state, with the same data behind every mutex |
| `ShmRegions.RegionTouches` | source/neuropod/multiprocess/shm/shm_allocator.cc:145-317 | a region of the allocator machine changes nothing that a mutex guards which the source does not hold there: counts of blocks, counts of mappings, contents of caches |
| `ShmRegions.RegionDetermined` | source/neuropod/multiprocess/shm/shm_allocator.cc:145-317 | and what it leaves behind its mutexes depends only on what it finds there and on the calling thread's own part |
| `ShmRegions.RegionIsAccess` | source/neuropod/multiprocess/shm/shm_allocator.cc:145-317 | so each region is one use of guarded data by a thread that holds its mutexes, which moves both ways past other threads, and the two machines agree on all guarded data before and after |
| `TransportInv.SendKeeps` | source/neuropod/multiprocess/mq/ipc_message_queue_impl.hh:189-241 | sending keeps conservation of acknowledgements, order and the shutdown invariant in both directions |
| `TransportInv.ReadKeeps` | source/neuropod/multiprocess/mq/ipc_message_queue_impl.hh:85-138 | so does one iteration of the read loop on any message |
| `TransportInv.DropKeeps` | source/neuropod/multiprocess/mq/ipc_message_queue_impl.hh:266-293 | so does the acking deleter, which sends at most one DONE |
| `TransportTheorems.StepInv` | source/neuropod/multiprocess/mq/ipc_message_queue_impl.hh:60-296 | every step of user threads, heartbeat threads, read threads and the allocator keeps the joint invariant of both queues and the allocator |
| `TransportTheorems.UnreleasedMessageLoads` | source/neuropod/multiprocess/mq/ipc_message_queue_impl.hh:217-296 | in every interleaving, free_unused_shm_blocks at any point included, each block id guarded by an unreleased message names a used block with the same reuse count, so no error branch of load_shm can be taken for it |
| `Payloads.IdLayout` | source/neuropod/multiprocess/shm/shm_allocator.cc:64-71 | a block id is its UUID and then its reuse count in 8 bytes, little-endian |
| `Payloads.DecodedIds` | source/neuropod/multiprocess/shm_tensor.cc:40-66 | of a value map sent as tensors a receiver decodes just the names that were sent, each with the id of a tensor sent under it |
| `Payloads.TensorsLoad` | source/neuropod/multiprocess/mq/ipc_message_queue_impl.hh:217-296 | in every run, while a value map moved into a message is unreleased: below 2^32 bytes its payload, inline or spilled, decodes to the names and ids that were sent; load_shm opens and accepts each id and finds the data as it was sent unless somebody has written under just that id; a longer payload never decodes |
| `TransportMemory.GuardedBytesKept` | source/neuropod/multiprocess/mq/ipc_message_queue_impl.hh:215-241 | in every run, a block guarded by an unreleased message keeps its data whatever is allocated, recycled, freed and written meanwhile, unless somebody writes through a pointer obtained under just this id |
| `TransportMemory.WriteArrives` | source/neuropod/multiprocess/mq/wire_format_impl.hh:124-132 | user code may write to each block that it holds, finds there what it wrote, and changes no other block |
| `Payloads.MovesReachable` | source/neuropod/multiprocess/mq/ipc_message_queue_impl.hh:215-241 | such messages exist, for any name and data of a tensor |
| `TransportTheorems.DeliveryInOrder` | source/neuropod/multiprocess/mq/ipc_message_queue_impl.hh:94-122 | what recv_message has returned is a prefix of what was sent; each message in transit has exactly one token (itself or one DONE) and no other id has any; queues stay within 20 |
| `TransportTheorems.HandedOut` | source/neuropod/multiprocess/shm/shm_allocator.cc:197-296 | user code gets each pointer that allocate_shm or load_shm returns, and no other |
| `TransportTheorems.GivenUp` | source/neuropod/multiprocess/mq/transferrables.cc:39-59 | what user code has given up can be deleted unless a message in transit keeps it |
| `TransportShutdown.DrainShrinks` | source/neuropod/multiprocess/mq/ipc_message_queue_impl.hh:61-140 | each step of queues and of the peer receiving and dropping makes a measure of outstanding messages smaller; a heartbeat of the live peer adds two |
| `TransportShutdown.ShutdownCompletes` | source/neuropod/multiprocess/mq/ipc_message_queue_impl.hh:171-183 | if the peer receives and drops, nobody sends and the out queue has room, the read loop exits after boundedly many steps other than heartbeats, in whatever order, and is never stuck before it has |
| `TransportShutdown.DestroyFinishesIff` | source/neuropod/multiprocess/mq/ipc_message_queue_impl.hh:119-140 | once a queue is being destroyed while its peer is up, some run lets its read thread exit, so that the destructor returns, if and only if at most 20 user messages were unread |
| `TransportShutdown.DestroyLeavesRoom` | source/neuropod/multiprocess/mq/ipc_message_queue_impl.hh:119-140 | with room for what is unread and on its way, whether or not the peer is still up, a queue being destroyed is in the state that ShutdownCompletes and AloneCompletes ask for |
| `TransportShutdown.JammedForever` | source/neuropod/multiprocess/mq/ipc_message_queue_impl.hh:119-122 | with more than 20 unread the read thread waits in emplace in every continuation |
| `TransportShutdown.JamReachable` | source/neuropod/multiprocess/mq/ipc_message_queue_impl.hh:119-122 | a run from the start that ends with 21 unread messages and a destructor that never returns |
| `TransportWait.ExitsAloneIff` | source/neuropod/multiprocess/mq/ipc_message_queue_impl.hh:119-140 | if the user code of the peer waits meanwhile or is gone, the read thread can exit if and only if at most 20 messages are unread and none that it sent waits to be released by that user code |
| `TransportWait.AloneCompletes` | source/neuropod/multiprocess/mq/ipc_message_queue_impl.hh:61-140 | with everything released and room in the out queue, it exits after boundedly many steps other than heartbeats, in whatever order the threads go on, and is never stuck before it has |
| `TransportWait.DestroyAfterPeerIff` | source/neuropod/multiprocess/mq/ipc_message_queue_impl.hh:171-183 | a queue destroyed after its peer's can finish, in whatever run, if and only if at most 20 messages are unread and the peer has left none unreleased |
| `TransportShutdown.UnreadAreQueued` | source/neuropod/multiprocess/mq/ipc_message_queue_impl.hh:119-122 | the unread messages are exactly those queued for an end, so with at most 20 of them the read thread never waits for room |
| `TransportShutdown.ShutdownWakesReceiver` | source/neuropod/multiprocess/mq/ipc_message_queue_impl.hh:108-117 | in every run, once shutdown has begun out_queue_ is never empty, so a thread that waits in recv_message wakes up |
| `TransportShutdown.ReadLoopStopsRight` | source/neuropod/multiprocess/mq/ipc_message_queue_impl.hh:94-138 | the loop has exited only with nothing in transit, and never goes on waiting once shutdown has begun and nothing is; the heartbeat continue hides no last DONE |
| `Queues.BlockingSPSCQueue.TryEmplace` | source/neuropod/internal/blocking_spsc_queue.hh:41-62 | accepts exactly below capacity; accepted items are delivered items followed by the queue |
| `Queues.BlockingSPSCQueue.Emplace` | source/neuropod/internal/blocking_spsc_queue.hh:64-79 | accepts exactly below capacity, then appends; at capacity it changes nothing and is where the source waits |
| `Queues.BlockingSPSCQueue.Pop` | source/neuropod/internal/blocking_spsc_queue.hh:81-97 | takes the oldest item; nothing is lost, doubled or reordered; an empty queue is where the source waits |
| `WaitingQueue.NoLostWakeup` | source/neuropod/internal/blocking_spsc_queue.hh:41-97 | with the waits on the condition variables and spurious wake-ups: popped items are a prefix of accepted ones, never above capacity; a side sleeps only while its condition is false or it is about to be notified; both never sleep at once |
| `WaitingQueue.NothingLost` | source/neuropod/internal/blocking_spsc_queue.hh:41-97 | in every run the items of all calls that were made are those popped, then those in the queue, then the one a producer waits with, in the order of the calls |
| `WaitingQueue.EmplaceCall` | source/neuropod/internal/blocking_spsc_queue.hh:64-79 | a call that finds room queues its item and is about to notify, one that does not sleeps with it |
| `WaitingQueue.TryEmplaceCall` | source/neuropod/internal/blocking_spsc_queue.hh:41-62 | the same with room, and nothing at all without |
| `WaitingQueue.PopCall` | source/neuropod/internal/blocking_spsc_queue.hh:81-97 | a call that finds an item delivers the head and is about to notify, one that does not sleeps |
| `WaitingQueue.PopCompletes` | source/neuropod/internal/blocking_spsc_queue.hh:81-97 | a pop that waits gets the head of a non-empty queue by at most two steps that are already due |
| `WaitingQueue.EmplaceCompletes` | source/neuropod/internal/blocking_spsc_queue.hh:64-79 | an emplace that waits gets its item in below capacity by at most two steps that are already due |
| `Queues.TransferrableController.Add` | source/neuropod/multiprocess/mq/transferrables.cc:39-52 | one entry per item under the message id |
| `Queues.TransferrableController.Done` | source/neuropod/multiprocess/mq/transferrables.cc:54-59 | exactly the entries of the message go, which ends its transit and no other; every other entry stays as often as it was |
| `Queues.TransferrableController.Size` | source/neuropod/multiprocess/mq/transferrables.cc:61-65 | zero if and only if no message is in transit |
| `Queues.SizeCountsMessages` | source/neuropod/multiprocess/mq/transferrables.hh:58-60 | what size returns is the number of messages in transit, as its comment says, if and only if none has two items |
| `MessageQueue.IPCMessageQueue.ReadIteration` | source/neuropod/multiprocess/mq/ipc_message_queue_impl.hh:63-138 | what reading a message does, kind by kind: nothing for a heartbeat; the end of a transit for a DONE; the start of shutdown and the wake-up in out_queue_ for SHUTDOWN_QUEUES; delivery or waiting for a user message; and when the loop stops. The same as the machine's read and delivery steps |
| `MessageQueue.IPCMessageQueue.ReadWorkerLoop` | source/neuropod/multiprocess/mq/ipc_message_queue_impl.hh:61-140 | so does the whole loop, which ends only when it exits, has to wait for room or has nothing to read |
| `MessageQueue.ReadLoopIsRun` | source/neuropod/multiprocess/mq/ipc_message_queue_impl.hh:61-140 | that is a run of steps of the two-queue machine, with the same end state |
| `MessageQueue.IPCMessageQueue.SendMessage` | source/neuropod/multiprocess/mq/ipc_message_queue_impl.hh:187-210 | fresh id, the transferrables of the spilled payload kept under it, their block ids guarded by the message, and a DONE required exactly when there are any |
| `MessageQueue.IPCMessageQueue.SendMessageMove` | source/neuropod/multiprocess/mq/ipc_message_queue_impl.hh:215-241 | the moved payload is kept with them, its block ids are guarded as well, and a DONE is always required |
| `MessageQueue.SendIsStep` | source/neuropod/multiprocess/mq/ipc_message_queue_impl.hh:187-241 | what these two do to the fields is the send step of the two-queue machine, which guards exactly the ids of what is kept |
| `MessageQueue.MoveOfSpilled` | source/neuropod/multiprocess/mq/transferrables.cc:61-65 | a moved payload that is spilled as well: one message in transit, and a size of two |
| `MessageQueue.IPCMessageQueue.FinishSend` | source/neuropod/multiprocess/mq/ipc_message_queue_impl.hh:142-156 | the message enters the IPC queue behind all others, exactly when it has room |
| `MessageQueue.IPCMessageQueue.RecvMessage` | source/neuropod/multiprocess/mq/ipc_message_queue_impl.hh:257-296 | the oldest message of the out queue leaves it and becomes held by user code |
| `MessageQueue.IPCMessageQueue.DropMessage` | source/neuropod/multiprocess/mq/ipc_message_queue_impl.hh:266-293 | the deleter sends one DONE with the message's id exactly when the message requires it |
| `MessageQueue.IPCMessageQueue.StartShutdown` | source/neuropod/multiprocess/mq/ipc_message_queue_impl.hh:171-183 | the shutdown message goes into the end's own receive queue |
| `Control.TransitionVerifier.AssertTransitionAllowed` | source/neuropod/multiprocess/ipc_control_channel.cc:26-61 | accepts exactly the allowed transitions; SHUTDOWN and EXCEPTION pass and, like a rejected message, leave the state unchanged |
| `Control.TransitionVerifier.AssertTrace` | source/neuropod/multiprocess/ipc_control_channel.cc:26-61 | a trace checked message by message is accepted exactly when the specification accepts it |
| `Control.AcceptedTraces` | source/neuropod/multiprocess/ipc_control_channel.cc:26-61 | a trace is accepted if and only if without SHUTDOWN and EXCEPTION it is a prefix of one or more rounds of LOAD_NEUROPOD LOAD_SUCCESS (ADD_INPUT INFER RETURN_OUTPUT)* |
| `ProtocolTheorems.StepInv` | source/neuropod/multiprocess/multiprocess_worker.cc:47-134 | every step of backend and worker keeps the joint invariant, whatever is thrown in any request of either, reading an accepted reply included |
| `ProtocolTheorems.ResultsMatchCalls` | source/neuropod/multiprocess/multiprocess.cc:246-284 | in every run the k-th consumed RETURN_OUTPUT was computed by the configured model from exactly the k-th ADD_INPUT; no unexpected message, no worker death from a rejected message or missing model |
| `ProtocolTheorems.CallsReturn` | source/neuropod/multiprocess/multiprocess.cc:268-283 | in every run the k-th call whose output is consumed throws exactly if reading that output throws, and otherwise returns what the model computes from its inputs; without exceptions every such call returns |
| `ProtocolTheorems.InferAnswers` | source/neuropod/multiprocess/multiprocess.cc:246-284 | from every ready state, a call during which nothing throws returns its answer and leaves the backend ready |
| `ProtocolTheorems.LoadAnswers` | source/neuropod/multiprocess/multiprocess.cc:286-293 | a load during which nothing throws makes the backend ready |
| `ProtocolTheorems.FewOutstanding` | source/neuropod/multiprocess/ipc_control_channel.hh:64-85 | at most two messages are outstanding in either direction, exceptions included |
| `ProtocolTheorems.ExceptionFails` | source/neuropod/multiprocess/multiprocess.cc:259-266 | consuming an EXCEPTION leaves the backend in the failed state |
| `ProtocolTheorems.UnsentFails` | source/neuropod/multiprocess/ipc_control_channel.hh:64-76 | so does a request that was verified and then could not be sent; one that was refused changes nothing |
| `ProtocolTheorems.FailedForever` | source/neuropod/multiprocess/ipc_control_channel.cc:41-61 | from the failed state no run sends another request or consumes another reply |
| `ProtocolTheorems.LogsAgreeThroughout` | source/neuropod/multiprocess/ipc_control_channel.hh:64-85 | without exceptions one end's accepted log is at every step a prefix of the other's, with the gap equal to the messages in flight |
| `ProtocolTheorems.NothingRefused` | source/neuropod/multiprocess/ipc_control_channel.cc:26-61 | and in every such run neither verifier rejects anything: each request of the backend, each reply of the worker and each message that has arrived is allowed where it is due |
| `Processes.IPCControlChannel.SendMessage` | source/neuropod/multiprocess/ipc_control_channel.hh:64-76 | verified before it is sent; a rejected message changes nothing |
| `Processes.IPCControlChannel.RecvMessage` | source/neuropod/multiprocess/ipc_control_channel.hh:79-85 | taken from the queue before it is verified, also when it is rejected |
| `Processes.MultiprocessNeuropodBackend.LoadModel` | source/neuropod/multiprocess/multiprocess.cc:286-293 | is the protocol's load step: sends only when not loaded and allowed |
| `Processes.MultiprocessNeuropodBackend.WaitForLoadConfirmation` | source/neuropod/multiprocess/multiprocess.cc:115-136 | succeeds exactly on an accepted LOAD_SUCCESS |
| `Processes.MultiprocessNeuropodBackend.AddInputs` | source/neuropod/multiprocess/multiprocess.cc:246-250 | is the protocol's first send of an inference |
| `Processes.MultiprocessNeuropodBackend.RequestInference` | source/neuropod/multiprocess/multiprocess.cc:252-253 | is its second send |
| `Processes.MultiprocessNeuropodBackend.FinishInference` | source/neuropod/multiprocess/multiprocess.cc:255-284 | returns the output exactly if the received message is an accepted RETURN_OUTPUT and its payload can be read; it is consumed also if not |
| `Processes.MultiprocessNeuropodBackend.Close` | source/neuropod/multiprocess/multiprocess.cc:207-213 | SHUTDOWN is sent and leaves the verifier as it was |
| `Processes.MultiprocessWorker.HandleLoad` | source/neuropod/multiprocess/multiprocess_worker.cc:55-70 | a pass over LOAD_NEUROPOD, wherever it throws, is the protocol's |
| `Processes.MultiprocessWorker.StoreInputs` | source/neuropod/multiprocess/multiprocess_worker.cc:76-81 | the loop stores exactly the named tensors over the earlier inputs |
| `Processes.MultiprocessWorker.HandleInfer` | source/neuropod/multiprocess/multiprocess_worker.cc:83-112 | a pass over INFER, wherever it throws, is the protocol's; inputs are emptied only after RETURN_OUTPUT is sent |
| `Processes.MultiprocessWorker.Handle` | source/neuropod/multiprocess/multiprocess_worker.cc:53-131 | one pass through the try block and its catch blocks is the protocol's worker step |
| `Processes.MultiprocessWorker.Loop` | source/neuropod/multiprocess/multiprocess_worker.cc:47-134 | the loop takes the arrived messages one by one, with any outcome per pass, until it ends, nothing has arrived or no outcome is left |
| `Processes.PassIsSteps` | source/neuropod/multiprocess/multiprocess_worker.cc:47-134 | a pass is one or two steps of the protocol machine |
| `Processes.LoopIsRun` | source/neuropod/multiprocess/multiprocess_worker.cc:47-134 | the whole loop is a run of the protocol machine with the same end state |
| `Joint.ChannelStep` | source/neuropod/multiprocess/mq/ipc_message_queue_impl.hh:85-296 | user code sees each direction as a first-in first-out channel: entering the IPC queue appends, recv_message takes the head, no other step of any thread of either process changes it |
| `Joint.StepInv` | source/neuropod/multiprocess/multiprocess.cc:115-293 | every step of the protocol over the queues over the allocator keeps both invariants and that the channels carry what the protocol has in flight |
| `Joint.ReceivesExpected` | source/neuropod/multiprocess/ipc_control_channel.hh:79-85 | in every run the message that recv_message can hand out is the one the protocol has next |
| `Joint.ReadThreadsNeverWait` | source/neuropod/multiprocess/mq/ipc_message_queue_impl.hh:119-122 | in every run, exceptions included, at most two user messages per direction are in the queues, so no read thread ever waits for room in out_queue_ |
| `JointShutdown.WorkerExitsIff` | source/neuropod/multiprocess/multiprocess.cc:207-217 | in every run after SHUTDOWN, while the backend is in waitpid, the worker process can exit if and only if no message it has sent is both unread and to be acknowledged |
| `JointShutdown.WorkerExitsInAnyOrder` | source/neuropod/multiprocess/multiprocess.cc:207-217 | and under that condition it does exit, after boundedly many steps other than heartbeats, however the threads of both processes go on |
| `JointShutdown.BackendExits` | source/neuropod/multiprocess/multiprocess.cc:216-240 | in every run, exceptions included, once waitpid has returned the backend's own queue finishes as well, however the remaining threads go on |
| `JointShutdown.ExitsWithoutExceptions` | source/neuropod/multiprocess/multiprocess.cc:207-217 | without exceptions it always can |
| `JointShutdown.UnreadReplyHangs` | source/neuropod/multiprocess/multiprocess.cc:207-217 | with a RETURN_OUTPUT left unread it never does, and the backend waits until a receive timeout, which is not modelled, ends its process |
| `JointRuns.Realised` | source/neuropod/multiprocess/multiprocess.cc:246-284 | every run of the protocol is the protocol's part of a run on the queues |
| `JointRuns.BackendHangs` | source/neuropod/multiprocess/multiprocess_worker.cc:76-131 | for every call there is a run in which ADD_INPUT throws, INFER succeeds, the backend shuts down after the EXCEPTION, and the worker never exits |
| `Serialization.IntRoundTrip` | source/neuropod/multiprocess/serialization/ipc_serialization.hh:72-76 | an integer of any width and sign survives its bytes |
| `Serialization.Layout` | source/neuropod/multiprocess/serialization/ipc_serialization.hh:64-217 | byte by byte: little-endian two's complement for integers; one byte for a bool; a length in 8 bytes before the characters of a string, the elements of a vector, and each key and value of a map; the members of a struct in order |
| `Serialization.RoundTrip` | source/neuropod/multiprocess/serialization/ipc_serialization.hh:64-237 | decoding the encoding of a nested value followed by any suffix gives the value and leaves the suffix |
| `Serialization.MapOrderIrrelevant` | source/neuropod/multiprocess/serialization/ipc_serialization.hh:201-237 | the order in which a map is visited does not change what is decoded |
| `Serialization.TruncatedFails` | source/neuropod/multiprocess/serialization/ipc_serialization.hh:46-54 | no proper prefix of an encoding decodes |
| `Streams.Serialize` | source/neuropod/multiprocess/serialization/ipc_serialization.hh:64-217 | writing to a stream appends exactly the encoding |
| `Streams.Deserialize` | source/neuropod/multiprocess/serialization/ipc_serialization.hh:84-237 | reading from a stream gives what the decoder gives and leaves the same rest, or throws exactly where it fails |
| `Streams.InStream.ReadString` | source/neuropod/multiprocess/serialization/ipc_serialization.hh:134-160 | strings below and above 2048 bytes read the same, whatever an earlier string left in the static buffer |
| `WireFormat.SerializePayload` | source/neuropod/multiprocess/mq/wire_format_impl.hh:104-139 | inline exactly up to 8192 bytes, else spilled with exactly one transferrable; the size field holds the size modulo 2^32 |
| `WireFormat.DeserializePayload` | source/neuropod/multiprocess/mq/wire_format_impl.hh:143-163 | gives what the decoder makes of the bytes the message refers to, or throws |
| `WireFormat.PayloadSurvives` | source/neuropod/multiprocess/mq/wire_format_impl.hh:112-112 | the payload survives if and only if its encoding is shorter than 2^32 bytes; a longer one never decodes |
| `WireFormat.PayloadTooLong` | source/neuropod/multiprocess/mq/wire_format_impl.hh:112-112 | a string of 2^32 - 8 bytes has an encoding of 2^32 bytes, whose size field says 0, and does not arrive |
| `WireFormat.DoneRoundTrip` | source/neuropod/multiprocess/mq/ipc_message_queue_impl.hh:94-106 | the id in a DONE takes 8 bytes and is found again by the read loop |
| `WireFormat.MakeDone` | source/neuropod/multiprocess/mq/ipc_message_queue_impl.hh:266-293 | a DONE has no transferrables, whatever the id, so it requires no DONE and the exception against endless chains is never thrown |
| `WireFormat.Transfer` | source/neuropod/multiprocess/mq/wire_format_impl.hh:104-163 | a payload sent and received on either side of the inline limit comes back, in a recycled block with any stale bytes |
| `ShmTensor.DataAlignedAndFits` | source/neuropod/multiprocess/shm_tensor.hh:52-58 | for every base address the data is 64-byte aligned, and header and data fit in the requested size |
| `ShmTensor.SameHeaderIff` | source/neuropod/multiprocess/shm_tensor.cc:26-27 | a loader finds the header where the creator wrote it if and only if their base addresses agree modulo 64 |
| `ShmTensor.MappingsAgree` | source/neuropod/multiprocess/shm/raw_shm_block_allocator.cc:108-112 | which they do for mappings that start on pages |
| `ShmTensor.WriteHeader` | source/neuropod/multiprocess/shm_tensor.hh:84-102 | writes type, rank and dims over any stale bytes, touches only the header, and fails exactly from 128 dims on |
| `ShmTensor.ReadHeader` | source/neuropod/multiprocess/shm_tensor.cc:26-32 | reads back the type and dims that were written |
| `ShmTensor.HeaderLayout` | source/neuropod/multiprocess/shm_tensor.hh:41-49 | byte by byte: the type in 4 bytes, the rank in 8 and each dim in 8, little-endian |
| `ShmTensor.LongestIs` | source/neuropod/multiprocess/shm_tensor.hh:216-224 | the slots are those of a longest string: some string has that many bytes and none has more |
| `ShmTensor.PackedLayout` | source/neuropod/multiprocess/shm_tensor.hh:216-248 | byte by byte: if n is the length of a longest string, the last dim is n + 8, and string k starts at k times that, its length in 8 bytes and then its characters |
| `ShmTensor.SlotsDisjoint` | source/neuropod/multiprocess/shm_tensor.hh:163-251 | the slots of two strings do not overlap and lie inside the block |
| `ShmTensor.PackedRoom` | source/neuropod/multiprocess/shm_tensor.hh:216-231 | for all non-negative dims and matching strings, the element count of the packed tensor is the room of its slots if and only if that room is below 2^31 (or within 2^31 below 2^64) |
| `ShmTensor.PackedRoomWrong` | source/neuropod/internal/neuropod_tensor.cc:48-52 | one string of 2^31 - 8 bytes is counted as 2^64 - 2^31 bytes, one of 2^32 - 8 bytes as none |
| `ShmTensor.FitsIff` | source/neuropod/multiprocess/shm_tensor.hh:79-79 | the strings fit into the block that is asked for, wherever it is mapped, if and only if the packed tensor is below 2^31 bytes |
| `ShmTensor.WriteSlots` | source/neuropod/multiprocess/shm_tensor.hh:234-248 | the copy loop puts every string, with its length, into its slot and touches nothing else, as long as that is inside the block, and it is told exactly when it is not |
| `ShmTensor.GetNativeData` | source/neuropod/multiprocess/shm_tensor.hh:214-251 | for all non-negative dims and matching strings, with n the length of a longest one: packs them if and only if there are fewer than 127 dims, (n + 8) times the number of strings is below 2^31 and the object can be created; the block is then laid out as in PackedLayout; only from 2^31 bytes on can the copy run past the block |
| `ShmTensor.Allocate` | source/neuropod/multiprocess/shm/shm_allocator.cc:197-222 | the block has the requested size unless its object, with the headers of both allocators, cannot be created or has wrapped around 2^64 |
| `ShmTensor.HeadersWrap` | source/neuropod/multiprocess/shm/shm_allocator.cc:206-206 | one string of 2^32 - 1118 bytes asks for 2^64 - 10 bytes and gets an object of 94 |
| `ShmTensor.LoadStrings` | source/neuropod/multiprocess/shm_tensor.hh:189-208 | the load constructor returns the dims and strings that were packed |
| `ShmTensor.TensorFromId` | source/neuropod/multiprocess/shm_tensor.cc:21-33 | loading by id: the stored type chooses the kind of tensor, which comes back as it was written |
| `ShmTensor.Transit` | source/neuropod/multiprocess/shm_tensor.hh:142-251 | packing in one process and loading in another returns the same dims and strings, whatever the block held before, if and only if there are fewer than 127 dims, (n + 8) times the number of strings is below 2^31, n being the length of a longest one, and the object can be created |
| `ShmTensor.AllocateAndCopy` | source/neuropod/multiprocess/shm_tensor.hh:76-102 | a numeric tensor is allocated and filled if and only if it has fewer than 128 dims and 2^31 elements and its object can be created; copy_from refuses a count that was cut |
| `ShmTensor.TransitNumeric` | source/neuropod/multiprocess/shm_tensor.cc:21-33 | filled in one process and loaded in another, it has the same type, dims and bytes |
| `Shape.CountExact` | source/neuropod/internal/neuropod_tensor.cc:48-52 | for non-negative dims of any product the element count is the product if and only if that is below 2^31, or within 2^31 below 2^64, where the negative int turns back into it |
| `Shape.CountWrong` | source/neuropod/internal/neuropod_tensor.cc:48-52 | 65536 by 32768 elements are counted as 2^64 - 2^31 |
| `Shape.ComputeNumElements` | source/neuropod/internal/neuropod_tensor.cc:48-52 | the loop computes that count |
| `Shape.ComputeStrides` | source/neuropod/internal/neuropod_tensor.cc:26-46 | each stride is the product of the later dims exactly when that fits into an int64_t; for positive dims whose element count fits, the result is the exact strides that indexing is proved for |
| `Shape.AccessInRange` | source/neuropod/internal/tensor_accessor.hh:96-136 | an in-range index tuple of any rank reaches an element inside the buffer, and the tuple can be read off it |
| `Shape.AccessCovers` | source/neuropod/internal/tensor_accessor.hh:96-164 | every element is reached by an in-range tuple |
| `Shape.AccessorBijective` | source/neuropod/internal/tensor_accessor.hh:96-164 | indexing by the strides is a bijection from in-range tuples onto 0 to numel - 1 |
| `Shape.VisitAll` | source/neuropod/internal/tensor_accessor.hh:23-48 | nested range-based for loops visit the flat buffer in order, each element once |
| `Validation.CheckShape` | source/neuropod/backends/neuropod_backend.cc:134-198 | the loop over the dims finds the least extension of the symbols that makes them fit, and fails exactly when there is none |
| `Validation.ValidateTensorsAgainstSpecs` | source/neuropod/backends/neuropod_backend.cc:81-216 | accepts if and only if all tensor names are in the specs and one symbol assignment makes every present tensor match in type, rank and dims |
| `Validation.PyCheckShape` | source/python/neuropod/backends/neuropod_executor.py:71-108 | the same for the Python loop |
| `Validation.PyValidateTensorsAgainstSpecs` | source/python/neuropod/backends/neuropod_executor.py:24-108 | the same characterisation for the Python version, which checks names first |
| `Validation.OrderIrrelevant` | source/neuropod/backends/neuropod_backend.cc:94-199 | permuting the specs does not change acceptance |
| `Validation.AcceptableMeans` | source/neuropod/backends/neuropod_backend.cc:81-216 | for a configuration that can be loaded, acceptance spelled out: all tensor names are in the specs, and one size for each symbol makes each given tensor match in type, rank, integer dims and symbols |
| `Validation.GetDimsFromJson` | source/neuropod/internal/config_utils.cc:81-119 | loads a shape exactly when its dims are null, strings or positive numbers of 32 bits with an integral value, with the meaning they have as numbers |
| `Validation.ValidateShape` | source/python/neuropod/backends/config_utils.py:62-77 | accepts a shape exactly when its dims are null, strings or positive integers that are no booleans |
| `Validation.LoadersAgreeIff` | source/neuropod/internal/config_utils.cc:89-108 | the two loaders take the same dims, except for integers from 2^31 on, which only Python takes, and positive reals with an integral value of 32 bits, which only C++ takes |
| `Validation.BothValidate` | source/python/neuropod/backends/neuropod_executor.py:24-108 | each side loads exactly the configurations its loader takes; if both load one, both validators accept the same tensors, namely those that match it as spelled out |
| `Validation.IntegerDimsAgreeIff` | source/neuropod/backends/neuropod_backend.cc:139-197 | for dims of any rank given without that loading, the two agree on every shape if and only if all integers are positive or both refuse every shape, C++ because of a zero and Python because of a negative dim |

## Left out

- Process spawning, environment handling, exit codes, GPU selection: operating system calls without an invariant of their own.
- Heartbeat timing and the receive timeout: only the message kind is modelled, which the read loop ignores.
- Boost internals, POSIX shared memory and the memory model: mutex regions are atomic and shared objects are named blocks.
- TensorFlow, TorchScript, the Python bridge, JNI, `dlopen`, configuration files, packaging: foreign libraries or plumbing.
- Boost archive serialization of tensors: the encoding is in a library that is not part of this model.
- Sealing of inputs and the wrapping of tensors between backends: a tensor keeps its value.
- Values that are not tensors: `as_tensor` throws on them before validation looks at anything.
- The order in which the created cache is scanned is kept by the classes; the step machine may reuse any unused block of the size, so its theorems hold for every order.
- Attaching transferrables to a message and entering the blocking send are one step of the queue machine; no DONE for the message can arrive in between.
- A message without a payload takes no id in the source; the machine gives it one that nothing refers to.
- A read that goes past a block, a null model and similar undefined behaviour: the worker is `Crashed` in that state, and the theorems show that it is never reached.
- Loop counters of type `int`: containers of 2^31 elements or more are outside of `Serialization.Typed`.
- Streams.Deserialize: a size field of 2^31 or more, for which the `int` counter of the source overflows, is taken to ask for that many elements.
- WireFormat.DeserializePayload: the size field stays inside the block it refers to, which `SerializePayload` ensures; nothing in the source checks it.
- ShmTensor.LoadStrings: fewer than 2^31 strings, as there are in every block that `GetNativeData` can fill.
- ShmTensor.AllocateAndCopy: the constructor that copies existing memory (`source/neuropod/multiprocess/shm_tensor.hh:116-126`) passes its own element count as the size of the data, so it does not refuse a count that was cut; below 2^31 elements it does the same.
- Queues.BlockingSPSCQueue.Emplace: returns where the source waits; the wait itself is in `WaitingQueue`.
- Queues.BlockingSPSCQueue.Pop: returns where the source waits; the wait itself is in `WaitingQueue`.
- Shape.ComputeStrides: overflow of `int64_t`, which is undefined in C++, is taken to wrap around.
- ShmReduction.RegionReduces: speaks of one acquisition phase followed by work. A scan or a `clear` that keeps the cache mutex over several blocks is several such regions, and between them the cache mutex keeps all others out of the cache (`ShmLocks.RegionsAtomic`).
- ShmRegions.RegionIsAccess: creating an object and removing its name are no regions; each is one system call, on an object that nobody has mapped yet or any more.
- ShmAllocator.SHMAllocator.FreeUnusedShmBlocks: the methods of one allocator object run one after the other, so no deleter of the same process is between its unlock and its return (`Settled`); the step machine covers that case, for this and for the next four.
- ShmAllocator.SHMAllocator.AllocateShm: see `FreeUnusedShmBlocks`.
- ShmAllocator.SHMAllocator.DeleteAllocated: see `FreeUnusedShmBlocks`.
- ShmAllocator.SHMAllocator.LoadShm: see `FreeUnusedShmBlocks`.
- ShmAllocator.SHMAllocator.DeleteLoaded: see `FreeUnusedShmBlocks`.
- Payloads.TensorsLoad: UUIDs have 16 bytes and reuse counts stay below 2^64; the tensors are among the pointers that the message keeps.
- TransportMemory.GuardedBytesKept: data is written to a block as a whole, through a pointer that user code holds.
- JointShutdown.WorkerExitsIff: what the backend has received before is dropped by then.
- JointShutdown.UnreadReplyHangs: the receive timeout that in the end terminates the waiting process.
- JointRuns.BackendHangs: the receive timeout that in the end terminates the waiting process.
- Joint.StepInv: a request that fails after verification leaves the queues as they were. An exception out of the send itself, after its transferrables were added (`source/neuropod/multiprocess/mq/ipc_message_queue_impl.hh:204-209`), would leave an entry that is never acknowledged.
