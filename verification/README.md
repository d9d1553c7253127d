# A Dafny model of the jinue microkernel

This project models the state machines, data structures and text formats at the
heart of the jinue microkernel and of its user space loader and library, and
proves what they promise over every input and every run. `dafny verify
dfyconfig.toml` checks all of it.

Code that changes things in place is modelled by classes and methods with the
same fields, branches and loops; code that only computes is modelled by
functions. Machine integers are unbounded unless a width is written out.
Everything runs on one CPU, with the kernel locks held, so each method is what
the kernel does from one switch point to the next.

| file | what it models |
|---|---|
| `KernelLog.dfy` | the byte ring that holds log events, its tail, its writer and its readers |
| `Objects.dfy`, `Descriptors.dfy` | reference counting of kernel objects, descriptor tables, the system calls that spread or drop capabilities |
| `Ipc.dfy` | synchronous message passing, the ready queue, waiting for threads, destroying endpoints |
| `Message.dfy` | copying a message out of one set of user buffers and into another |
| `IntrusiveList.dfy` | the queues, linked through nodes embedded in the threads |
| `SlabGeometry.dfy`, `Slab.dfy` | the slab allocator: layout of a slab, free lists, the three slab lists, poison and red zones |
| `LazyFpu.dfy` | saving and restoring FPU registers lazily |
| `Signals.dfy` | choosing, delivering and returning from signals; signal sets and masks |
| `Cmdline.dfy`, `InitialStack.dfy` | the command line automaton; the initial stack built from what it finds |
| `TarPath.dfy`, `DirentList.dfy` | canonical file names; the chunked directory list shared with user space |
| `Numerals.dfy`, `Formatter.dfy` | numerals and their readers; the bounded formatter |
| `Options.dfy` | a value that may be absent |

## Main results

- **Log.** Over any run of messages of 1 to 480 bytes, every registered reader is
  handed the unbounded log from its first event on, in order and intact; walking
  from the tail spells exactly the events from `tail_id` to `write_id` and ends at
  the write pointer.
- **Objects.** Reference counts equal the references there are, receiver counts
  equal the open slots that can receive, and nothing is freed while referenced,
  through the recursive destruction of objects. Every call that makes, spreads,
  drops or destroys descriptors keeps this, and so do sending, receiving and
  awaiting, which hold one while they block and others run. In any script of these
  calls from the first process on, an object that has lost its owner descriptor
  never gets another one, and nobody gets a permission on it that nobody had.
- **Message passing.** In every run each thread is in exactly one place (running,
  ready, on one queue, held by one receiver, waiting for one thread); senders leave
  a queue in the order they joined it; a ready thread never moves back. A blocked
  thread keeps somebody who will wake it, exactly as long as receivers answer a
  message before they take another one; whoever loses its waker has lost it for
  the rest of the run. Exits that destroy endpoints are part of the runs.
- **Message copying.** A message of a given length is read back from the receive
  buffers, whatever it is, if and only if the parts of them that it reaches do not
  overlap.
- **Slab allocator.** Over any run of allocations, writes and frees the objects
  handed out are distinct, disjoint, inside their page and untouched by the
  allocator; free objects keep the state their constructor left them in.
- **FPU.** Every interleaving of threads, traps, switches and signals, with and
  without FXSAVE, shows user code what a private FPU per thread would.
- **Signals.** However deeply handlers nest, returning from one gives the
  interrupted program its mask, its flags and its registers back, but for the four
  registers that hold the result of a system call; it goes on exactly as it was if
  and only if these were zero.
- **Command line.** Parsing undoes writing, whatever blanks separate the words; the
  strings found fit the space of the line; the initial stack points to exactly
  these strings and fits its reserved part.
- **Archives.** Canonical names are those of the components, canonicalizing twice
  is canonicalizing once; a list that is built entry by entry is read back by the
  code that has only relative links.
- **Formatter.** For every buffer size the stored text is the longest prefix of one
  rendering that fits and the result is the length of that rendering; numerals are
  the unique ones that denote the argument and are read back by their readers.

## Where the code does not do what it seems to promise

For each of these a lemma, or the contract of the method, gives the exact
condition.

- A log message of length zero is encoded as a terminator, so a reader is handed
  the first event of the lap again (`KernelLog.DeliveredIff`,
  `KernelLog.HandedAgain`). The length in an event header is that of the whole
  formatted message, not of what was stored (`KernelLog.LongMessageIff`).
- The bounds check of a descriptor number lets through the number just past the
  table (`Descriptors.DereferenceIff`).
- Starting a thread does not look at its process, to which the thread holds no
  reference; it is right exactly when the process is live
  (`Objects.StartKeepsIff`). In a process that has been destroyed the slots are
  still marked open, and closing one drops its reference a second time
  (`Descriptors.ClosedTwice`, `Descriptors.RestartExample`).
- A thread that receives again before it has answered, or whose receive buffers
  turn out to be bad, leaves its sender blocked with nobody to wake it: at once
  (`Ipc.TakenAgainIff`, `Ipc.DroppedIff`), or, when it has to wait, once a message
  is handed over (`Ipc.ReceivedAgainIff`, `Ipc.HandedOverIff`).
- With overlapping receive buffers later bytes overwrite earlier ones
  (`Message.ReadBackIff`, `Message.OverlapExample`).
- An alignment that is not a power of two below a word or a whole number of words
  is not met, nor one that does not divide a cache line that is asked for
  (`SlabGeometry.AlignmentMet`, `SlabGeometry.CacheLineMet`); an object
  too large for a slab still gets a first buffer, over the slab header
  (`SlabGeometry.FirstFitsIff`).
- Without FXSAVE, delivering a signal to a thread that uses the FPU, and has not
  been switched away from since it entered the kernel, resets its registers
  (`LazyFpu.Machine.SaveForSignal`, `LazyFpu.FnsaveExample`). With the workaround
  for CVE-2018-3665 the forced restore traps in the kernel, which marks a thread
  that never used the FPU as a user of it (`LazyFpu.Machine.ReturnToUser`).
- Returning from a signal handler is a system call, and its result is written to
  the frame that it has just restored: eax, ebx, esi and edi of the interrupted
  program become zero (`Signals.SeenAgainIff`, `Signals.ReturnExample`). When the
  handler goes back by another instruction than the one that the program was
  interrupted in, the program goes on with interrupts turned off, unless the
  handler used the interrupt gate (`Signals.InterruptsOnIff`).
- When the user stack has no room, a signal stays blocked and is not delivered
  (`Signals.Signalling.CheckForSignal`).
- A word that starts with two dashes loses its first three characters, and after a
  single dash a separator becomes part of the word (`Cmdline.WholeWordIff`,
  `Cmdline.DashesLost`, `Cmdline.DashSwallows`).
- The documentation of integer options has hexadecimal values accepted; the test
  for their leading zero compares with NUL, and none is
  (`Numerals.HexadecimalRejected`).
- vsnprintf stores a NUL even when the size is zero (`Formatter.Vsnprintf`). Octal
  output of a char or a short has more bits than these
  (`Formatter.OctalExactIff`, `Formatter.OctalShortExactIff`). Signed output of a
  narrow argument denotes it exactly when its magnitude fits the width
  (`Formatter.SignedIff`). Zeros that fill a field go in front of the sign
  (`Formatter.SignFirstIff`).

## Model

| member | source | states |
|---|---|---|
| `KernelLog.TailReachesWriter` | kernel/domain/services/logging.c:59-70 | walking the ring from the tail spells exactly the last write_id - tail_id events, all intact, and ends at the write pointer |
| `KernelLog.RedzoneTail` | kernel/domain/services/logging.c:206-217 | a tail inside the red zone belongs to the previous lap and is followed by another event, so pushing it never overtakes the writer |
| `KernelLog.PushKeeps` | kernel/domain/services/logging.c:222-230 | moving the tail over one event keeps every held event intact and reachable |
| `KernelLog.WrapKeeps` | kernel/domain/services/logging.c:292-306 | writing a terminator and starting a new lap loses no event that is still held |
| `KernelLog.AppendKeeps` | kernel/domain/services/logging.c:319-324 | an event written outside the held ones leaves them intact and becomes the last one |
| `KernelLog.RingLog.constructor` | kernel/domain/services/logging.c:59-70 | the initial ring stands for the empty log |
| `KernelLog.RingLog.InitializeReader` | kernel/domain/services/logging.c:93-96 | a new reader starts at the oldest event that is held and has received nothing |
| `KernelLog.RingLog.RegisterReader` | kernel/domain/services/logging.c:103-109 | a reader that is registered later than it was initialized still follows the log |
| `KernelLog.RingLog.PushTail` | kernel/domain/services/logging.c:222-230 | the tail leaves the red zone, past the events in it and no others, and stays behind the writer |
| `KernelLog.RingLog.MakeRoom` | kernel/domain/services/logging.c:292-318 | the next event fits, with room for a terminator after it, and the log is the same |
| `KernelLog.RingLog.WriteEvent` | kernel/domain/services/logging.c:319-324 | a message of any length: what is stored, the length in the header, where the write pointer goes, and that nothing outside the red zone changes |
| `KernelLog.RingLog.ReadOne` | kernel/domain/services/logging.c:242-252 | a reader is handed the next event of the log, past a terminator if one is in the way |
| `KernelLog.RingLog.SyncReader` | kernel/domain/services/logging.c:237-253 | a reader ends level with the writer, and skips events only if they are no longer held |
| `KernelLog.RingLog.SyncAllReaders` | kernel/domain/services/logging.c:258-272 | the same for all registered readers, each on its own |
| `KernelLog.RingLog.LogMessage` | kernel/domain/services/logging.c:284-329 | the log grows by this event, and every registered reader has received the whole log from its first event on |
| `KernelLog.RingLog.LogRun` | kernel/domain/services/logging.c:284-329 | over any run of messages the log is the run, the ring spells its held part, and every reader has received it in order |
| `KernelLog.WroteShort` | kernel/application/syscalls/puts.c:37-40 | a message within the maximum that the system call enforces is stored as an event of the log |
| `KernelLog.LongMessageIff` | kernel/domain/services/logging.c:319-324 | for any message, exactly when what is read back is what was stored and exactly when the write pointer stays in its reserved space |
| `KernelLog.DeliveredIff` | kernel/domain/services/logging.c:192-195 | a reader is handed the event just written if and only if its text is not empty or it is at the start of the ring |
| `KernelLog.HandedAgain` | kernel/domain/services/logging.c:242-252 | after an empty message elsewhere it is handed the first event of the lap instead |
| `Objects.ReferencedInUse` | kernel/domain/entities/object.c:125-141 | an object with a reference has a positive count and has not been handed back to its cache |
| `Objects.TakeKeeps` | kernel/domain/entities/object.c:110-112 | counts still equal the references after one is taken |
| `Objects.DropKeeps` | kernel/domain/entities/object.c:125-141 | counts still equal the references after one is dropped, and the count was positive |
| `Objects.LoseKeeps` | kernel/domain/entities/endpoint.c:135-144 | losing a receiving slot keeps the receiver count equal to the slots that receive |
| `Objects.MarkKeeps` | kernel/domain/entities/object.c:92-103 | an object can be marked destroyed without disturbing any count |
| `Objects.NothingLeft` | kernel/domain/entities/endpoint.c:200-209 | an object without references is in the state its cache constructor set, so it can go back to the cache |
| `Objects.CloseSlotKeeps` | kernel/domain/entities/descriptor.c:290-315 | the reference of a slot that is closed is still counted until it is dropped |
| `Objects.OpenSlotKeeps` | kernel/domain/entities/descriptor.c:263-277 | opening a slot adds one reference, and one receiver if it can receive |
| `Objects.StartKeepsIff` | kernel/domain/entities/thread.c:155-163 | starting a thread keeps every count right and every running thread in a live process if and only if its process is live |
| `Objects.CascadeHoused` | kernel/domain/entities/object.c:92-103 | whatever is destroyed along with something else, a process with a running thread is not |
| `Objects.ExitHoused` | kernel/domain/entities/thread.c:206-227 | after an exit the threads that still run are in live processes |
| `Objects.ExitKeeps` | kernel/domain/entities/thread.c:206-227 | the two references of a running thread are accounted for until they are dropped |
| `Objects.RenewKeeps` | kernel/domain/entities/endpoint.c:158-166 | an object from its cache can be used again without any reference to its former life |
| `Objects.ObjectTable.AddRef` | kernel/domain/entities/object.c:110-112 | one more reference, nothing else |
| `Objects.ObjectTable.SubRef` | kernel/domain/entities/object.c:125-141 | the count never goes negative; only at zero is anything destroyed or freed, and nothing is destroyed that was neither freed nor out of receivers |
| `Objects.ObjectTable.Free` | kernel/domain/entities/endpoint.c:207-209 | an object goes back to its cache in its constructed state, with no reference to it left |
| `Objects.ObjectTable.Destroy` | kernel/domain/entities/object.c:92-103 | destroying is done once, terminates although it closes descriptors that destroy further objects, and destroys only what follows from it |
| `Objects.ObjectTable.CloseDescriptors` | kernel/domain/entities/process.c:149-157 | all open slots of a destroyed process are closed and none of their references remains |
| `Objects.ObjectTable.Close` | kernel/domain/entities/object.c:75-81 | a reference in hand is dropped; an endpoint that loses its last receiver is destroyed |
| `Descriptors.DereferenceIff` | kernel/domain/entities/descriptor.c:66-72 | a number that passes the bounds check is in the table if and only if it is not the table size |
| `Descriptors.RunningCalls` | kernel/domain/entities/thread.c:155-163 | whoever runs is in a live process and can make a system call |
| `Descriptors.AccessObject` | kernel/domain/entities/descriptor.c:97-170 | exactly when it succeeds and with which errors; the object is live and referenced; a slot on a destroyed object is closed |
| `Descriptors.Unreference` | kernel/domain/entities/descriptor.c:181-183 | dropping the copy undoes taking it when the object is referenced elsewhere |
| `Descriptors.ReserveUnused` | kernel/domain/entities/descriptor.c:205-224 | exactly the free slots can be reserved |
| `Descriptors.FreeReservation` | kernel/domain/entities/descriptor.c:236-246 | a reservation is undone |
| `Descriptors.OpenDescriptor` | kernel/domain/entities/descriptor.c:263-277 | only the reserved slot and its object change |
| `Descriptors.CloseDescriptor` | kernel/domain/entities/descriptor.c:290-315 | exactly when it succeeds; the slot is free, its object loses a reference, nobody gains anything |
| `Descriptors.Boot` | kernel/domain/services/exec.c:48-72 | the first process and thread satisfy every invariant, and the thread runs |
| `Descriptors.Mint` | kernel/application/syscalls/mint.c:104-119 | every error code; succeeds if and only if the caller holds the owner descriptor, the permissions are of the type and not empty, the target lets itself be given descriptors and the slot is free; the new descriptor is exactly as asked and not an owner |
| `Descriptors.MintWithOwner` | kernel/application/syscalls/mint.c:70-102 | the part with the owner descriptor in hand, with the same condition |
| `Descriptors.MintWithTarget` | kernel/application/syscalls/mint.c:38-68 | the part with the target process in hand |
| `Descriptors.Dup` | kernel/application/syscalls/dup.c:90-105 | every error code; succeeds if and only if the source is live and not an owner descriptor and there is room in a process that allows it; the copy is equal |
| `Descriptors.DupWithTarget` | kernel/application/syscalls/dup.c:60-88 | the part with the target process in hand, with the same condition |
| `Descriptors.DupWithSource` | kernel/application/syscalls/dup.c:39-58 | the part with both descriptors in hand |
| `Descriptors.StatusIff` | kernel/application/syscalls/mint.c:38-119 | minting and duplicating report success exactly if every condition on the descriptors, the permissions and the slot holds |
| `Descriptors.CacheKeepsConstructed` | kernel/domain/entities/endpoint.c:158-166 | an object that comes back from its cache is as new although only its header is initialized again |
| `Descriptors.NewIsUnknown` | kernel/domain/entities/endpoint.c:158-166 | nothing refers to an object that is made for the first time |
| `Descriptors.CreatedIs` | kernel/domain/entities/descriptor.c:263-277 | a new object has one reference, the slot that owns it is the only new one, and nobody stops running |
| `Descriptors.UndoCreated` | kernel/application/syscalls/create_thread.c:67-80 | holding the target process while an object is created makes no difference in the end |
| `Descriptors.ReservedSame` | kernel/application/syscalls/create_thread.c:67-97 | reserving a slot first does not change what a request for a thread comes to |
| `Descriptors.CreateEndpoint` | kernel/application/syscalls/create_endpoint.c:48-71 | every error code; the only new descriptor is the caller's owner descriptor, and the endpoint has one reference and one receiver |
| `Descriptors.CreateProcess` | kernel/application/syscalls/create_process.c:38-61 | every error code; the only new descriptor is the caller's owner descriptor |
| `Descriptors.CreateThread` | kernel/application/syscalls/create_thread.c:82-97 | every error code and exactly when it succeeds; the thread belongs to the target process, its owner descriptor to the caller; a failed call leaves no reservation |
| `Descriptors.CreateReserved` | kernel/application/syscalls/create_thread.c:67-80 | the part with the slot reserved, with every error code; the slot stays reserved on failure |
| `Descriptors.CreateWithTarget` | kernel/application/syscalls/create_thread.c:40-65 | the part with the target process in hand, with every error code |
| `Descriptors.StartThread` | kernel/application/syscalls/start_thread.c:38-75 | every error code; succeeds if and only if the descriptor may start a thread that does not run; the thread and its process gain one reference each |
| `Descriptors.StartHeld` | kernel/application/syscalls/start_thread.c:38-57 | the part with the descriptor in hand, with every error code |
| `Descriptors.ClosedTwice` | kernel/domain/entities/descriptor.c:290-315 | closing a slot of a destroyed process that is still marked open leaves its object with one reference more than it counts |
| `Descriptors.RestartExample` | kernel/application/syscalls/start_thread.c:38-75 | calls that lead from the first process to a state in which a thread can be started in a destroyed process, and in which closing a descriptor there breaks a count |
| `Descriptors.Aftermath` | kernel/domain/entities/process.c:219-230 | what the exit of its last thread leaves of a process that is still held |
| `Descriptors.RemoveRunningThread` | kernel/domain/entities/process.c:219-230 | a process without running threads is destroyed |
| `Descriptors.ExitThread` | kernel/domain/entities/thread.c:206-227 | the thread no longer runs, its references are gone, and with the last thread the process is gone |
| `Descriptors.DestroyEndpoint` | kernel/application/syscalls/destroy.c:39-67 | every error code; through the owner descriptor of a live endpoint, which is then destroyed with empty queues |
| `Descriptors.DestroyHeld` | kernel/application/syscalls/destroy.c:39-53 | the part with the descriptor in hand, with every error code |
| `Descriptors.Begin` | kernel/application/syscalls/send.c:39-60 | sending, receiving and awaiting, up to where they may block: every error code, and exactly one counted reference is kept in hand |
| `Descriptors.InCallsMore` | kernel/application/syscalls/receive.c:39-66 | the references in hand are one for each thread inside a call when another call begins |
| `Descriptors.InCallsLess` | kernel/application/syscalls/receive.c:39-66 | and when one is over |
| `Descriptors.ExecuteAtOnce` | kernel/domain/entities/descriptor.c:40-315 | every call that does not block keeps all counts, spreads only what the caller's own descriptors allow, and stops nobody but the caller |
| `Descriptors.Execute` | kernel/domain/entities/descriptor.c:40-315 | the same for the two halves of calls that block; the references in hand are those of the calls that are not over |
| `Descriptors.NoAmplification` | kernel/application/syscalls/mint.c:38-119 | in one step an object without owner descriptor gets none, and no permission on it appears that nobody held |
| `Descriptors.NoAmplificationOverRuns` | kernel/application/syscalls/dup.c:39-105 | the same from any state of a run to its end, by any callers |
| `Descriptors.Run` | kernel/interface/syscalls.c:641-710 | any script of these calls by any threads, from the first process on, calls that block interleaved with others, keeps all counts, and at its end an object that lost its owner on the way has none and no permission on it has been added |
| `Ipc.EveryoneHasAWaker` | kernel/domain/services/ipc.c:211-435 | in a strict state every blocked thread is in exactly one place where somebody will find it and wake it |
| `Ipc.LostIff` | kernel/domain/services/ipc.c:211-435 | the waker recorded for a thread says exactly whether it is blocked, on no queue, held by no receiver and awaited by nobody who will finish |
| `Ipc.TakenAgainIff` | kernel/domain/services/ipc.c:293-348 | taking a sender loses a thread if and only if the receiver held it and had not answered it |
| `Ipc.DroppedIff` | kernel/domain/services/ipc.c:325-346 | giving up a message loses a thread if and only if the receiver held it |
| `Ipc.HandedOverIff` | kernel/domain/services/ipc.c:211-271 | handing a message to a waiting receiver loses a thread if and only if the receiver still held it |
| `Ipc.ReceivedAgainIff` | kernel/domain/services/ipc.c:301-309 | waiting for a message leaves a thread to be forgotten if and only if the receiver held it |
| `Ipc.StuckOverall` | kernel/domain/services/ipc.c:211-435 | over a step, exactly the spoiled threads are added to those nobody will answer, and whoever is lost stays lost |
| `Ipc.NobodyLost` | kernel/domain/services/ipc.c:211-435 | in a strict state nobody is without a waker |
| `Ipc.NeverMovesBack` | kernel/domain/services/scheduler.c:71-106 | a thread that stays ready never moves back in the ready queue |
| `Ipc.NeverMovesBackOverRuns` | kernel/domain/services/scheduler.c:71-106 | nor over any number of steps during which it stays ready |
| `Ipc.HandOverKeeps` | kernel/domain/services/ipc.c:211-271 | handing a message to a waiting receiver keeps the place of every thread unique |
| `Ipc.TakeSenderKeeps` | kernel/domain/services/ipc.c:293-348 | so does taking the first sender of a queue |
| `Ipc.TerminateKeeps` | kernel/domain/entities/thread.c:206-227 | so does terminating a thread, whose awaiter and sender are two different threads |
| `Ipc.Kernel.SwitchToNext` | kernel/domain/services/scheduler.c:233-273 | the first ready thread runs and is the only one to leave the queue |
| `Ipc.Kernel.Send` | kernel/domain/services/ipc.c:211-271 | the first waiting receiver runs at once with this sender, or the sender is last on the queue |
| `Ipc.Kernel.Receive` | kernel/domain/services/ipc.c:293-348 | the sender that is taken is the first whose message fits; those before it, and only those, are woken with an error; nobody is left without an answer but a sender still held or one with a bad buffer |
| `Ipc.Kernel.ResumeReceive` | kernel/domain/services/ipc.c:314-348 | a receiver that was woken has a sender or reports why it has none |
| `Ipc.Kernel.FailReceive` | kernel/domain/services/ipc.c:317-320 | when the endpoint is gone the receiver fails and holds nobody |
| `Ipc.Kernel.TakeDelivery` | kernel/domain/services/ipc.c:325-346 | a message that was handed over is taken, refused or found not to fit, and only a bad buffer leaves its sender without an answer |
| `Ipc.Kernel.SkipTooBig` | kernel/domain/services/ipc.c:293-348 | messages that are too big are rejected in order until one fits or none is left |
| `Ipc.Kernel.Reply` | kernel/domain/services/ipc.c:364-388 | done if and only if there is a sender, the reply can be read and fits; then the sender runs at once and the replier is last in the ready queue |
| `Ipc.Kernel.ReplyError` | kernel/domain/services/ipc.c:401-416 | the same with an error code |
| `Ipc.Kernel.AbortFirstSender` | kernel/domain/services/ipc.c:432-435 | the first queued sender, and nobody else, is woken with an error; nobody is lost by it |
| `Ipc.Kernel.Await` | kernel/domain/entities/thread.c:236-259 | every outcome, and that a waiting thread is woken by the thread it waits for |
| `Ipc.Kernel.ExitThread` | kernel/domain/entities/thread.c:206-227 | the awaiter and the sender without answer are made ready, in this order; the endpoints that go with the process are destroyed after the next thread has been chosen, even inside a call, and nobody is lost by it |
| `Ipc.Kernel.DestroyAll` | kernel/domain/services/scheduler.c:253-273 | any endpoints can be destroyed one after the other while the chosen thread is inside a call |
| `Ipc.Kernel.Start` | kernel/domain/entities/thread.c:193-197 | exactly threads that are new or have terminated can be started |
| `Ipc.Kernel.DestroyEndpoint` | kernel/domain/entities/endpoint.c:175-197 | everybody queued is woken with an error, senders first, in queue order, and no other endpoint changes |
| `Ipc.Kernel.Tick` | kernel/domain/services/scheduler.c:141-147 | credits go down to zero and not below |
| `Ipc.Kernel.Reschedule` | kernel/domain/services/scheduler.c:112-136 | a thread without credits goes to the end of the queue and the first one runs, if there is one |
| `Ipc.Kernel.Perform` | kernel/domain/services/ipc.c:211-435 | every operation keeps the invariant and the order of the ready queue; only receiving before answering, or a bad buffer, can end strictness or spoil a thread |
| `Ipc.Kernel.Run` | kernel/domain/services/ipc.c:211-435 | every run keeps the invariant; ready threads never move back; a run without misuse keeps a waker for everybody; whoever is stuck at the end was stuck before or was spoiled by a misuse, and whoever is lost stays lost |
| `IntrusiveList.List.Enqueue` | include/kernel/utils/list.h:80-96 | the chain of nodes is the queue with the node at its end, from an empty queue too |
| `IntrusiveList.List.Dequeue` | include/kernel/utils/list.h:98-114 | the first node is taken; null exactly when the queue is empty |
| `IntrusiveList.Queues.Put` | include/kernel/utils/list.h:80-96 | one queue grows at its end; the others keep contents and order although they share node fields |
| `IntrusiveList.Queues.Take` | include/kernel/utils/list.h:98-114 | one queue loses its first node, which is then on no queue |
| `Message.ReceiveBuffersSize` | kernel/domain/services/ipc.c:52-92 | accepted exactly when all buffers are good; the size is their total, capped |
| `Message.Thread.Gather` | kernel/domain/services/ipc.c:102-137 | succeeds exactly when buffers are good and hold no more than a message; the message is their contents in order |
| `Message.Thread.GatherNext` | kernel/domain/services/ipc.c:109-134 | one buffer more, exactly if it is good and fits |
| `Message.Thread.Scatter` | kernel/domain/services/ipc.c:147-186 | succeeds exactly when the buffers that are needed are good; the message is spread over them in order |
| `Message.Deliver` | kernel/domain/services/ipc.c:325-346 | too big exactly when it exceeds the capacity, and then nothing is written |
| `Message.Transfer` | kernel/domain/services/ipc.c:211-348 | a whole transfer is delivered exactly when every check passes, and receive buffers whose parts do not overlap then read back what the send buffers held |
| `Message.ScatteredReadBack` | kernel/domain/services/ipc.c:147-186 | what is spread over buffers whose parts do not overlap is read back |
| `Message.ReadBackIff` | kernel/domain/services/ipc.c:147-186 | every message of a length is read back from every memory if and only if the parts of the buffers that it reaches do not overlap |
| `Message.NothingLeft` | kernel/domain/services/ipc.c:147-186 | stopping at the end of the message is the same as going through all buffers |
| `Message.OverlapExample` | kernel/domain/services/ipc.c:147-186 | two overlapping buffers do not read back what was written |
| `SlabGeometry.CacheInitSound` | kernel/domain/alloc/slab.c:125-198 | every request gives a geometry in which object, link word and red zone fit and sizes are multiples of the alignment |
| `SlabGeometry.AlignmentMet` | kernel/domain/alloc/slab.c:71-90 | an alignment is met if and only if it divides a word or is a whole number of words or, below a cache line that is asked for, divides the line |
| `SlabGeometry.CacheLineMet` | kernel/infrastructure/i686/cpuinfo.c:484-492 | objects are aligned to the cache lines that are asked for if and only if the alignment is no larger, or is less than a word short of a whole number of lines |
| `SlabGeometry.LinkOutsideObject` | kernel/domain/alloc/slab.c:152-185 | exactly when the link word is outside the object |
| `SlabGeometry.BuffersApart` | kernel/domain/alloc/slab.c:499-534 | buffers do not overlap |
| `SlabGeometry.BuffersAligned` | kernel/domain/alloc/slab.c:489-500 | every buffer of every colour is aligned |
| `SlabGeometry.ColourSteps` | kernel/domain/alloc/slab.c:489-497 | the next colour is a colour |
| `SlabGeometry.CarvingStops` | kernel/domain/alloc/slab.c:503-534 | carving stops after exactly as many buffers as the size computation expects |
| `SlabGeometry.FirstFitsIff` | kernel/domain/alloc/slab.c:499-534 | the first buffer is clear of the slab header if and only if the object is not too large for a slab |
| `Slab.LiveApart` | kernel/domain/alloc/slab.c:207-330 | allocated buffers are disjoint and inside their page |
| `Slab.PushFrontLinks` | kernel/domain/alloc/slab.c:229-248 | a slab pushed in front of a list whose head has a stale back link |
| `Slab.UnlinkLinks` | kernel/domain/alloc/slab.c:431-441 | a slab taken out of the middle, the front or the end of such a list |
| `Slab.PopKeeps` | kernel/domain/alloc/slab.c:251-257 | taking the first free buffer keeps the free list and the allocated buffers a partition of the slab |
| `Slab.PushKeeps` | kernel/domain/alloc/slab.c:423-426 | so does putting one back |
| `Slab.NewSlabKeeps` | kernel/domain/alloc/slab.c:469-535 | a new slab disturbs no other |
| `Slab.ReleaseKeeps` | kernel/domain/alloc/slab.c:550-573 | the page of a slab that is released holds no allocated buffer |
| `Slab.CacheInitOk` | kernel/domain/alloc/slab.c:125-198 | every request for objects that fit a slab gives a cache in which objects, link words and red zones do not get in the way of each other |
| `Slab.Cache.constructor` | kernel/domain/alloc/slab.c:125-198 | a new cache for any such request, with one empty slab and nothing allocated |
| `Slab.Cache.EmptyToPartial` | kernel/domain/alloc/slab.c:224-248 | the first empty slab becomes the first partial one |
| `Slab.Cache.PartialToFull` | kernel/domain/alloc/slab.c:261-280 | a slab without free buffers goes to the full list |
| `Slab.Cache.FullToPartial` | kernel/domain/alloc/slab.c:371-393 | a full slab goes to the partial list |
| `Slab.Cache.PartialToEmpty` | kernel/domain/alloc/slab.c:428-452 | a slab with nothing allocated goes to the empty list, and the count of empty slabs is right |
| `Slab.Cache.Revive` | kernel/domain/alloc/slab.c:284-305 | a warning exactly when a word of a free object was changed |
| `Slab.Cache.Dress` | kernel/domain/alloc/slab.c:282-329 | no warning for a free object; the client gets it constructed and with its red zone |
| `Slab.Cache.Undress` | kernel/domain/alloc/slab.c:395-425 | a warning exactly when the red zone was overwritten; the object is fit for the free list |
| `Slab.Cache.Carve` | kernel/domain/alloc/slab.c:499-534 | the page holds the expected number of buffers, all chained, and nothing outside is written |
| `Slab.Cache.InitAndAddSlab` | kernel/domain/alloc/slab.c:469-535 | an empty slab is added in front and no allocated object is touched |
| `Slab.Cache.Alloc` | kernel/domain/alloc/slab.c:207-330 | null exactly without free buffer and page; otherwise a buffer that was not allocated, constructed, and no allocated object is touched |
| `Slab.Cache.Free` | kernel/domain/alloc/slab.c:360-455 | exactly this object is no longer allocated, and no other is touched |
| `Slab.Cache.Write` | kernel/domain/alloc/slab.c:207-455 | a client that stays inside its object disturbs neither the cache nor other objects |
| `Slab.Cache.Reap` | kernel/domain/alloc/slab.c:583-599 | exactly the empty slabs beyond the working set are released, and their pages hold nothing allocated |
| `Slab.Cache.Serve` | kernel/domain/alloc/slab.c:207-599 | one request changes only what it names |
| `Slab.Cache.Run` | kernel/domain/alloc/slab.c:207-599 | over any run the objects held by the client are distinct and exactly the allocated ones |
| `LazyFpu.Machine.constructor` | kernel/infrastructure/i686/fpu.c:151-172 | a thread starts with the initial state |
| `LazyFpu.Machine.UserCompute` | kernel/infrastructure/i686/fpu.c:277-306 | user code that can use the FPU finds its own registers there |
| `LazyFpu.Machine.UserFirstUse` | kernel/infrastructure/i686/fpu.c:195-210 | the first use traps and is never taken for an invalid instruction |
| `LazyFpu.Machine.SaveFpuState` | kernel/infrastructure/i686/fpu.c:247-270 | the registers are saved exactly when they hold the thread's state |
| `LazyFpu.Machine.SwitchThread` | kernel/infrastructure/i686/thread.c:163-178 | a switch loses no thread's state |
| `LazyFpu.Machine.PrepareThread` | kernel/infrastructure/i686/thread.c:107-138 | a thread that is started again has the initial state and nothing of its former life |
| `LazyFpu.Machine.SaveForSignal` | kernel/infrastructure/i686/fpu.c:338-361 | the frame has the thread's state, and the thread goes on with it or, exactly when saving resets the registers, with the initial state |
| `LazyFpu.Machine.RestoreForSignal` | kernel/infrastructure/i686/fpu.c:368-388 | the thread's state is that of the frame, used or not |
| `LazyFpu.Machine.ReturnToUser` | kernel/infrastructure/i686/fpu.c:277-306 | user code runs with its own registers or traps on first use; when the restore itself traps |
| `LazyFpu.Machine.Step` | kernel/infrastructure/i686/fpu.c:195-388 | one step of the machine is one step of the private FPUs, whatever the state of the hardware |
| `LazyFpu.Machine.Run` | kernel/infrastructure/i686/fpu.c:195-388 | over every interleaving user code sees what private FPUs would show |
| `LazyFpu.Isolated` | kernel/infrastructure/i686/fpu.c:195-388 | over any run of private FPUs a thread's registers change only by its own instructions, its signals and its start |
| `LazyFpu.FnsaveExample` | kernel/infrastructure/i686/fpu.c:217-224 | without FXSAVE a signal handler starts with the initial registers |
| `Signals.DecodeEncode` | kernel/application/syscalls/get_set_signal_mask.c:40-87 | a mask survives the trip through the set of user space |
| `Signals.MembersAgree` | userspace/lib/jinue/sigset.c:94-101 | library and kernel agree on which signals a set has |
| `Signals.AddDelete` | userspace/lib/jinue/sigset.c:58-78 | adding and removing changes the membership of one signal only |
| `Signals.SaveRegisters` | kernel/interface/i686/signal.c:57-151 | every register is saved in its slot of the context |
| `Signals.RestoreSaved` | kernel/interface/i686/signal.c:162-220 | restoring what was saved gives back the registers and the user flags, and no privileged flag changes |
| `Signals.ContextBelow` | kernel/interface/i686/signal.c:57-151 | what is put on the stack is below everything that was there |
| `Signals.ContextAccepted` | kernel/interface/i686/signal.c:162-169 | a context that was delivered passes the checks of the return |
| `Signals.FindFirst` | kernel/interface/signal.c:50-106 | the lowest signal is chosen |
| `Signals.Signalling.CheckForSignal` | kernel/interface/signal.c:50-106 | none exactly without handler or deliverable signal; otherwise the synchronous or lowest one, one pending bit is cleared, it is blocked, and the context saved has the mask from before |
| `Signals.Signalling.DeliverSignal` | kernel/interface/i686/signal.c:57-151 | the context is stored and the thread continues in the handler, or nothing changes when the stack has no room |
| `Signals.SeenAgainIff` | kernel/interface/syscalls.c:579-589 | a frame that was saved is seen again, after the result of the call is written, if and only if its eax, ebx, esi and edi are zero; everything else of it always is |
| `Signals.InterruptsOnIff` | kernel/interface/i686/trap.asm:199-236 | a program goes on with interrupts on if and only if its handler went back through the interrupt gate, or by the instruction that the program was interrupted in |
| `Signals.Signalling.SysReturnFromSignal` | kernel/interface/syscalls.c:579-589 | refused exactly if the context or its FPU registers are not in user space, and then only the error is reported; otherwise whatever frame was saved comes back but for the result, with its mask, and no privileged flag or code segment changes |
| `Signals.Signalling.Interrupt` | kernel/interface/signal.c:50-106 | exactly when the program is interrupted, and what it finds when its handler has gone back |
| `Signals.ReturnExample` | kernel/interface/syscalls.c:60-65 | a program interrupted with a 7 in eax goes on with a 0 |
| `Signals.Signalling.Execute` | kernel/interface/signal.c:50-106 | over any nesting of handlers, contexts below are untouched, and every program that was interrupted finds its mask, flags and registers again, but for the result of the handler's call |
| `Signals.Signalling.GetSetMask` | kernel/application/syscalls/get_set_signal_mask.c:40-87 | exactly when it succeeds, the old mask, and the new one for every request |
| `Cmdline.StepKeeps` | kernel/domain/services/cmdline.c:144-512 | one character never lets the items outgrow the line and never puts a NUL in one |
| `Cmdline.ItemsFit` | kernel/domain/services/cmdline.c:144-512 | all strings of all items, with terminators, fit in the space of the line |
| `Cmdline.ItemsFew` | kernel/domain/services/cmdline.c:144-512 | there are no more items than half the characters of the line |
| `Cmdline.ParseWritten` | kernel/domain/services/cmdline.c:144-512 | parsing a line written from any words, quoted or not, with dashes or not, before and after the double dash, with any blanks between and around them, gives back these words |
| `Cmdline.WholeWordIff` | kernel/domain/services/cmdline.c:314-341 | a word without an equal sign or quote is found whole if and only if it is not a dash and does not start with two |
| `Cmdline.DashesLost` | kernel/domain/services/cmdline.c:328-341 | a word that starts with two dashes loses its first three characters and nothing else |
| `Cmdline.DashSwallows` | kernel/domain/services/cmdline.c:314-327 | a single dash, the separator after it and the next word are found as one argument |
| `InitialStack.Parser.Mutate` | kernel/domain/services/cmdline.c:144-512 | each call finds the next item, so that calls to the end find all of them in order |
| `InitialStack.EntryByToken` | kernel/domain/services/cmdline.c:522-570 | the first definition that is equal with dashes and underscores the same, if any |
| `InitialStack.CountArguments` | kernel/domain/services/cmdline.c:970-985 | the number of arguments that will be written |
| `InitialStack.CountEnviron` | kernel/domain/services/cmdline.c:998-1013 | the number of variables that will be written |
| `InitialStack.FilterUserspaceEnviron` | kernel/domain/services/cmdline.c:923-926 | exactly the kernel's own options are kept back |
| `InitialStack.WriteArguments` | kernel/domain/services/cmdline.c:897-912 | all arguments, each with a terminator, and nothing around them changes |
| `InitialStack.WriteEnviron` | kernel/domain/services/cmdline.c:940-957 | all variables that are passed on, each with a terminator, and nothing around them changes |
| `InitialStack.StringsFit` | kernel/infrastructure/elf.c:405-479 | arguments and variables together fit in the space that is set aside for them |
| `InitialStack.ReservedRoom` | include/jinue/shared/asm/stack.h:44 | pointers, auxiliary vectors and strings fit the reserved part of the stack for every valid command line if and only if the program name has at most 20383 characters |
| `InitialStack.InitializeStringArray` | kernel/infrastructure/elf.c:191-204 | each entry points to its string and no other word changes |
| `InitialStack.InitializeStack` | kernel/infrastructure/elf.c:405-479 | the count, the argument and environment pointers, each leading to its string, the null words and the auxiliary vectors |
| `TarPath.CanonicalParts` | userspace/loader/archives/tar.c:470-505 | the canonical form of prefix and name is that of the whole path, and so is its acceptability |
| `TarPath.CanonicalLength` | userspace/loader/archives/tar.c:336-447 | the canonical form is at most one longer |
| `TarPath.CanonicalTwice` | userspace/loader/archives/tar.c:336-447 | a canonical path is its own canonical form |
| `TarPath.CanonicalComponents` | userspace/loader/archives/tar.c:336-447 | no component is empty or a single dot, and none goes to the parent |
| `TarPath.SplitJoined` | userspace/loader/archives/tar.c:336-447 | splitting a canonical path gives back the components that were joined |
| `TarPath.Sanitize` | userspace/loader/archives/tar.c:336-447 | the canonical form with a terminator, or an error exactly for paths that are not acceptable |
| `TarPath.ParseFilename` | userspace/loader/archives/tar.c:470-505 | exactly when a header has a file name, which one, and that it always fits |
| `DirentList.FindByName` | userspace/lib/jinue/loader.c:64-76 | the first entry of that name, null exactly when there is none |
| `DirentList.Names` | userspace/lib/jinue/loader.c:38-62 | walking the list across blocks gives all entries in order |
| `DirentList.Archive.constructor` | userspace/loader/archives/alloc.c:200-232 | a new list is empty |
| `DirentList.Archive.Walk` | userspace/lib/jinue/loader.c:38-62 | what user space walks is what the loader appended |
| `DirentList.Archive.AllocateDirent` | userspace/loader/archives/alloc.c:245-256 | the terminator becomes the entry and the slot after it the terminator |
| `DirentList.Archive.Append` | userspace/loader/archives/alloc.c:273-290 | null exactly when the block is full and there is no page; otherwise one more entry at the end, in a linked block if need be |
| `DirentList.Archive.Add` | userspace/loader/archives/alloc.c:273-290 | the list of names grows by one at its end |
| `DirentList.BuildAndFind` | userspace/lib/jinue/loader.c:64-76 | a name is found in a list exactly when it was put there |
| `Numerals.ShownDenotes` | userspace/lib/libc/vsnprintf.c:247-353 | a numeral has only digits, denotes its number, has at least as many digits as asked and no needless leading zero |
| `Numerals.ShownOnly` | userspace/lib/libc/vsnprintf.c:247-353 | no other string does |
| `Numerals.DecodeOctalField` | userspace/loader/archives/tar.c:97-113 | the number written by the first run of octal digits |
| `Numerals.OctalRunAmid` | userspace/loader/archives/tar.c:97-113 | a numeral with other text around it is found |
| `Numerals.MatchInteger` | kernel/domain/services/cmdline.c:662-734 | a value exactly for one to nine decimal digits, or for the form with a NUL |
| `Numerals.HexadecimalRejected` | kernel/domain/services/cmdline.c:650-707 | no hexadecimal value is accepted |
| `Formatter.State.WriteChar` | userspace/lib/libc/vsnprintf.c:164-173 | the output is counted, and stored as far as it fits unless this is a dry run |
| `Formatter.State.WriteString` | userspace/lib/libc/vsnprintf.c:175-188 | the string up to its NUL or the precision |
| `Formatter.State.WriteDigits` | userspace/lib/libc/vsnprintf.c:206-293 | shifting digits out from the top writes the numeral of the value reduced to its places, with at least the digits asked for |
| `Formatter.State.WriteOctal` | userspace/lib/libc/vsnprintf.c:247-293 | the octal numeral with its prefix |
| `Formatter.State.WriteHexadecimal` | userspace/lib/libc/vsnprintf.c:190-245 | the hexadecimal numeral with its prefix |
| `Formatter.State.WriteUnsigned` | userspace/lib/libc/vsnprintf.c:295-353 | dividing by falling powers of ten writes the numeral of the value reduced to its size |
| `Formatter.State.WriteSigned` | userspace/lib/libc/vsnprintf.c:355-369 | sign and magnitude |
| `Formatter.State.GoBack` | userspace/lib/libc/vsnprintf.c:86-93 | after a dry run everything is as it was and the length is known |
| `Formatter.State.Measure` | userspace/lib/libc/vsnprintf.c:544-679 | a dry run leaves no trace and gives the exact length |
| `Formatter.State.Justify` | userspace/lib/libc/vsnprintf.c:544-679 | the text, padded on the right side with the right character |
| `Formatter.State.ProcessConversion` | userspace/lib/libc/vsnprintf.c:544-679 | what each conversion writes and how many arguments it takes |
| `Formatter.State.ParseNumeric` | userspace/lib/libc/vsnprintf.c:382-392 | the number that the run of digits denotes |
| `Formatter.State.ParseFlags` | userspace/lib/libc/vsnprintf.c:394-429 | each flag is set exactly when its character is in the run of flags |
| `Formatter.State.ParseDirective` | userspace/lib/libc/vsnprintf.c:431-508 | flags, width, precision, length and conversion, and where they end |
| `Formatter.State.Render` | userspace/lib/libc/vsnprintf.c:688-713 | the output is the complete rendering of the format |
| `Formatter.Vsnprintf` | userspace/lib/libc/vsnprintf.c:681-718 | the length of the rendering is returned for every size; the buffer holds as much of it as fits, a NUL, and then what it held before |
| `Formatter.LiteralText` | userspace/lib/libc/vsnprintf.c:694-699 | text without directives is rendered as it stands |
| `Formatter.FieldLength` | userspace/lib/libc/vsnprintf.c:514-542 | a field is as wide as asked, or as its text |
| `Formatter.DecimalReadBack` | kernel/domain/services/cmdline.c:662-734 | an unsigned field is read back as an option value, as the argument, exactly when it has at most nine characters and no space pads it |
| `Formatter.OctalReadBack` | userspace/loader/archives/tar.c:97-113 | an octal field, however padded, is read back from a header as what was written |
| `Formatter.OctalExactIff` | userspace/lib/libc/vsnprintf.c:247-293 | octal output of a char is of its value if and only if the bit above is clear |
| `Formatter.OctalShortExactIff` | userspace/lib/libc/vsnprintf.c:247-293 | octal output of a short is of its value if and only if the two bits above are clear |
| `Formatter.HexadecimalDenotes` | userspace/lib/libc/vsnprintf.c:190-245 | hexadecimal output denotes the argument reduced to its size |
| `Formatter.SignedIff` | userspace/lib/libc/vsnprintf.c:355-369 | signed output denotes the argument if and only if its magnitude fits the size |
| `Formatter.SignFirstIff` | userspace/lib/libc/vsnprintf.c:514-528 | the sign of a negative number comes first if and only if nothing is padded in front |

## Left out

- KernelLog.RingLog.LogMessage: stated for messages of 1 to 480 bytes; `DeliveredIff` and `LongMessageIff` say exactly what happens to the others.
- Descriptors.StartThread: asks that the process of a thread that is started is live, because the kernel does not check it; `Objects.StartKeepsIff` shows that this is exactly what is needed, and `ClosedTwice` what goes wrong without it.
- Descriptors.AccessObject: asks, like all calls that take a descriptor number, that it is not the table size; `DereferenceIff` shows that this is exactly the number that escapes the check.
- Descriptors.Run: a call that is not admissible (one of the two cases above, or an allocator that gives out an object in use) is not made; mapping memory and signalling, which take a copy of a descriptor and drop it again at once, are not among the calls.
- Slab.Cache.constructor: asks that the objects fit a slab, which is not checked; `SlabGeometry.FirstFitsIff` says exactly what happens to the others.
- Slab.Cache.Free: asks that a client gives an object back in its constructed state, which the allocator relies on and cannot check.
- Slab.Cache.Reap: the destructor that is called for the buffers of a released slab is not modelled.
- Formatter.Vsnprintf: a length beyond the range of `int`, overflow while a width or precision is read, and the negation of the most negative argument, which C leaves undefined, are not modelled.
- Numerals.DecodeOctalField: the overflow of fields longer than 21 digits is not modelled; header fields have at most 12.
- Signals.Signalling.Execute: the interrupt flag of a program that goes on is not part of its frame here; `InterruptsOnIff` has it.
- Signals.Signalling.DeliverSignal: the bytes of the FPU state in a signal context are not modelled here; `LazyFpu` has them as one value.
- The number of bytes of sizes and addresses in the slab allocator is unbounded.
- More than one CPU, spin locks, and interrupts inside the kernel.
- Address spaces, page tables, page frame allocation, memory mapping and the user space heap.
- The loading of ELF segments and the other checks on binaries.
- Descriptors inside messages, which the kernel does not copy yet.
- The archive streams (gzip, bzip2), the checksum of archive headers, and the allocator of file data and strings.
- The machine's own command line options and the report of invalid values.
- Device drivers, firmware tables, boot code and, but for the flags on the way back to user code, the assembly language stubs.
