# Verified model of the processing queues

The repository is a family of circular queues whose readers and writers do not lock against each other, with a
protocol that enlarges the ring while threads run. This project models that core in Dafny and proves what it
promises. `dafny verify dfyconfig.toml` checks everything.

| file | what it models |
|---|---|
| `RingIndex.dfy` | index arithmetic, the emptiness test of `SyncQueue`, growth of the ring |
| `RingQueue.dfy` | `ReaderWriterQueue` as a class over an array, with the resize loop |
| `SingleReaderProtocol.dfy` | one reader and one writer of that ring, interleaved step by step |
| `ReaderLists.dfy` | the reader list of `SyncQueue` as a value, and the shape it keeps |
| `SyncReaderList.dfy` | `SyncReaderList` as a class over `next` and `previous` pointers, proved against `ReaderLists.dfy` |
| `SyncQueueProtocol.dfy` | the multi-reader ring as a transition system: readers, writers, registration, resize |
| `SyncQueueTheorems.dfy` | what every run of it guarantees, and exactly when it can stop making progress |
| `Shutdown.dfy` | unregistering readers from a drained queue, one by one and in any order |
| `SyncQueue.dfy` | `SyncQueue` as a class; its methods are proved to take the steps of the transition system |
| `ResizeProtocol.dfy` | `addToQueue` with `ResizeControls`, any number of producers |
| `ResizeRuns.dfy` | what a call of `addToQueue` does from beginning to end, and that calls never block each other |
| `WorkerModel.dfy` | the steps of a worker thread and of the calls made on it |
| `WorkerProtocol.dfy` | one worker against any number of callers: wakeups, `start` against `stop`, death signal |
| `WorkerRuns.dfy` | runs of a worker and of the calls made on it, left alone and interleaved |
| `ProcessorProtocol.dfy` | `QueueProcessor::pause`, `resume` and `broadcast`, any number of workers and callers |
| `SystemProtocol.dfy` | producers, processor and ring together |
| `SystemRuns.dfy` | a run of all of it, from the first step to the delivery of an entry |

How the pieces fit. Every entry has an unbounded sequence number; the code sees only slots. `RingIndex` says when
comparisons of slots agree with comparisons of numbers. The classes carry the numbers as ghost state and are proved
against functions on values; the transition systems use the same functions. In the transition systems a step is one
access to a location that other threads use without the same lock, so a theorem about all runs is about all
interleavings. `SystemProtocol` puts the transition systems side by side; it does not assume that a resize finds the
ring unused, it proves it.

The assumptions under which the claims are made: memory is sequentially consistent; a ring has at least two slots; the
data array can store again, in a larger array, what it stored before; `SyncQueue::isEmpty` inside `removeSlot` is one step
(see the first finding); `isEmpty` inside `isWork` does not report a published entry as missing, which holds if the
compiler evaluates the operand with the write index first (see the second finding); a wait in `Worker::pause` returns
only after a signal.

## Where the code does not do what its documentation says

The members named show each case by an example, and say under which condition the code does keep its promise.

- `SyncQueue::isEmpty` reads `readIndex` twice. If other readers move it in between, a slot that was never written can be
  reported as populated: `TornEmptyTestFails`; exactly when, for every order of evaluation: `TornEmptyTestWriteFirst`,
  `TornEmptyTestReaderFirst`.
- If the operand with the reader's index is evaluated first, a published entry can be reported as missing
  (`TornTestHidesEntry`), exactly when `readIndex` goes around the end of the ring between the reads
  (`ReaderFirstHidesExactly`). `isWork` then lets the worker sleep on a populated slot after its producer has signalled: a
  wakeup is lost. With the write index first this cannot happen (`WriteFirstNeverHides`), and no wakeup is lost
  (`NoLostWakeup`, `NoEntryIsSleptOn`).
- The comment at `SyncReaderList.cpp:69-74` says a back reader always frees a slot. It need not: `SqueezeCanFreeNothing`,
  exactly when: `SqueezeFreesSlotExactly`. As a consequence readers and writers can wait for each other for ever when the
  ring cannot grow: `StuckIsReachable`, `StuckForever`; in every other state they can progress: `NotStuckCanProgress`.
- Growing to a size that is not the double can move a waiting reader to the wrong slot: `AdjustCanChangeNumber`, exactly
  when: `AdjustKeepsNumberExactly`.
- Unregistering while reading can hand out an entry twice or lose one (`LeavingCanRepeat`, exactly when:
  `LeavingKeepsAccountsExactly`), leave `readIndex` behind the back reader (`RemoveCanLeaveReadIndexBehind`, exactly when:
  `RemoveKeepsReadIndexExactly`), or leave a parked reader at the front of the list, level with the one behind it
  (`LeavingCanLevelFront`). It keeps everything in order exactly when `SafeToLeave` holds: `LeavingKeepsInvExactly`.
- If there are more readers than slots, some are parked. Readers of a drained queue that leave one by one, while others
  stay, lose an entry when a waiting reader leaves while a parked one is at the front: `PartialShutdownCanLose`, exactly
  then: `DrainedLeavingKeepsAccountsExactly`. When all leave, as in `stop`, nothing is lost: `ShutdownInAnyOrder`.
- `QueueProcessor::pause(true)` returns at once if the processor is paused already, even by a call that did not wait:
  `NestedBlockingPauseCanFail`. It isolates exactly when the processor is not paused yet or all workers are quiet
  already: `BlockingPauseIsolatesExactly`; this includes every pause inside one that waited: `PauseIsolation`.
- A worker that goes idle signals one waiting thread, and so does `stop`. Of two threads in `Worker::pause(true)` one is
  left asleep beside the idle worker (`SecondPauserCanBeLeft`), or beside a worker that has finished
  (`SecondPauserCanBeLeftByStop`). With one at a time none is forgotten, unless somebody resumes the worker meanwhile:
  `OnePauserIsServed`. `QueueProcessor` never has two waiting: `SleepingPauserIsServed`.
- `getNumElements` is right exactly when the ring has not wrapped: `NumElementsExact`.

## Model

| member | source | states |
|---|---|---|
| RingIndex.NextIndex | ProcessingQueues/src/queue/ProcessingQueue.h:76-78 | the next index stays inside the ring |
| RingIndex.AdjustIndex | ProcessingQueues/src/queue/ReaderWriterQueue.h:99-102 | adjusted indices lie in the one ring that starts at `readIndex` |
| RingIndex.SlotNext | ProcessingQueues/src/queue/ProcessingQueue.h:76-82 | stepping to the next index is stepping to the next sequence number |
| RingIndex.AdjustedSlot | ProcessingQueues/src/queue/ReaderWriterQueue.h:99-106 | an adjusted index is the distance from `readIndex`, in any wrap state |
| RingIndex.EmptyTestExact | ProcessingQueues/src/queue/SyncQueue.cpp:22-30 | against one snapshot of `readIndex` the circular test is "not yet published" |
| RingIndex.TornEmptyTestWriteFirst | ProcessingQueues/src/queue/SyncQueue.cpp:29-29 | with `readIndex` read anew for the second operand, the test is right if and only if the entry is published or `readIndex` passed neither the write index nor the end of the ring |
| RingIndex.TornEmptyTestReaderFirst | ProcessingQueues/src/queue/SyncQueue.cpp:29-29 | the same, if and only if, when `readIndex` is read for the reader's operand first, with the write index read before or after that |
| RingIndex.TornEmptyTestFails | ProcessingQueues/src/queue/SyncQueue.cpp:29-29 | a three-slot ring where the torn test reports an unwritten slot as populated |
| RingIndex.WriteFirstNeverHides | ProcessingQueues/src/queue/SyncQueue.cpp:29-29 | with the write index read first, a published entry is never reported missing |
| RingIndex.ReaderFirstHidesExactly | ProcessingQueues/src/queue/SyncQueue.cpp:29-29 | in the other order it is, if and only if `readIndex` went around the end of the ring between the reads |
| RingIndex.TornTestHidesEntry | ProcessingQueues/src/queue/SyncQueue.cpp:29-29 | a three-slot ring where the newest entry is reported missing |
| RingIndex.GetNewQueueSize | ProcessingQueues/src/queue/ProcessingQueue.cpp:14-27 | the new size is the double or the maximum, and never above the maximum |
| RingIndex.SizeAfterIsDoubling | ProcessingQueues/src/queue/ProcessingQueue.cpp:14-27 | after k resizes the size is min(s0 * 2^k, max), for every k |
| RingIndex.OversizedRingNeverGrows | ProcessingQueues/src/queue/ReaderWriterQueue.cpp:92-95 | a ring created above the limit keeps its size for ever |
| RingIndex.EffectiveResizesBounded | ProcessingQueues/src/queue/ProcessingQueue.cpp:14-27 | only the first 29 resizes of any run can change the size |
| RingIndex.SizeSettles | ProcessingQueues/src/queue/ProcessingQueue.cpp:14-27 | after 29 resizes the size is final |
| RingIndex.IndexArithmeticFits | ProcessingQueues/src/queue/ReaderWriterQueue.cpp:92-121 | every index sum formed on the way fits a signed 32-bit integer |
| RingContents.RelocationKeepsContents | ProcessingQueues/src/queue/ReaderWriterQueue.cpp:78-125 | moving the populated slots above the write index preserves the contents in order |
| RingContents.NumElementsExact | ProcessingQueues/src/queue/ReaderWriterQueue.h:149-151 | `getNumElements` equals the number of entries if and only if the ring is not wrapped |
| RingQueues.RingQueue.constructor | ProcessingQueues/src/queue/ReaderWriterQueue.h:111-121 | a new ring is empty |
| RingQueues.RingQueue.IsFull | ProcessingQueues/src/queue/ReaderWriterQueue.cpp:14-22 | full if and only if all slots but one hold entries |
| RingQueues.RingQueue.Insert | ProcessingQueues/src/queue/ReaderWriterQueue.cpp:30-39 | writes the write slot if and only if the entry can be stored |
| RingQueues.RingQueue.TryInsert | ProcessingQueues/src/queue/ReaderWriterQueue.cpp:41-50 | full, cannot add, or the next index with the entry written; each exactly in its case |
| RingQueues.RingQueue.Add | ProcessingQueues/src/queue/ReaderWriterQueue.cpp:52-61 | appends the entry to the contents and returns its slot, or reports why not and changes nothing |
| RingQueues.RingQueue.IsEmpty | ProcessingQueues/src/queue/ReaderWriterQueue.cpp:63-65 | empty if and only if there are no contents |
| RingQueues.RingQueue.Remove | ProcessingQueues/src/queue/ReaderWriterQueue.cpp:67-76 | takes the oldest entry off the contents, or returns the null entry and changes nothing |
| RingQueues.RingQueue.Resize | ProcessingQueues/src/queue/ReaderWriterQueue.cpp:92-125 | the contents survive any enlargement, in any wrap state; other sizes change nothing |
| RingQueues.RingQueue.CopyPopulated | ProcessingQueues/src/queue/ReaderWriterQueue.cpp:105-118 | the loop, which compares with the new size and steps with the old one, ends and copies each populated slot |
| SingleReaderProtocol.StepRefinesFifo | ProcessingQueues/src/queue/ReaderWriterQueue.cpp:14-76 | every step of either thread is a step of a bounded FIFO |
| SingleReaderProtocol.RunIsLinearizable | ProcessingQueues/src/queue/ReaderWriterQueue.cpp:14-76 | every interleaving behaves as one FIFO: full and empty are exact when observed, at most size-1 entries, returned in the order added |
| SingleReaderProtocol.CallsAreCarriedOut | ProcessingQueues/src/queue/ReaderWriterQueue.cpp:30-76 | in every interleaving the entries added are the arguments of the calls of `add` that found room, in that order, and every call of `remove` that found an entry takes one |
| SingleReaderProtocol.AddGoesThrough | ProcessingQueues/src/queue/ReaderWriterQueue.cpp:52-61 | a call of `add` that finds room can go through, whatever the reader is doing, and appends its argument |
| SingleReaderProtocol.RemoveGoesThrough | ProcessingQueues/src/queue/ReaderWriterQueue.cpp:67-76 | a call of `remove` that finds an entry can go through, whatever the writer is doing, and returns the oldest one |
| SingleReaderProtocol.ReturnedSlotStaysUnwritten | ProcessingQueues/src/queue/ReaderWriterQueue.h:18-24 | the slot last returned is not written until the reader comes back |
| ReaderLists.SpansExact | ProcessingQueues/src/queue/SyncReaderList.cpp:53-54 | the test for a list that spans the ring is exact: front and back are size-1 numbers apart |
| ReaderLists.MoveKeepsShape | ProcessingQueues/src/queue/SyncReaderList.cpp:37-123 | every outcome of `moveToFront` keeps the list ordered, the front strictly largest, within one ring, `readIndex` at the back |
| ReaderLists.SuccessfulMovePasses | ProcessingQueues/src/queue/SyncReaderList.cpp:54-64 | a move that succeeds puts the mover past all others, on the next slot; the others keep order, places and slots |
| ReaderLists.FailedMoveStays | ProcessingQueues/src/queue/SyncReaderList.cpp:65-106 | a move that fails leaves every reader where it is, the mover included, and `readIndex` too; only a mover at the back goes elsewhere, behind the front on its predecessor's slot |
| ReaderLists.SqueezeKeepsShape | ProcessingQueues/src/queue/SyncReaderList.cpp:84-95 | so does the squeeze, and numbers at the back never decrease |
| ReaderLists.AddKeepsShape | ProcessingQueues/src/queue/SyncReaderList.cpp:206-235 | so does registering a reader, in all three branches |
| ReaderLists.AddPlacesNewcomer | ProcessingQueues/src/queue/SyncReaderList.cpp:211-231 | the newcomer goes to the front on the next slot or parks with the reader behind the front; the others stay |
| ReaderLists.RemoveKeepsShape | ProcessingQueues/src/queue/SyncReaderList.cpp:125-204 | so does unregistering one, where `KeepsShape` holds |
| ReaderLists.RemoveKeepsShapeExactly | ProcessingQueues/src/queue/SyncReaderList.cpp:125-204 | and it does if and only if `KeepsShape` holds |
| ReaderLists.RemoveKeepsPlaces | ProcessingQueues/src/queue/SyncReaderList.cpp:139-192 | those who stay keep order, slots and what they found, except the front where it takes over the leaver's slot and place |
| ReaderLists.RemoveKeepsReadIndexExactly | ProcessingQueues/src/queue/SyncReaderList.cpp:173-180 | `readIndex` stays on the back reader's slot if and only if it was not a finished back reader leaving a gap |
| ReaderLists.RemoveCanLeaveReadIndexBehind | ProcessingQueues/src/queue/SyncReaderList.cpp:173-180 | a two-reader list where `readIndex` stays behind |
| ReaderLists.SqueezeFreesSlotExactly | ProcessingQueues/src/queue/SyncReaderList.cpp:66-95 | the squeeze frees a slot if and only if the back's successor is not the front and sits on another slot |
| ReaderLists.SqueezeCanFreeNothing | ProcessingQueues/src/queue/SyncReaderList.cpp:66-95 | two readers in a ring of two: the squeeze changes nothing |
| SyncReaderLists.SyncReaderList.constructor | ProcessingQueues/src/queue/SyncReaderList.h:44-44 | a new list has no readers |
| SyncReaderLists.SyncReaderList.MoveOut | ProcessingQueues/src/queue/SyncReaderList.cpp:18-35 | the pointers link exactly the other readers, in order; `readIndex` follows a leaving back |
| SyncReaderLists.SyncReaderList.MoveToFront | ProcessingQueues/src/queue/SyncReaderList.cpp:37-123 | the linked list becomes what the list function says, in every branch |
| SyncReaderLists.SyncReaderList.SqueezeBack | ProcessingQueues/src/queue/SyncReaderList.cpp:84-95 | the pointer form of the squeeze |
| SyncReaderLists.SyncReaderList.Add | ProcessingQueues/src/queue/SyncReaderList.cpp:206-235 | the linked list becomes what the list function says; a registered reader is refused |
| SyncReaderLists.SyncReaderList.Remove | ProcessingQueues/src/queue/SyncReaderList.cpp:125-204 | the linked list becomes what the list function says, in all six branches; an unregistered reader changes nothing |
| SyncReaderLists.SyncReaderList.HandOver | ProcessingQueues/src/queue/SyncReaderList.cpp:140-172 | the front takes over the slot and the place of a reader that leaves while waiting |
| SyncReaderLists.SyncReaderList.AdjustReader | ProcessingQueues/src/queue/SyncReaderList.cpp:240-250 | one reader's slot is adjusted by the rule for populated and unpopulated slots |
| SyncReaderLists.SyncReaderList.Adjust | ProcessingQueues/src/queue/SyncReaderList.cpp:237-256 | the loop over the nodes ends and adjusts every reader once, also for a reader linked to itself |
| SyncQueueProtocol.ReaderTestExact | ProcessingQueues/src/queue/SyncQueue.cpp:22-30 | in every reachable state the emptiness test of a reader is W <= p |
| SyncQueueProtocol.FullTestExact | ProcessingQueues/src/queue/ReaderWriterQueue.cpp:14-22 | in every reachable state full means size-1 entries from the back reader on |
| SyncQueueProtocol.CheckKeepsInv | ProcessingQueues/src/queue/SyncQueue.cpp:32-41 | looking at a slot keeps the invariant and delivers a number not delivered before |
| SyncQueueProtocol.MoveKeepsInv | ProcessingQueues/src/queue/SyncReaderList.cpp:37-123 | moving on, or squeezing, keeps the invariant: nothing lost, nothing repeated, `readIndex` not past the writer |
| SyncQueueProtocol.RegisterKeepsInv | ProcessingQueues/src/queue/SyncReaderList.cpp:206-235 | so does registering |
| SyncQueueProtocol.WriterStepKeepsInv | ProcessingQueues/src/queue/ReaderWriterQueue.cpp:14-61 | so does each step of a writer, however old the `readIndex` it checked against |
| SyncQueueProtocol.LeavingKeepsAccountsExactly | ProcessingQueues/src/queue/SyncReaderList.cpp:125-192 | unregistering neither repeats nor loses an entry if and only if the reader is alone, or finished and not the front, or the front waits one past its predecessor |
| SyncQueueProtocol.LeavingCanRepeat | ProcessingQueues/src/queue/SyncReaderList.cpp:188-192 | a finished front reader leaves, and its delivered entry is assigned again |
| SyncQueueProtocol.UnregisterKeepsInv | ProcessingQueues/src/queue/SyncReaderList.cpp:125-204 | where it is safe, unregistering keeps the invariant |
| SyncQueueProtocol.LeavingKeepsInvExactly | ProcessingQueues/src/queue/SyncReaderList.cpp:125-204 | unregistering keeps the whole invariant if and only if `SafeToLeave` holds |
| SyncQueueProtocol.LeavingCanLevelFront | ProcessingQueues/src/queue/SyncReaderList.cpp:188-192 | a waiting front leaves and a parked reader becomes a front that is not strictly largest, with accounts and `readIndex` intact |
| SyncQueueProtocol.AllWaitingIsDrained | ProcessingQueues/src/consumer/QueueProcessor.cpp:72-86 | if all readers wait on unpopulated slots, they wait on consecutive slots from the write index on |
| SyncQueueProtocol.WaitingReadersLeave | ProcessingQueues/src/queue/SyncReaderList.cpp:125-204 | from such a state any reader may leave, through every branch that applies, and the state stays so |
| SyncQueueProtocol.DrainedRestart | ProcessingQueues/src/queue/SyncReaderList.cpp:206-235 | any number of readers registered again continue there, nothing skipped or repeated; those beyond the number of slots park behind the front |
| SyncQueueProtocol.DrainedIsRestarted | ProcessingQueues/src/queue/SyncReaderList.cpp:206-235 | a drained state is one from which such a restart goes on |
| SyncQueueProtocol.RingHoldsAdded | ProcessingQueues/src/queue/ReaderWriterQueue.h:18-57 | the ring's contents are the entries added, from the back reader's on |
| SyncQueueProtocol.AdjustKeepsNumberExactly | ProcessingQueues/src/queue/SyncReaderList.cpp:237-256 | a reader keeps its number through an enlargement if and only if the size doubles, its slot is populated, or it has not wrapped below the write index |
| SyncQueueProtocol.AdjustCanChangeNumber | ProcessingQueues/src/queue/SyncReaderList.cpp:248-250 | growing from 4 to 6 slots moves a waiting reader from number 5 to number 3 |
| SyncQueueProtocol.ResizeKeepsNumbers | ProcessingQueues/src/queue/SyncQueue.cpp:64-77 | a number-preserving enlargement leaves every reader its number, on its relocated slot, and `readIndex` on the back's slot |
| SyncQueueProtocol.ResizeKeepsInv | ProcessingQueues/src/queue/SyncQueue.cpp:64-77 | and it keeps the whole invariant |
| SyncQueueProtocol.RunKeepsInv | ProcessingQueues/src/queue/SyncQueue.cpp:15-77 | the invariant holds in every state of every run |
| SyncQueueTheorems.ExactlyOnceDelivery | ProcessingQueues/src/queue/SyncQueue.cpp:32-62 | numbers assigned so far are delivered or held by one reader still to be served, never both; each delivered once, with the value added under it |
| SyncQueueTheorems.AddedAreArguments | ProcessingQueues/src/queue/ReaderWriterQueue.cpp:30-61 | in every run what is added are the arguments of the calls of `add` that published, in their order |
| SyncQueueTheorems.OthersKeepReader | ProcessingQueues/src/queue/SyncReaderList.cpp:18-123 | a step by one reader or by a writer leaves every other reader its slot, its number and what it found there |
| SyncQueueTheorems.ListShapeInRuns | ProcessingQueues/src/queue/SyncReaderList.cpp:18-123 | in every run the list is well formed, spans at most the ring, and `readIndex` is the back's slot |
| SyncQueueTheorems.ReadIndexMonotone | ProcessingQueues/src/queue/SyncReaderList.cpp:18-35 | `readIndex` never goes back and never passes the write index or a reader |
| SyncQueueTheorems.HandedSlotStaysUnwritten | ProcessingQueues/src/queue/ReaderWriterQueue.h:18-24 | the slot handed to a reader keeps its entry until that reader calls again, whatever others do |
| SyncQueueTheorems.HandedEntrySurvives | ProcessingQueues/src/queue/SyncReaderList.cpp:237-256 | also through resizes: the reader keeps its number, and its slot, perhaps moved, holds the entry it was handed |
| SyncQueueTheorems.FullQueueResizesSafely | ProcessingQueues/src/queue/SyncReaderList.cpp:243-250 | in a full queue no waiting reader has wrapped, so every enlargement is number-preserving |
| SyncQueueTheorems.ResizeUnspans | ProcessingQueues/src/queue/SyncQueue.cpp:64-77 | after an enlargement the readers do not span the ring and a finished reader can move |
| SyncQueueTheorems.StuckIsFull | ProcessingQueues/src/queue/SyncReaderList.cpp:66-95 | in a stuck state everything published is delivered and yet the ring is full |
| SyncQueueTheorems.StuckForever | ProcessingQueues/src/queue/SyncReaderList.cpp:66-95 | once stuck, nothing is added or delivered until a resize or an unregistration |
| SyncQueueTheorems.FailedMoveStaysUnstuck | ProcessingQueues/src/queue/SyncReaderList.cpp:65-106 | a move that gets no new slot never makes the queue stuck |
| SyncQueueTheorems.GetsStuckOnlyBy | ProcessingQueues/src/queue/SyncReaderList.cpp:37-123 | only a reader that is served, gets a new slot, comes or goes can make it stuck |
| SyncQueueTheorems.StuckIsReachable | ProcessingQueues/src/queue/SyncReaderList.cpp:66-95 | two readers in a ring of two get stuck after one entry |
| SyncQueueTheorems.NotStuckCanProgress | ProcessingQueues/src/queue/SyncReaderList.cpp:66-95 | from every reachable state that is not stuck, readers and writers can add or deliver |
| SyncQueueTheorems.StuckCannotProgress | ProcessingQueues/src/queue/SyncReaderList.cpp:66-95 | the converse: from a stuck state no sequence of their steps does |
| Shutdown.LeaveKeepsUnpopulated | ProcessingQueues/src/queue/SyncReaderList.cpp:125-204 | any reader, waiting or parked, may leave a drained queue: `readIndex` stays on the write index |
| Shutdown.RestartedIsUnpopulated | ProcessingQueues/src/queue/SyncReaderList.cpp:206-235 | every state a restart leads to is drained in this sense, for any number of readers |
| Shutdown.ShutdownInAnyOrder | ProcessingQueues/src/consumer/QueueProcessor.cpp:72-104 | any number of readers on unpopulated slots, parked ones included, unregister in any order; in the end `readIndex` equals `writeIndex`, everything added was served, and the next number to hand out is the next to be added |
| Shutdown.DrainedLeavingKeepsAccountsExactly | ProcessingQueues/src/queue/SyncReaderList.cpp:139-192 | a reader that leaves a drained queue keeps every entry accounted for if and only if it is not a waiting reader leaving while a parked one is at the front |
| Shutdown.PartialShutdown | ProcessingQueues/src/queue/SyncReaderList.cpp:125-204 | a partial shutdown, in any order, keeps every entry accounted for as long as no such step is taken |
| Shutdown.PartialShutdownCanLose | ProcessingQueues/src/queue/SyncReaderList.cpp:140-155 | four readers in a ring of three: two leave, and entry 1 is nobody's |
| Shutdown.WaitingReadersLeaveInAnyOrder | ProcessingQueues/src/queue/SyncReaderList.cpp:125-204 | if all readers wait, those that remain wait on consecutive slots from the write index on, in any order of leaving |
| SyncQueues.RemoveCallChecks | ProcessingQueues/src/queue/SyncQueue.cpp:43-52 | a call by a reader still to be served is one check, and keeps the invariant |
| SyncQueues.RemoveCallMoves | ProcessingQueues/src/queue/SyncQueue.cpp:54-62 | a call by a reader that has finished is a move, followed by a check if it got a new slot, and keeps the invariant |
| SyncQueues.AddCallIsWriterSteps | ProcessingQueues/src/queue/ReaderWriterQueue.cpp:41-61 | an uninterrupted `add` is the writer's enabled steps in a row, for a full ring, an entry that cannot be stored, and one that can |
| SyncQueues.AddCallKeepsInv | ProcessingQueues/src/queue/SyncWriterQueue.cpp:12-17 | and it keeps the invariant |
| SyncQueues.SyncQueue.constructor | ProcessingQueues/src/queue/SyncQueue.h:68-75 | a new queue is in an initial state of the protocol |
| SyncQueues.SyncQueue.IsEmpty | ProcessingQueues/src/queue/SyncQueue.cpp:22-30 | reports whether the entry assigned to the reader is published |
| SyncQueues.SyncQueue.RemoveSlot | ProcessingQueues/src/queue/SyncQueue.cpp:32-41 | returns the value added under the reader's number, or the null entry if it is not published |
| SyncQueues.SyncQueue.Remove | ProcessingQueues/src/queue/SyncQueue.cpp:43-62 | takes the steps of `RemoveCall`; returns an entry if and only if one is delivered, and then the right one |
| SyncQueues.SyncQueue.Add | ProcessingQueues/src/queue/SyncQueue.cpp:15-20 | appends to what was added, or reports full or cannot add, exactly in these cases |
| SyncQueues.SyncQueue.Resize | ProcessingQueues/src/queue/SyncQueue.cpp:64-77 | to a larger size, the ring's own resize and the adjustment of the readers together are the protocol's step; to the same size nothing changes; to a smaller one the ring stays and the readers are shifted |
| SyncQueues.SyncQueue.StartAccess | ProcessingQueues/src/queue/SyncQueue.h:87-105 | registers a reader as the protocol does |
| SyncQueues.SyncQueue.EndAccess | ProcessingQueues/src/queue/SyncQueue.h:107-125 | unregisters a reader as the protocol does, and keeps the invariant where it is safe; an unregistered one changes nothing |
| ResizeProtocol.StepKeepsInv | ProcessingQueues/src/consumer/QueueProducerInterface.cpp:58-87 | every step of every producer keeps lock, flag, counter and result in agreement with where the threads are |
| ResizeProtocol.ResizeIsolation | ProcessingQueues/src/queue/ResizeControls.h:70-142 | from the end of `pauseAdders` to `resumeAdders` no other thread is inside an add or resizes |
| ResizeProtocol.CountersAreExact | ProcessingQueues/src/queue/ResizeControls.h:70-142 | `addingCount` counts the threads in the add region, `resizing` is true if and only if one is in the resize region, a finished call holds no lock |
| ResizeProtocol.FinishedCallAddedOnce | ProcessingQueues/src/consumer/QueueProducerInterface.cpp:58-87 | a finished call never returns full, and added its entry exactly once if it returns a slot, else not at all |
| ResizeRuns.FinishedCallReportsLastAdd | ProcessingQueues/src/consumer/QueueProducerInterface.cpp:58-87 | a finished call reports what its last add returned: "cannot add" only when the ring refused the entry, "terminated" only when it found the processor terminated and made no add |
| ResizeRuns.ResizerAddsAgain | ProcessingQueues/src/consumer/QueueProducerInterface.cpp:66-71 | a call that has resized the ring adds again before it ends |
| ResizeRuns.CallWithoutResize | ProcessingQueues/src/consumer/QueueProducerInterface.cpp:58-74 | a call left alone that finds room, or is refused, ends with the result of its one add |
| ResizeRuns.CallThatTriesAgain | ProcessingQueues/src/queue/ResizeControls.h:89-116 | one that finds the ring full only the first time ends with the result of the add under the lock |
| ResizeRuns.CallThatResizes | ProcessingQueues/src/consumer/QueueProducerInterface.cpp:62-72 | one that finds it full both times enlarges it once and ends with the result of the add that follows, holding nothing |
| ResizeRuns.CallThatPolls | ProcessingQueues/src/consumer/QueueProducerInterface.cpp:79-87 | at the maximal size a full ring is tried until the add returns something else |
| ResizeRuns.CallOnTerminated | ProcessingQueues/src/consumer/QueueProducerInterface.cpp:59-61 | a call on a terminated processor says so and does nothing else |
| ResizeRuns.WaitsForResize | ProcessingQueues/src/queue/ResizeControls.h:70-77 | a call that begins during a resize sleeps |
| ResizeRuns.GoesOnAfterResize | ProcessingQueues/src/queue/ResizeControls.h:72-77 | and goes on to add when the resize has ended |
| ResizeRuns.TriesAgainAfterResize | ProcessingQueues/src/queue/ResizeControls.h:93-99 | one that waited to resize tries to add again under the lock |
| ResizeRuns.SomebodyCanStep | ProcessingQueues/src/queue/ResizeControls.h:70-142 | while a call is unfinished some thread can step, and not only one that sleeps for a resize to end |
| ResizeProtocol.SizeInRuns | ProcessingQueues/src/consumer/QueueProducerInterface.cpp:22-28 | in every run the size is min(s0 * 2^k, max) after k resizes |
| ResizeProtocol.SizeSettlesInRuns | ProcessingQueues/src/consumer/QueueProducerInterface.cpp:22-28 | in every run the size is final after 29 resizes |
| ResizeProtocol.NeverShrinks | ProcessingQueues/src/consumer/QueueProducerInterface.cpp:22-28 | in every run the size a producer asks for is not below the current one |
| WorkerProtocol.StepKeepsInv | ProcessingQueues/src/consumer/Worker.cpp:17-188 | every step of the worker and of every caller keeps the invariant |
| WorkerProtocol.NoLostWakeup | ProcessingQueues/src/consumer/Worker.cpp:43-57 | a worker asleep while its entry is published, or while it is to pause, has a wakeup on its way or a thread about to send one |
| WorkerProtocol.StoppedWorkerIsWoken | ProcessingQueues/src/consumer/Worker.cpp:149-173 | after `stop` returned, a sleeping worker has a wakeup on its way |
| WorkerProtocol.OneDeathSignal | ProcessingQueues/src/consumer/Worker.cpp:149-188 | exactly one of run loop and `stop` gives the death signal, and it is given at most once |
| WorkerProtocol.NeverStartedNeverRuns | ProcessingQueues/src/consumer/Worker.cpp:17-26 | a worker that `stop` found not started never runs |
| WorkerProtocol.OnePauserIsServed | ProcessingQueues/src/consumer/Worker.cpp:115-136 | if no two threads are in blocking pauses at a time, one asleep there has its signal on the way, or `stop` is still to release it, or its worker is on its way to idle or was resumed |
| WorkerRuns.SecondPauserCanBeLeft | ProcessingQueues/src/consumer/Worker.cpp:130-132 | a run in which two threads wait in `pause(true)` and one of them is left asleep beside the idle worker |
| WorkerRuns.SecondPauserCanBeLeftByStop | ProcessingQueues/src/consumer/Worker.cpp:167-173 | a run in which two threads wait, `stop` gives its one signal, and one of them is left asleep beside the finished worker |
| WorkerRuns.LeavesWaitBecause | ProcessingQueues/src/consumer/Worker.cpp:43-57 | in every run a worker that took `isWorkLock` is back in its loop only if `isWork` found something, or it read the terminated or paused flag as set, or it slept; else it sleeps, marked as waiting |
| WorkerRuns.WokenAfterSleep | ProcessingQueues/src/consumer/Worker.cpp:45-55 | in every run a worker that comes out of its wait for work has slept in it |
| WorkerRuns.WaitsForWork | ProcessingQueues/src/consumer/Worker.cpp:42-56 | a worker that finds nothing to do, and is neither terminated nor paused, goes to sleep and says so |
| WorkerRuns.WakesToWork | ProcessingQueues/src/consumer/Worker.cpp:50-59 | woken, it calls `doWork` again |
| WorkerRuns.WorksOn | ProcessingQueues/src/consumer/Worker.cpp:32-59 | as long as `doWork` finds something it is called again |
| WorkerRuns.LooksAgain | ProcessingQueues/src/consumer/Worker.cpp:43-57 | also when `isWork` finds what `doWork` did not |
| WorkerRuns.GoesIdle | ProcessingQueues/src/consumer/Worker.cpp:33-41 | a worker that is to pause goes idle, says so, and signals a thread that waits for it |
| WorkerRuns.WakesFromPause | ProcessingQueues/src/consumer/Worker.cpp:38-59 | resumed, it goes back to work |
| WorkerRuns.Finishes | ProcessingQueues/src/consumer/Worker.cpp:59-83 | a terminated worker leaves its loop and gives the death signal |
| WorkerRuns.WorkerWaitsAndIsWoken | ProcessingQueues/src/consumer/Worker.cpp:28-60 | a run in which a worker goes to sleep, a producer publishes and signals, and the worker works on |
| WorkerRuns.StartStarts | ProcessingQueues/src/consumer/Worker.cpp:17-26 | `start` starts a worker that is neither started nor terminated |
| WorkerRuns.StartRefuses | ProcessingQueues/src/consumer/Worker.cpp:17-26 | it leaves a started or terminated worker alone |
| WorkerRuns.SignalWakes | ProcessingQueues/src/consumer/Worker.cpp:103-113 | `signal` wakes a worker that sleeps for work, and changes nothing else |
| WorkerRuns.PauseMarks | ProcessingQueues/src/consumer/Worker.cpp:115-129 | `pause` marks the worker and wakes it if it waits for work |
| WorkerRuns.PausesOnce | ProcessingQueues/src/consumer/Worker.cpp:115-129 | a worker that is paused already is not signalled again |
| WorkerRuns.NothingToPauseOrResume | ProcessingQueues/src/consumer/Worker.cpp:115-147 | `pause` leaves a terminated worker alone, `resume` one that is not paused |
| WorkerRuns.PauseWaitsOrReturns | ProcessingQueues/src/consumer/Worker.cpp:130-135 | its blocking form then waits for a started worker that is not idle; otherwise the call returns |
| WorkerRuns.ResumeResumes | ProcessingQueues/src/consumer/Worker.cpp:138-147 | `resume` unmarks the worker and wakes it from its pause |
| WorkerRuns.StopStops | ProcessingQueues/src/consumer/Worker.cpp:149-173 | `stop` of a started worker terminates, resumes and signals it, and releases one pauser |
| WorkerRuns.StopUnstartedDies | ProcessingQueues/src/consumer/Worker.cpp:149-188 | `stop` of one never started unmarks it, releases a pauser and gives the death signal |
| ProcessorProtocol.OwnStepKeeps | ProcessingQueues/src/consumer/Worker.cpp:28-60 | no step of a paused, quiet worker takes it to work, whatever signals arrive |
| ProcessorProtocol.PauseStepKeeps | ProcessingQueues/src/consumer/Worker.cpp:115-136 | a call of `Worker::pause(true)` returns only when the worker is paused and quiet, stale idle flags included |
| ProcessorProtocol.ResumeStepKeeps | ProcessingQueues/src/consumer/Worker.cpp:138-147 | `Worker::resume` keeps the worker's flags and locks in agreement |
| ProcessorProtocol.SignalStepKeeps | ProcessingQueues/src/consumer/Worker.cpp:103-113 | `Worker::signal` changes only the worker's wait for work, and afterwards the worker does not miss work |
| ProcessorProtocol.StepKeepsInv | ProcessingQueues/src/consumer/QueueProcessor.cpp:112-194 | every step of `pause`, `resume` and `broadcast` keeps counter, flag, locks and workers in agreement |
| ProcessorProtocol.PauseIsolation | ProcessingQueues/src/consumer/QueueProcessor.cpp:146-171 | between `pause` and `resume` of any thread, if the outermost pause waited, all workers are quiet and stay so |
| ProcessorProtocol.BlockingPauseIsolatesExactly | ProcessingQueues/src/consumer/QueueProcessor.cpp:146-171 | a call of `pause(true)` isolates, whatever the threads do until its `resume`, if and only if the processor is not paused when it takes `startLock` or all workers are quiet then |
| ProcessorProtocol.BlockingPauseIsolates | ProcessingQueues/src/consumer/QueueProcessor.cpp:146-194 | if every pause blocks, each one isolates, nested or not |
| ProcessorProtocol.WaitedUntilResumed | ProcessingQueues/src/consumer/QueueProcessor.cpp:173-194 | isolation lasts until the last pauser resumes |
| ProcessorProtocol.ResumedWorkersGoOn | ProcessingQueues/src/consumer/QueueProcessor.cpp:173-194 | in every run, if the processor is not paused and nobody is pausing it, no worker is paused and one asleep in its pause is being woken; during `resume` so for the workers it has passed |
| ProcessorProtocol.SleepingPauserIsServed | ProcessingQueues/src/consumer/Worker.cpp:130-132 | a thread asleep in `pause` has its signal on the way, or its worker is to pause, not idle, and awake or being woken |
| ProcessorProtocol.NestedBlockingPauseCanFail | ProcessingQueues/src/consumer/QueueProcessor.cpp:151-169 | a run where `pause(true)` has returned while a worker is in `doWork` |
| SystemProtocol.QueueStepIsLegal | ProcessingQueues/src/consumer/QueueProducerInterface.cpp:58-74 | every use the system makes of the ring is one its protocol allows; a resize finds no writer inside |
| SystemProtocol.StepKeepsInv | ProcessingQueues/src/consumer/QueueProducerInterface.cpp:33-74 | every step of any producer, worker or pausing thread keeps the invariants of all parts |
| SystemProtocol.ResizeHasRingToItself | ProcessingQueues/src/consumer/QueueProducerInterface.cpp:38-48 | while a producer resizes, no thread is in `add`, no other producer resizes, all workers are quiet |
| SystemProtocol.SystemRunsQueue | ProcessingQueues/src/consumer/QueueConsumerWorker.cpp:16-38 | the ring's part of a run of the system is a run of the ring, so all theorems about the ring carry over |
| SystemProtocol.DeliveredAreAdded | ProcessingQueues/src/consumer/QueueProducerInterface.cpp:50-74 | what workers were handed are entries of successful calls, each number once, one number per call |
| SystemProtocol.FinishedAddIsAccounted | ProcessingQueues/src/consumer/QueueProducerInterface.cpp:50-87 | the entry of a call that returned a slot has one number and is delivered, held or waiting under it; an entry of a failed call is nowhere |
| SystemProtocol.AddReportsOutcome | ProcessingQueues/src/queue/ReaderWriterQueue.cpp:41-61 | `add` returns full, cannot add or a slot exactly when it found the ring full, was refused, or published its own entry there |
| SystemProtocol.CannotAddIsRefused | ProcessingQueues/src/consumer/QueueProducerInterface.cpp:58-87 | in every run a call that ends with "cannot add" found room in the ring, which could not store its entry |
| SystemRuns.EntryIsDelivered | ProcessingQueues/src/consumer/QueueProducerInterface.cpp:50-74 | a run in which a producer's entry is added, delivered to a worker and announced |
| SystemProtocol.NoEntryIsSleptOn | ProcessingQueues/src/consumer/QueueProducerInterface.cpp:50-56 | a worker asleep while the entry assigned to it is in the ring has a wakeup on its way, or some producer has added its entry and will signal that worker |

## Left out

- SyncQueueProtocol.CheckKeepsInv: takes the emptiness test of `removeSlot` as one step, because with two reads of `readIndex` the claim is false; the torn test has its own lemmas.
- SystemProtocol.StepKeepsInv: covers resizes that double the ring or move no wrapped waiting reader; other enlargements misplace readers, as `AdjustKeepsNumberExactly` states.
- SyncQueues.SyncQueue.constructor: a ring of one slot, which the source accepts, is left out; `RingQueue.IsFull` says it is always full.
- SyncQueues.SyncQueue.EndAccess: the invariant is kept only where leaving is safe; `LeavingKeepsInvExactly` says that this is exact.
- SyncQueueProtocol.UnregisterKeepsInv: where leaving is safe, which excludes a waiting front whose predecessor is parked on a shared slot; the shape with a strictly largest front is then lost, as `LeavingCanLevelFront` shows.
- ProcessorProtocol.PauseIsolation: the sufficient condition that the outermost pause waited; `BlockingPauseIsolatesExactly` has the exact one.
- SyncQueueProtocol.WaitingReadersLeave: readers that wait only; `Shutdown.LeaveKeepsUnpopulated` covers parked ones.
- WorkerProtocol.OnePauserIsServed: says nothing of a pauser whose worker is resumed before it goes idle; that thread can sleep on.
- WorkerProtocol.NoLostWakeup: without callers of the blocking `signal(true)` and without the timed wait; `isWork` does not miss a published entry, which an evaluation order of the emptiness test can break, as `TornTestHidesEntry` shows.
- SystemProtocol.NoEntryIsSleptOn: under the same condition on `isWork`.
- SyncQueueTheorems.HandedSlotStaysUnwritten: the slot itself, so without a resize in between; `HandedEntrySurvives` covers resizes.
- The exception path of `Worker::run`, and `stop` or `terminate` of the processor while threads pause it: the processor model has running workers only.
- Starting the processor during a resize, and adding workers to a running one.
- `finalize` inside the complete system; unregistering is covered at the level of the ring.
- `join`: a loop on the death flag, which `OneDeathSignal` says is set.
- The loop at `SyncQueue.cpp:70-75`: it computes values nobody uses.
- How a data array stores entries (`isCompatibleEntry`, `getQueueEntry`, `copyTo`): a predicate says which entries it can store.
- Weak memory ordering, fairness, time, `usleep` and `sched_yield`.
- `ResultReceiver`, statistics, debug output, printing, `base`, `threading` and `sample`: easy members, unrelated to the protocols.
