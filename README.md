# DistinctQueueProcessor in Dafny

A model of `DistinctQueueProcessor<T>`, a work queue that drops duplicate
items and processes the rest with a self-scaling pool of worker tasks. An
item's identity is its key, the string its `ToString()` returns.

The processor keeps five pieces of state:

- a FIFO of pending items;
- the index, which maps the key of every item that is pending or in flight
  to that item;
- the map of the items currently inside the consumer's `Process`/`Error`
  callbacks;
- the worker target `Parallelization`;
- the counter of running workers.

`AddItem` runs under one lock. If the key is not indexed, it indexes the
item, enqueues it, and starts a worker when the target exceeds the counter.
Starting a worker increments the counter on the caller's thread, still
inside the lock, and only then hands the worker to a new task. The task
loops:

1. dequeue the head;
2. mark it as processing;
3. run `Process` (and `Error` if `Process` throws);
4. remove the key from both maps.

When it finds the queue empty it leaves the loop, and its outer `finally`
decrements the counter.

The project has four modules:

- `QueueModel` (queue_model.dfy) is the processor as a state machine. It
  has one transition function per locked section and per step of a worker
  task:
  - `SetParallelization`, `AddItem`, `StartWorker`;
  - `WorkerLoopHead` (the dequeue attempt);
  - `WorkerMarkProcessing` (the `TryAdd`);
  - `WorkerFinish` (callback and cleanup);
  - `WorkerExit` (the decrement).

  `Valid` is the invariant that every transition keeps:
  - the keys of the live items are distinct;
  - the index holds exactly the live items;
  - the processing map holds exactly the items inside a callback;
  - the counter counts the live worker tasks;
  - the items leave the queue in the order they were accepted.

  Any interleaving of these transitions across workers is a run of the
  model, so the invariant holds whatever the scheduling at that step size
  (see "## Left out" for the finer interleavings it does not have).
- `DistinctQueue` (distinct_queue_processor.dfy) is the processor as a
  class. It has the source's fields, and the worker tasks are ghost state.
  Each method performs the matching transition of `QueueModel` on its
  fields and keeps the invariant. `RunWorkerLoop` is the worker's `while`
  loop, proved against `QueueRuns.Drain`.
- `QueueRuns` (queue_runs.dfy) covers runs of several steps:
  - a worker running its task alone;
  - a batch of adds;
  - the stall caused by a target of 0;
  - the race between a worker's exit and a concurrent add.
- `Scenarios` (scenarios.dfy) covers the repository's own batch and stall
  tests, with the test harness's items keyed by name and its callback
  failing exactly on items of value `Fail`.

The exit race, proved in `QueueRuns`: between a worker's failed dequeue
(DistinctQueueProcessor.cs:117) and its decrement (:136-140), the counter
still counts the worker. An add in that window that sees the counter at the
target starts no worker. After the decrement, the added item is pending with
no worker, even with a positive target. It stays there until the next add of
a new key or a manual start. An add of a key already indexed does not
unstall the queue, because `StartWorker` is called only for an accepted
item. The race is reachable from a new processor with target 1.

## Model

| member | source | states |
|---|---|---|
| QueueModel.Init | DistinctQueueProcessor/DistinctQueueProcessor.cs:48-59 | the field initialisers of a new processor (target 1, counter 0, empty queue and maps); InitValid proves the invariant holds of it |
| QueueModel.CheckQueue | DistinctQueueProcessor/DistinctQueueProcessor.cs:104-107 | the index lookup; CheckQueueLive proves it true exactly for the keys of pending and held items |
| QueueModel.SetParallelization | DistinctQueueProcessor/DistinctQueueProcessor.cs:47 | the locked setter; SetParallelizationClamps proves it stores max(value, 0) and changes nothing else, SetParallelizationValid that it keeps the invariant |
| QueueModel.StartWorker | DistinctQueueProcessor/DistinctQueueProcessor.cs:90-111 | the start rule plus RunWorker's increment; StartWorkerRule proves one task is added exactly when the target exceeds the counter, StartWorkerValid and WorkerStartedValid that the invariant is kept |
| QueueModel.AddItem | DistinctQueueProcessor/DistinctQueueProcessor.cs:66-77 | the locked add; AddDuplicateUnchanged (an indexed key changes nothing), AddFreshItem (index, queue and counter of an accepted item) and AddItemValid characterise it |
| QueueModel.WorkerLoopHead | DistinctQueueProcessor/DistinctQueueProcessor.cs:117 | the TryDequeue loop test; LoopHeadTakesHead proves it takes the head or, on an empty queue, leaves the loop still counted; DequeueValid, LoopExitValid and DequeueOrderIsAcceptOrder state what it keeps |
| QueueModel.WorkerMarkProcessing | DistinctQueueProcessor/DistinctQueueProcessor.cs:119 | the TryAdd into the processing map; MarkProcessingAdds proves it always adds in a valid state, MarkProcessingValid that it keeps the invariant |
| QueueModel.WorkerFinish | DistinctQueueProcessor/DistinctQueueProcessor.cs:121-133 | the callback and both removals; FinishRemovesKey proves the key leaves both maps so the key is accepted again, FinishValid that it keeps the invariant |
| QueueModel.WorkerExit | DistinctQueueProcessor/DistinctQueueProcessor.cs:136-140 | the outer finally; ExitDecrements proves the counter drops by one and only that worker ends, WorkerExitValid that it keeps the invariant |
| QueueRuns.Drain | DistinctQueueProcessor/DistinctQueueProcessor.cs:112-141 | a worker task run alone; DrainIsPasses ties it to the loop, DrainEffect states what it completes and removes, DrainValid that it keeps the invariant |
| QueueModel.InitValid | DistinctQueueProcessor/DistinctQueueProcessor.cs:48-59 | a new processor (target 1, counter 0, empty queue, index and processing map) satisfies the invariant |
| QueueModel.ValidConsequences | DistinctQueueProcessor/DistinctQueueProcessor.cs:17-38 | in a valid state ItemsProcessing is part of ItemsQueued with the same items, the counter and the target are not negative, and the pending keys are pairwise distinct |
| QueueModel.CheckQueueLive | DistinctQueueProcessor/DistinctQueueProcessor.cs:104-107 | CheckQueue(k) holds exactly when some pending item or some item a worker holds has key k |
| QueueModel.SetParallelizationClamps | DistinctQueueProcessor/DistinctQueueProcessor.cs:47 | the stored target is the value if it is not negative and 0 otherwise; nothing else changes |
| QueueModel.SetParallelizationValid | DistinctQueueProcessor/DistinctQueueProcessor.cs:47 | the setter keeps the invariant |
| QueueModel.StartWorkerRule | DistinctQueueProcessor/DistinctQueueProcessor.cs:90-98 | the counter goes up by one (and one new worker starts at its loop test) if and only if the target exceeds the counter, never past the target; otherwise the state is unchanged; queue and maps are untouched |
| QueueModel.StartWorkerValid | DistinctQueueProcessor/DistinctQueueProcessor.cs:90-98 | the start-worker rule keeps the invariant |
| QueueModel.WorkerStartedValid | DistinctQueueProcessor/DistinctQueueProcessor.cs:109-112 | counting a new worker task and starting it keeps the invariant |
| QueueModel.StallWithZeroTarget | DistinctQueueProcessor/DistinctQueueProcessor.cs:43-47 | with a target of 0 the start-worker rule does nothing and AddItem starts no worker |
| QueueModel.AddDuplicateUnchanged | DistinctQueueProcessor/DistinctQueueProcessor.cs:66-77 | adding an item whose key CheckQueue reports changes nothing at all |
| QueueModel.AddFreshItem | DistinctQueueProcessor/DistinctQueueProcessor.cs:66-77 | adding an item with a new key indexes it, appends it to the queue, leaves the processing map and target alone, and starts a worker if and only if the target exceeds the counter |
| QueueModel.EnqueueValid | DistinctQueueProcessor/DistinctQueueProcessor.cs:70-72 | indexing and enqueueing an item whose key is not indexed keeps the invariant |
| QueueModel.AddItemValid | DistinctQueueProcessor/DistinctQueueProcessor.cs:66-77 | AddItem keeps the invariant |
| QueueModel.LoopHeadTakesHead | DistinctQueueProcessor/DistinctQueueProcessor.cs:117 | the loop test takes the head of the queue, or on an empty queue leaves the loop; the counter and both maps are unchanged |
| QueueModel.LoopHeadValid | DistinctQueueProcessor/DistinctQueueProcessor.cs:117 | the loop test keeps the invariant |
| QueueModel.LoopExitValid | DistinctQueueProcessor/DistinctQueueProcessor.cs:117 | leaving the loop on an empty queue keeps the invariant |
| QueueModel.DequeueValid | DistinctQueueProcessor/DistinctQueueProcessor.cs:117 | dequeuing the head keeps the invariant |
| QueueModel.ExitDecrements | DistinctQueueProcessor/DistinctQueueProcessor.cs:136-140 | the outer finally lowers the counter by one, ends exactly that worker, and changes nothing else |
| QueueModel.WorkerExitValid | DistinctQueueProcessor/DistinctQueueProcessor.cs:136-140 | the decrement keeps the invariant |
| QueueModel.MarkProcessingAdds | DistinctQueueProcessor/DistinctQueueProcessor.cs:119 | in a valid state the key of a dequeued item is never being processed, so the TryAdd always adds it |
| QueueModel.MarkProcessingValid | DistinctQueueProcessor/DistinctQueueProcessor.cs:119 | marking the item as processing keeps the invariant |
| QueueModel.FinishRemovesKey | DistinctQueueProcessor/DistinctQueueProcessor.cs:121-133 | whether Process succeeded or Error ran, the cleanup removes the key from the index and the processing map, records one completion of the matching kind, differs from the other outcome only in that record, and an item with that key is accepted again |
| QueueModel.FinishValid | DistinctQueueProcessor/DistinctQueueProcessor.cs:121-133 | the callback and cleanup keep the invariant, whichever callback ran |
| QueueModel.DequeueOrderIsAcceptOrder | DistinctQueueProcessor/DistinctQueueProcessor.cs:117 | items are dequeued in the order AddItem accepted them: each dequeue takes the next accepted item |
| QueueRuns.IterationEffect | DistinctQueueProcessor/DistinctQueueProcessor.cs:117-133 | one pass of the loop takes the head, records one completion for it, removes its key from the index, leaves the processing map as it was and the counter unchanged, and returns the worker to its loop test |
| QueueRuns.IterationValid | DistinctQueueProcessor/DistinctQueueProcessor.cs:117-133 | one pass of the loop keeps the invariant, and the head's key is not being processed |
| QueueRuns.DrainIsPasses | DistinctQueueProcessor/DistinctQueueProcessor.cs:117-140 | a worker task run to its end is its loop passes over every pending item, then the loop test on the empty queue, then the decrement |
| QueueRuns.DrainEffect | DistinctQueueProcessor/DistinctQueueProcessor.cs:109-142 | a worker running alone hands every pending item, in queue order, to exactly one callback, removes all their keys from the index, leaves the processing map as it was, and exits with the counter one lower |
| QueueRuns.DrainValid | DistinctQueueProcessor/DistinctQueueProcessor.cs:109-142 | a worker running its task alone keeps the invariant |
| QueueRuns.AddAllEffect | DistinctQueueProcessor/DistinctQueueProcessor.cs:66-77 | a batch of adds appends to the queue exactly the first item of each key not already indexed, indexes every key of the batch, and leaves the processing map, target and completions alone |
| QueueRuns.FirstOfEachKeyCount | DistinctQueueProcessor/DistinctQueueProcessor.cs:70 | the batch accepts one item per key of the batch that was not already indexed, and their keys are exactly those keys |
| QueueRuns.AddAllValid | DistinctQueueProcessor/DistinctQueueProcessor.cs:66-77 | a batch of adds keeps the invariant |
| QueueRuns.AddAllKeepsWorkers | DistinctQueueProcessor/DistinctQueueProcessor.cs:66-77 | adds never stop or move a running worker |
| QueueRuns.BatchAccepts | DistinctQueueProcessor/DistinctQueueProcessor.cs:66-77 | starting with nothing pending or in flight, a batch queues exactly the first item of each distinct key, in order, so one item per distinct key of the batch, and indexes exactly the keys it queued |
| QueueRuns.BatchThenDrain | DistinctQueueProcessor/DistinctQueueProcessor.cs:66-142 | a batch followed by one worker running alone appends one completion per queued item, in queue order; the queued keys are exactly the batch's distinct keys, as many as there are completions; nothing is left pending or in flight |
| QueueRuns.AddAllStalls | DistinctQueueProcessor/DistinctQueueProcessor.cs:43-47 | with a target of 0, adds leave the workers, the counter and the dequeued items unchanged |
| QueueRuns.RaiseThenManualStart | DistinctQueueProcessor/DistinctQueueProcessor.cs:79-88 | with no worker running, raising the target starts nothing; a manual start then starts exactly one worker, at its loop test with the whole queue before it |
| QueueRuns.ExitRaceStrands | DistinctQueueProcessor/DistinctQueueProcessor.cs:90-140 | an add made while the only worker is between its failed dequeue and its decrement, with the counter at the target, starts no worker; after the decrement the item is pending and no worker is left |
| QueueRuns.ExitRaceReachable | DistinctQueueProcessor/DistinctQueueProcessor.cs:66-140 | from a new processor with target 1, two adds of different keys around one worker's run leave the second item pending with no worker |
| QueueRuns.StrandedUntilNextStart | DistinctQueueProcessor/DistinctQueueProcessor.cs:70-88 | with no worker and a positive target, a manual start or an add of a new key starts one worker before the pending items; an add of an indexed key starts none |
| DistinctQueue.DistinctQueueProcessor.constructor | DistinctQueueProcessor/DistinctQueueProcessor.cs:48-59 | the new processor is the initial state and valid |
| DistinctQueue.DistinctQueueProcessor.ItemsQueued | DistinctQueueProcessor/DistinctQueueProcessor.cs:17-27 | the keys are exactly those of the pending items and of the items workers hold (dequeued or inside a callback), each mapped to its item; the keys being processed are among them |
| DistinctQueue.DistinctQueueProcessor.ItemsProcessing | DistinctQueueProcessor/DistinctQueueProcessor.cs:29-38 | the keys are exactly those of the items inside Process/Error, each mapped to its item; the result is part of ItemsQueued, with the same items |
| DistinctQueue.DistinctQueueProcessor.CheckQueue | DistinctQueueProcessor/DistinctQueueProcessor.cs:104-107 | true exactly for the keys of the pending items and of the items workers hold |
| DistinctQueue.DistinctQueueProcessor.Parallelization | DistinctQueueProcessor/DistinctQueueProcessor.cs:47 | the target read back is never negative |
| DistinctQueue.DistinctQueueProcessor.RunningWorkers | DistinctQueueProcessor/DistinctQueueProcessor.cs:51-52 | the counter is the number of live worker tasks |
| DistinctQueue.DistinctQueueProcessor.SetParallelization | DistinctQueueProcessor/DistinctQueueProcessor.cs:47 | stores the value clamped at 0, performs the setter transition, keeps the invariant |
| DistinctQueue.DistinctQueueProcessor.AddItem | DistinctQueueProcessor/DistinctQueueProcessor.cs:66-77 | performs the AddItem transition on the fields and keeps the invariant |
| DistinctQueue.DistinctQueueProcessor.ManualStartWorker | DistinctQueueProcessor/DistinctQueueProcessor.cs:82-88 | performs the start-worker rule and keeps the invariant |
| DistinctQueue.DistinctQueueProcessor.StartWorker | DistinctQueueProcessor/DistinctQueueProcessor.cs:90-98 | performs the start-worker rule and keeps the invariant |
| DistinctQueue.DistinctQueueProcessor.RunWorker | DistinctQueueProcessor/DistinctQueueProcessor.cs:109-112 | increments the counter and starts one new worker task at its loop test; nothing else changes |
| DistinctQueue.DistinctQueueProcessor.WorkerLoopTest | DistinctQueueProcessor/DistinctQueueProcessor.cs:117 | returns the head of the queue (or nothing on an empty queue), performs the loop-test transition and keeps the invariant |
| DistinctQueue.DistinctQueueProcessor.ExitLoop | DistinctQueueProcessor/DistinctQueueProcessor.cs:117 | on an empty queue the worker leaves its loop, still counted; the invariant holds |
| DistinctQueue.DistinctQueueProcessor.Dequeue | DistinctQueueProcessor/DistinctQueueProcessor.cs:117 | returns the old head, removes it from the queue, and the worker holds it; the invariant holds |
| DistinctQueue.DistinctQueueProcessor.DecrementWorkers | DistinctQueueProcessor/DistinctQueueProcessor.cs:136-140 | performs the decrement transition and keeps the invariant |
| DistinctQueue.DistinctQueueProcessor.MarkProcessing | DistinctQueueProcessor/DistinctQueueProcessor.cs:119 | performs the TryAdd into the processing map and keeps the invariant |
| DistinctQueue.DistinctQueueProcessor.ProcessItem | DistinctQueueProcessor/DistinctQueueProcessor.cs:121-133 | for either outcome of Process, records the completion, removes the key from both maps, keeps the invariant |
| DistinctQueue.DistinctQueueProcessor.HandleItem | DistinctQueueProcessor/DistinctQueueProcessor.cs:119-133 | one loop body: mark processing, then callback and cleanup |
| DistinctQueue.DistinctQueueProcessor.RunWorkerLoop | DistinctQueueProcessor/DistinctQueueProcessor.cs:112-141 | the worker task run alone ends in exactly the state Drain describes, with one outcome per item that was pending, and keeps the invariant |
| Scenarios.ErrorsCountFails | DQPTest/DQPTestHarness.cs:61-77 | the harness's error counter over a run counts exactly the items of value Fail |
| Scenarios.ProcessedCountsValue | DQPTest/DQPTestHarness.cs:69-77 | the harness's counter for a value other than Fail counts exactly the items of that value |
| Scenarios.HarnessIsFresh | DQPTest/DQPTestHarness.cs:50-54 | a new harness (target set to 4) has nothing pending or in flight and room for a worker |
| Scenarios.RepeatQueuedOnce | DQPTest/UnitTest.cs:16-28 | ten adds whose second repeats the first queue every item but the repeat, in order, and the first add starts a worker |
| Scenarios.RepeatHandledOnce | DQPTest/UnitTest.cs:16-34 | such a batch run by one worker completes each distinct name once, and the counters count the handled items by value |
| Scenarios.BatchTest | DQPTest/UnitTest.cs:16-34 | the batch test: nine items queued, two errors, three Win and four Succeed counted, nothing left pending or in flight |
| Scenarios.RoundQueued | DQPTest/UnitTest.cs:36-40 | once nothing is indexed, a batch of distinct names is queued whole, names handled before included, and the round's runner (a worker the first add starts, or an earlier worker still at its loop test) waits at its loop test |
| Scenarios.EmptyRoundQueued | DistinctQueueProcessor/DistinctQueueProcessor.cs:66-77 | distinct names added to an empty queue and index are queued in order and indexed, with the processing map and the completions untouched |
| Scenarios.RunnerWaits | DistinctQueueProcessor/DistinctQueueProcessor.cs:66-98 | the first add of a round starts a worker when the counter is below the target, and adds leave a worker already at its loop test there |
| Scenarios.BatchSecondRound | DQPTest/UnitTest.cs:36-42 | the further batch of Win items, run by the round's runner, adds its size to the Win count and leaves nothing pending or in flight |
| Scenarios.StallQueues | DQPTest/UnitTest.cs:140-153 | with a target of 0, distinct adds queue every item and start no worker |
| Scenarios.StallTest | DQPTest/UnitTest.cs:140-161 | raising the target to 1 starts no worker; a manual start starts exactly one |
| Scenarios.StallUnstalled | DQPTest/UnitTest.cs:160-163 | the manually started worker handles every stalled item once and leaves nothing pending or running |
| Scenarios.StallThenAddTest | DQPTest/UnitTest.cs:165-182 | an item added with a target of 0 stays queued; after raising the target the next add starts a worker that handles both items |

## Left out

- Threads, locks, `volatile` and `Interlocked`. Each locked section and each worker step is one atomic transition. `QueueModel` admits any interleaving of those transitions. No finer interleaving is modelled, such as between the two `TryRemove` calls of the cleanup. The lock at DistinctQueueProcessor/DistinctQueueProcessor.cs:68 excludes only other lock holders, so worker steps and unlocked reads can run inside AddItem's locked section. That gives two source states the model does not have. Between :70 and :72 an unlocked CheckQueue or ItemsQueued sees a key whose item is neither pending nor held. A worker can dequeue and finish the new item between :72 and :74, and StartWorker then starts one extra, short-lived worker.
- The bodies of `Process` and `Error` are unknown: whether `Process` throws is a free choice (`failed`). An exception thrown by `Error` itself would end the worker's loop early. It is not modelled.
- `ToString()` is the injected pure function `key`, total on every item. The source throws where the model cannot: a null item (a NullReferenceException at DistinctQueueProcessor/DistinctQueueProcessor.cs:70), a `ToString()` that returns null, and `CheckQueue(null)` (an ArgumentNullException from `ContainsKey` at :106).
- DistinctQueue.DistinctQueueProcessor.ItemsQueued: the source returns a `ReadOnlyDictionary` wrapped around the live index, so later adds and removals show through it. The model returns the map's value at the time of the call, a snapshot.
- DistinctQueue.DistinctQueueProcessor.ItemsProcessing: likewise a snapshot of the processing map, where the source's wrapper is a live read-only view.
- DistinctQueueProcessor/ActionQueue.cs and DistinctQueueProcessor/IDistinctQueueProcessor.cs are not part of this model.
- `WaitForCompletion` is not part of this model: it is not in the processor's source and it waits on the wall clock. The second round of the batch test starts from any valid state with nothing indexed.
- The MaliciousTest, TypicalTest, TypesTest and WaitTest tests are not modelled, because they depend on sleeps, random waits and run-time types. ActionQueueTest (DQPTest/UnitTest.cs:215-238) is not modelled, because it exercises ActionQueue, which is not part of this model.
- DistinctQueue.DistinctQueueProcessor.RunWorkerLoop: runs one worker with no other step in between. Interleaved with other workers, each loop step is still one of the single-step methods.
- Scenarios.BatchTest: one schedule only. All ten adds happen before any worker's first step, and then one worker (the first started) runs the whole queue while the others stay at their loop test. If item "1" were finished and its key removed (DistinctQueueProcessor.cs:131) before the repeated "1" was added, the repeat would be accepted (FinishRemovesKey) and the Win count would be 4.
- Scenarios.StallQueues: the test's names "1", "2", "3" are any one-character names in increasing order.
- Scenarios.BatchSecondRound: the test's names `0` to `99` are any non-empty batch of pairwise distinct names. The round needs a runner: not covered is a start state in which every counted worker has already found the queue empty but not yet decremented, with the counter at the target. There the first add starts no worker (QueueRuns.ExitRaceStrands), and the round completes only once those workers exit and a later add or manual start runs.
- Scenarios.RoundQueued: the same runner requirement as BatchSecondRound, for the same reason.
