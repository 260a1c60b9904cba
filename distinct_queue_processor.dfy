/**
 The processor object. Its fields are those of the program's processor: the
 pending queue, the index of everything pending or in flight, the map of the
 items inside Process/Error, the worker target and the worker counter. Each
 method is one locked section of the program, or one step of a worker task,
 and is proved to perform the matching transition of QueueModel and to keep
 its invariant.

 The worker tasks themselves and three histories are ghost fields: the
 program does not store them, but its invariant is about them.
 */
module DistinctQueue {
  import opened QueueModel
  import QueueRuns

  class DistinctQueueProcessor<T> {
    /** How an item's key is derived (the item's string form). */
    const key: T -> string

    var queue: seq<T>
    var queueIndex: map<string, T>
    var itemsBeingProcessed: map<string, T>
    var parallelization: int
    var runningWorkers: int

    ghost var workers: map<nat, Phase<T>>
    ghost var nextWorker: nat
    ghost var accepted: seq<T>
    ghost var dequeued: seq<T>
    ghost var completions: seq<Completion<T>>

    /** The state of the processor as a value of the model. */
    ghost function Abs(): State<T>
      reads this
    {
      State(queue, queueIndex, itemsBeingProcessed, parallelization, runningWorkers,
            workers, nextWorker, accepted, dequeued, completions)
    }

    ghost predicate Valid()
      reads this
    {
      QueueModel.Valid(key, Abs())
    }

    /** A new processor: nothing queued, a target of 1, no worker. */
    constructor (key: T -> string)
      ensures this.key == key
      ensures Valid() && Abs() == Init()
    {
      this.key := key;
      queue, queueIndex, itemsBeingProcessed := [], map[], map[];
      parallelization, runningWorkers := 1, 0;
      workers, nextWorker := map[], 0;
      accepted, dequeued, completions := [], [], [];
      new;
      InitValid<T>(key);
    }

    /* -------------------------------------------------------------------- */
    /* Queries                                                              */
    /* -------------------------------------------------------------------- */

    /** The index: every item pending or in flight, by key. */
    function ItemsQueued(): (m: map<string, T>)
      reads this
      requires Valid()
      ensures m.Keys == PendingKeys(key, queue) + ItemKeys(key, Held(workers))
      ensures forall i | 0 <= i < |queue| :: Indexed(key, m, queue[i])
      ensures forall w | w in Held(workers) :: Indexed(key, m, Held(workers)[w])
      ensures itemsBeingProcessed.Keys <= m.Keys
    {
      ValidConsequences(key, Abs());
      queueIndex
    }

    /** The items inside Process/Error, by key: a part of ItemsQueued. */
    function ItemsProcessing(): (m: map<string, T>)
      reads this
      requires Valid()
      ensures m.Keys == ItemKeys(key, InCallbacks(workers))
      ensures forall w | w in InCallbacks(workers) :: Indexed(key, m, InCallbacks(workers)[w])
      ensures m.Keys <= ItemsQueued().Keys
      ensures forall k | k in m :: ItemsQueued()[k] == m[k]
    {
      ValidConsequences(key, Abs());
      itemsBeingProcessed
    }

    /** Whether an item with key `k` is pending or held by a worker. */
    function CheckQueue(k: string): (b: bool)
      reads this
      requires Valid()
      ensures b <==> k in PendingKeys(key, queue) || k in ItemKeys(key, Held(workers))
    {
      k in queueIndex
    }

    /** The worker target, never negative. */
    function Parallelization(): (n: int)
      reads this
      requires Valid()
      ensures n >= 0
    {
      parallelization
    }

    /** The worker counter: the number of live worker tasks. */
    function RunningWorkers(): (n: int)
      reads this
      requires Valid()
      ensures n >= 0 && n == |workers|
    {
      runningWorkers
    }

    /* -------------------------------------------------------------------- */
    /* Locked sections                                                      */
    /* -------------------------------------------------------------------- */

    /** The Parallelization setter. */
    method SetParallelization(value: int)
      requires Valid()
      modifies this
      ensures Valid()
      ensures Abs() == QueueModel.SetParallelization(old(Abs()), value)
      ensures parallelization == if value < 0 then 0 else value
    {
      parallelization := if value < 0 then 0 else value;
      SetParallelizationValid(key, old(Abs()), value);
    }

    /** Adds `item` unless an item with the same key is pending or in flight;
        when it is added, applies the start-worker rule once. */
    method AddItem(item: T)
      requires Valid()
      modifies this
      ensures Valid()
      ensures Abs() == QueueModel.AddItem(key, old(Abs()), item)
    {
      var k := key(item);
      if !CheckQueue(k) && k !in queueIndex {
        queueIndex := queueIndex[k := item];
        queue := queue + [item];
        accepted := accepted + [item];
        EnqueueValid(key, old(Abs()), item);
        StartWorker();
      }
      AddItemValid(key, old(Abs()), item);
    }

    /** Applies the start-worker rule, to unstall a queue whose items were
        added while the target was 0. */
    method ManualStartWorker()
      requires Valid()
      modifies this
      ensures Valid()
      ensures Abs() == QueueModel.StartWorker(old(Abs()))
    {
      StartWorker();
    }

    /** The start-worker rule. */
    method StartWorker()
      requires Valid()
      modifies this
      ensures Valid()
      ensures Abs() == QueueModel.StartWorker(old(Abs()))
    {
      var runningDiff := parallelization - runningWorkers;
      if runningDiff > 0 {
        RunWorker();
      }
      StartWorkerValid(key, old(Abs()));
    }

    /** Counts a new worker task and starts it at the test of its loop. */
    method RunWorker()
      modifies this
      ensures runningWorkers == old(runningWorkers) + 1
      ensures workers == old(workers)[old(nextWorker) := AtLoopHead]
      ensures nextWorker == old(nextWorker) + 1
      ensures Abs() == old(Abs()).(runningWorkers := runningWorkers, workers := workers,
                                    nextWorker := nextWorker)
    {
      runningWorkers := runningWorkers + 1;
      workers := workers[nextWorker := AtLoopHead];
      nextWorker := nextWorker + 1;
    }

    /* -------------------------------------------------------------------- */
    /* Steps of a worker task                                               */
    /* -------------------------------------------------------------------- */

    /** The loop test of worker `w`: take the head of the queue, or, on an
        empty queue, leave the loop. */
    method WorkerLoopTest(ghost w: nat) returns (next: Option<T>)
      requires Valid()
      requires w in workers && workers[w].AtLoopHead?
      modifies this
      ensures Valid()
      ensures Abs() == WorkerLoopHead(old(Abs()), w)
      ensures next == if |old(queue)| == 0 then None else Some(old(queue)[0])
    {
      if |queue| == 0 {
        ExitLoop(w);
        next := None;
      } else {
        var item := Dequeue(w);
        next := Some(item);
      }
    }

    /** The queue was empty: worker `w` leaves its loop. */
    method ExitLoop(ghost w: nat)
      requires Valid()
      requires w in workers && workers[w].AtLoopHead? && |queue| == 0
      modifies this
      ensures Valid()
      ensures Abs() == old(Abs()).(workers := old(workers)[w := Exiting])
    {
      LoopExitValid(key, Abs(), w);
      workers := workers[w := Exiting];
    }

    /** The outer finally of worker `w`: the counter goes down and the task
        ends. */
    method DecrementWorkers(ghost w: nat)
      requires Valid()
      requires w in workers && workers[w].Exiting?
      modifies this
      ensures Valid()
      ensures Abs() == WorkerExit(old(Abs()), w)
    {
      WorkerExitValid(key, Abs(), w);
      runningWorkers := runningWorkers - 1;
      workers := workers - {w};
    }

    /** Worker `w` takes the head of a non-empty queue. */
    method Dequeue(ghost w: nat) returns (item: T)
      requires Valid() && |queue| > 0
      requires w in workers && workers[w].AtLoopHead?
      modifies this
      ensures Valid()
      ensures item == old(queue)[0]
      ensures Abs() == old(Abs()).(queue := old(queue)[1..], workers := old(workers)[w := Dequeued(item)],
                                    dequeued := old(dequeued) + [item])
    {
      DequeueValid(key, Abs(), w);
      item := queue[0];
      queue := queue[1..];
      workers := workers[w := Dequeued(item)];
      dequeued := dequeued + [item];
    }

    /** Worker `w` records `item`, which it has just dequeued, as being
        processed. */
    method MarkProcessing(ghost w: nat, item: T)
      requires Valid()
      requires w in workers && workers[w] == Dequeued(item)
      modifies this
      ensures Valid()
      ensures Abs() == WorkerMarkProcessing(key, old(Abs()), w)
    {
      ghost var target := WorkerMarkProcessing(key, Abs(), w);
      MarkProcessingValid(key, Abs(), w);
      var k := key(item);
      if k !in itemsBeingProcessed {
        itemsBeingProcessed := itemsBeingProcessed[k := item];
      }
      workers := workers[w := InCallback(item)];
      assert Abs() == target;
    }

    /** Worker `w` runs Process on `item`, and Error when Process fails;
        whichever ran, the cleanup then removes the key from the index and
        from the processing map. Whether Process fails is not known
        beforehand. */
    method ProcessItem(ghost w: nat, item: T) returns (failed: bool)
      requires Valid()
      requires w in workers && workers[w] == InCallback(item)
      modifies this
      ensures Valid()
      ensures Abs() == WorkerFinish(key, old(Abs()), w, failed)
    {
      FinishValid(key, Abs(), w, true);
      FinishValid(key, Abs(), w, false);
      failed := *;
      completions := completions + [if failed then Errored(item) else Processed(item)];
      var k := key(item);
      queueIndex := queueIndex - {k};
      itemsBeingProcessed := itemsBeingProcessed - {k};
      workers := workers[w := AtLoopHead];
    }

    /** One pass of the loop body of worker `w` on the item it dequeued:
        mark it as processing, run its callback, clean up. */
    method HandleItem(ghost w: nat, item: T) returns (failed: bool)
      requires Valid()
      requires w in workers && workers[w] == Dequeued(item)
      modifies this
      ensures Valid()
      ensures Abs() == WorkerFinish(key, WorkerMarkProcessing(key, old(Abs()), w), w, failed)
    {
      MarkProcessing(w, item);
      failed := ProcessItem(w, item);
    }

    /** The task of worker `w`, run with no other step in between: it hands
        every pending item, in queue order, to one callback, then leaves its
        loop and decrements the counter. `outcomes[i]` tells whether the
        callback of the i-th item failed. */
    method RunWorkerLoop(ghost w: nat) returns (outcomes: seq<bool>)
      requires Valid()
      requires w in workers && workers[w].AtLoopHead?
      modifies this
      ensures Valid()
      ensures |outcomes| == |old(queue)|
      ensures Abs() == QueueRuns.Drain(key, old(Abs()), w, outcomes)
    {
      outcomes := [];
      var running := true;
      while running
        invariant Valid()
        invariant |outcomes| <= |old(queue)|
        invariant running ==> Abs() == QueueRuns.Passes(key, old(Abs()), w, outcomes)
        invariant !running ==> |outcomes| == |old(queue)|
        invariant !running ==> Abs() == QueueRuns.Drain(key, old(Abs()), w, outcomes)
        decreases |old(queue)| - |outcomes| + (if running then 1 else 0)
      {
        var next := WorkerLoopTest(w);
        match next {
          case None =>
            DecrementWorkers(w);
            QueueRuns.DrainIsPasses(key, old(Abs()), w, outcomes);
            running := false;
          case Some(item) =>
            var failed := HandleItem(w, item);
            QueueRuns.PassesSnoc(key, old(Abs()), w, outcomes, failed);
            outcomes := outcomes + [failed];
        }
      }
    }
  }
}
