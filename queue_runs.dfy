/**
 Runs of several transitions of the processor: a batch of AddItem calls, one
 worker task running its loop to the end, and the stall that a target of 0
 causes until a worker is started by hand.
 */
module QueueRuns {
  import opened QueueModel

  /* ---------------------------------------------------------------------- */
  /* One pass of the worker loop                                            */
  /* ---------------------------------------------------------------------- */

  /** The completion a worker records for `item` when Process failed or not. */
  function Outcome<T>(item: T, failed: bool): Completion<T> {
    if failed then Errored(item) else Processed(item)
  }

  /** One pass of the worker loop on a non-empty queue: dequeue, mark
      processing, callback, cleanup. */
  function Iteration<T>(key: T -> string, s: State<T>, w: nat, failed: bool): State<T>
    requires w in s.workers && s.workers[w].AtLoopHead? && |s.queue| > 0
  {
    var s1 := WorkerLoopHead(s, w);
    var s2 := WorkerMarkProcessing(key, s1, w);
    WorkerFinish(key, s2, w, failed)
  }

  /** One pass of the loop takes the head of the queue, hands it to exactly
      one callback, and removes its key from the index; the processing map is
      as it was when the key was not in it, and the worker is back at its
      loop test. */
  lemma IterationEffect<T>(key: T -> string, s: State<T>, w: nat, failed: bool)
    requires w in s.workers && s.workers[w].AtLoopHead? && |s.queue| > 0
    requires key(s.queue[0]) !in s.processing
    ensures var r := Iteration(key, s, w, failed);
      && w in r.workers && r.workers[w].AtLoopHead?
      && r.queue == s.queue[1..]
      && r.dequeued == s.dequeued + [s.queue[0]]
      && r.completions == s.completions + [Outcome(s.queue[0], failed)]
      && r.index == s.index - {key(s.queue[0])}
      && r.processing == s.processing
      && r.runningWorkers == s.runningWorkers
      && r.parallelization == s.parallelization
      && r.workers.Keys == s.workers.Keys
  {
    var k := key(s.queue[0]);
    var s2 := WorkerMarkProcessing(key, WorkerLoopHead(s, w), w);
    assert s2.processing == s.processing[k := s.queue[0]];
    assert s2.processing - {k} == s.processing;
  }

  /** One pass of the loop keeps the invariant; in a valid state the key of
      the head is not being processed. */
  lemma IterationValid<T>(key: T -> string, s: State<T>, w: nat, failed: bool)
    requires Valid(key, s)
    requires w in s.workers && s.workers[w].AtLoopHead? && |s.queue| > 0
    ensures key(s.queue[0]) !in s.processing
    ensures Valid(key, Iteration(key, s, w, failed))
  {
    var s1 := WorkerLoopHead(s, w);
    var s2 := WorkerMarkProcessing(key, s1, w);
    LoopHeadValid(key, s, w);
    HeldNotProcessing(key, s1, w);
    MarkProcessingValid(key, s1, w);
    FinishValid(key, s2, w, failed);
  }

  /* ---------------------------------------------------------------------- */
  /* A worker running alone                                                 */
  /* ---------------------------------------------------------------------- */

  /** Worker `w` running its task to the end, with no other step in
      between: its loop, then the decrement; `outcomes[i]` says whether
      Process failed on the i-th item. */
  function Drain<T>(key: T -> string, s: State<T>, w: nat, outcomes: seq<bool>): State<T>
    requires w in s.workers && s.workers[w].AtLoopHead?
    requires |outcomes| == |s.queue|
    decreases |s.queue|
  {
    if |s.queue| == 0 then
      WorkerExit(WorkerLoopHead(s, w), w)
    else
      var r := Iteration(key, s, w, outcomes[0]);
      Drain(key, r, w, outcomes[1..])
  }

  /** The first |outcomes| passes of the loop of worker `w`, the last pass
      applied last: the state a worker loop has reached before its next
      loop test. */
  function Passes<T>(key: T -> string, s: State<T>, w: nat, outcomes: seq<bool>): (r: State<T>)
    requires w in s.workers && s.workers[w].AtLoopHead?
    requires |outcomes| <= |s.queue|
    ensures w in r.workers && r.workers[w].AtLoopHead?
    ensures r.queue == s.queue[|outcomes|..]
    decreases |outcomes|
  {
    if outcomes == [] then s
    else
      var p := Passes(key, s, w, outcomes[..|outcomes| - 1]);
      IterationShape(key, p, w, outcomes[|outcomes| - 1]);
      Iteration(key, p, w, outcomes[|outcomes| - 1])
  }

  /** One more pass after Passes is Passes over one more outcome. */
  lemma PassesSnoc<T>(key: T -> string, s: State<T>, w: nat, outcomes: seq<bool>, failed: bool)
    requires w in s.workers && s.workers[w].AtLoopHead?
    requires |outcomes| < |s.queue|
    ensures Passes(key, s, w, outcomes + [failed]) ==
            Iteration(key, Passes(key, s, w, outcomes), w, failed)
  {
    assert (outcomes + [failed])[..|outcomes|] == outcomes;
  }

  /** Passes can be peeled from the front as well as from the back. */
  lemma {:induction false} PassesFirst<T>(key: T -> string, s: State<T>, w: nat, outcomes: seq<bool>)
    requires w in s.workers && s.workers[w].AtLoopHead?
    requires 0 < |outcomes| <= |s.queue|
    ensures Passes(key, s, w, outcomes) ==
            Passes(key, Iteration(key, s, w, outcomes[0]), w, outcomes[1..])
  {
    var n := |outcomes|;
    var s1 := Iteration(key, s, w, outcomes[0]);
    if n == 1 {
      assert outcomes[..0] == [];
      assert outcomes[1..] == [];
    } else {
      var init := outcomes[..n - 1];
      PassesFirst(key, s, w, init);
      DropThenTake(outcomes);
    }
  }

  /** Running the task to its end is the passes over all pending items
      followed by the loop test that finds the queue empty and the
      decrement. */
  lemma {:induction false} DrainIsPasses<T>(key: T -> string, s: State<T>, w: nat, outcomes: seq<bool>)
    requires w in s.workers && s.workers[w].AtLoopHead?
    requires |outcomes| == |s.queue|
    ensures Drain(key, s, w, outcomes) == WorkerExit(WorkerLoopHead(Passes(key, s, w, outcomes), w), w)
    decreases |s.queue|
  {
    if |s.queue| > 0 {
      var r := Iteration(key, s, w, outcomes[0]);
      IterationShape(key, s, w, outcomes[0]);
      DrainIsPasses(key, r, w, outcomes[1..]);
      PassesFirst(key, s, w, outcomes);
    }
  }

  /** A pass leaves the worker at its loop test and shortens the queue by
      one, whatever the maps hold. */
  lemma IterationShape<T>(key: T -> string, s: State<T>, w: nat, failed: bool)
    requires w in s.workers && s.workers[w].AtLoopHead? && |s.queue| > 0
    ensures var r := Iteration(key, s, w, failed);
      && w in r.workers && r.workers[w].AtLoopHead? && r.queue == s.queue[1..]
      && r.runningWorkers == s.runningWorkers && r.parallelization == s.parallelization
      && r.dequeued == s.dequeued + [s.queue[0]]
      && r.completions == s.completions + [Outcome(s.queue[0], failed)]
  {
  }

  /** The completions of a run over `items`, one per item, in order. */
  function Outcomes<T>(items: seq<T>, outcomes: seq<bool>): (r: seq<Completion<T>>)
    requires |outcomes| == |items|
    ensures |r| == |items|
    decreases |items|
  {
    if items == [] then []
    else [Outcome(items[0], outcomes[0])] + Outcomes(items[1..], outcomes[1..])
  }

  /** A worker running alone hands every pending item, in queue order, to
      exactly one callback, removes all their keys from the index, leaves the
      processing map as it was, and exits with the counter one lower. (No
      pending key is being processed in a valid state: see
      PendingNotProcessing.) */
  lemma DrainEffect<T>(key: T -> string, s: State<T>, w: nat, outcomes: seq<bool>)
    requires w in s.workers && s.workers[w].AtLoopHead?
    requires |outcomes| == |s.queue|
    requires PendingKeys(key, s.queue) !! s.processing.Keys
    ensures var r := Drain(key, s, w, outcomes);
      && r.queue == [] && w !in r.workers
      && r.runningWorkers == s.runningWorkers - 1
      && r.parallelization == s.parallelization
      && r.dequeued == s.dequeued + s.queue
      && r.completions == s.completions + Outcomes(s.queue, outcomes)
      && r.index == s.index - PendingKeys(key, s.queue)
      && r.processing == s.processing
  {
    DrainExits(key, s, w, outcomes);
    DrainDequeued(key, s, w, outcomes);
    DrainCompletions(key, s, w, outcomes);
    DrainMaps(key, s, w, outcomes);
  }

  lemma {:induction false} DrainExits<T>(key: T -> string, s: State<T>, w: nat, outcomes: seq<bool>)
    requires w in s.workers && s.workers[w].AtLoopHead?
    requires |outcomes| == |s.queue|
    ensures var r := Drain(key, s, w, outcomes);
      && r.queue == [] && w !in r.workers
      && r.runningWorkers == s.runningWorkers - 1
      && r.parallelization == s.parallelization
    decreases |s.queue|
  {
    if |s.queue| > 0 {
      IterationShape(key, s, w, outcomes[0]);
      DrainExits(key, Iteration(key, s, w, outcomes[0]), w, outcomes[1..]);
    }
  }

  lemma {:induction false} DrainDequeued<T>(key: T -> string, s: State<T>, w: nat, outcomes: seq<bool>)
    requires w in s.workers && s.workers[w].AtLoopHead?
    requires |outcomes| == |s.queue|
    ensures Drain(key, s, w, outcomes).dequeued == s.dequeued + s.queue
    decreases |s.queue|
  {
    if |s.queue| > 0 {
      var t := Iteration(key, s, w, outcomes[0]);
      IterationShape(key, s, w, outcomes[0]);
      DrainDequeued(key, t, w, outcomes[1..]);
      SplitHead(s.queue);
      AppendAssoc(s.dequeued, [s.queue[0]], s.queue[1..]);
    }
  }

  lemma {:induction false} DrainCompletions<T>(key: T -> string, s: State<T>, w: nat, outcomes: seq<bool>)
    requires w in s.workers && s.workers[w].AtLoopHead?
    requires |outcomes| == |s.queue|
    ensures Drain(key, s, w, outcomes).completions == s.completions + Outcomes(s.queue, outcomes)
    decreases |s.queue|
  {
    if |s.queue| > 0 {
      var t := Iteration(key, s, w, outcomes[0]);
      IterationShape(key, s, w, outcomes[0]);
      DrainCompletions(key, t, w, outcomes[1..]);
      var head, rest := [Outcome(s.queue[0], outcomes[0])], Outcomes(t.queue, outcomes[1..]);
      assert Outcomes(s.queue, outcomes) == head + rest;
      AppendAssoc(s.completions, head, rest);
    }
  }

  /** Dropping the last element and then the first is dropping the first and
      then the last. */
  lemma DropThenTake<X>(q: seq<X>)
    requires |q| >= 2
    ensures q[..|q| - 1][1..] == q[1..][..|q| - 2]
    ensures q[1..][|q| - 2] == q[|q| - 1]
  {
  }

  lemma {:induction false} DrainMaps<T>(key: T -> string, s: State<T>, w: nat, outcomes: seq<bool>)
    requires w in s.workers && s.workers[w].AtLoopHead?
    requires |outcomes| == |s.queue|
    requires PendingKeys(key, s.queue) !! s.processing.Keys
    ensures var r := Drain(key, s, w, outcomes);
      && r.index == s.index - PendingKeys(key, s.queue)
      && r.processing == s.processing
    decreases |s.queue|
  {
    if |s.queue| == 0 {
      assert PendingKeys(key, s.queue) == {};
      assert s.index - {} == s.index;
    } else {
      var t := Iteration(key, s, w, outcomes[0]);
      PendingKeysTail(key, s.queue);
      IterationEffect(key, s, w, outcomes[0]);
      DrainMaps(key, t, w, outcomes[1..]);
    }
  }

  /** A worker running alone keeps the invariant. */
  lemma {:induction false} DrainValid<T>(key: T -> string, s: State<T>, w: nat, outcomes: seq<bool>)
    requires Valid(key, s)
    requires w in s.workers && s.workers[w].AtLoopHead?
    requires |outcomes| == |s.queue|
    ensures Valid(key, Drain(key, s, w, outcomes))
    decreases |s.queue|
  {
    if |s.queue| == 0 {
      LoopHeadValid(key, s, w);
      WorkerExitValid(key, WorkerLoopHead(s, w), w);
    } else {
      IterationValid(key, s, w, outcomes[0]);
      IterationEffect(key, s, w, outcomes[0]);
      DrainValid(key, Iteration(key, s, w, outcomes[0]), w, outcomes[1..]);
    }
  }

  /** In a valid state no pending key is being processed. */
  lemma PendingNotProcessing<T>(key: T -> string, s: State<T>)
    requires Valid(key, s)
    ensures PendingKeys(key, s.queue) !! s.processing.Keys
  {
  }

  /* ---------------------------------------------------------------------- */
  /* A batch of AddItem calls                                               */
  /* ---------------------------------------------------------------------- */

  /** AddItem for each of `items` in turn, with no worker step in between. */
  function AddAll<T>(key: T -> string, s: State<T>, items: seq<T>): State<T>
    decreases |items|
  {
    if |items| == 0 then s else AddAll(key, AddItem(key, s, items[0]), items[1..])
  }

  /** A batch of adds never stops or moves a worker that was already
      running: it can only start new ones. */
  lemma {:induction false} AddAllKeepsWorkers<T>(key: T -> string, s: State<T>, items: seq<T>, w: nat)
    requires w in s.workers && w < s.nextWorker
    ensures w in AddAll(key, s, items).workers
    ensures AddAll(key, s, items).workers[w] == s.workers[w]
    decreases |items|
  {
    if |items| > 0 {
      var s1 := AddItem(key, s, items[0]);
      assert w in s1.workers && s1.workers[w] == s.workers[w] && w < s1.nextWorker;
      AddAllKeepsWorkers(key, s1, items[1..], w);
    }
  }

  /** The items of `items` whose key is neither in `seen` nor the key of an
      earlier item: the first item of each new key. */
  function FirstOfEachKey<T>(key: T -> string, seen: set<string>, items: seq<T>): seq<T>
    decreases |items|
  {
    if |items| == 0 then []
    else if key(items[0]) in seen then FirstOfEachKey(key, seen, items[1..])
    else [items[0]] + FirstOfEachKey(key, seen + {key(items[0])}, items[1..])
  }

  /** A batch of adds appends to the queue exactly the first item of each key
      that was not already indexed, indexes every key of the batch, and does
      not touch the processing map or the target. */
  lemma AddAllEffect<T>(key: T -> string, s: State<T>, items: seq<T>)
    ensures var r := AddAll(key, s, items);
      && r.queue == s.queue + FirstOfEachKey(key, s.index.Keys, items)
      && r.index.Keys == s.index.Keys + PendingKeys(key, items)
      && r.processing == s.processing
      && r.parallelization == s.parallelization
      && r.completions == s.completions
  {
    AddAllQueue(key, s, items);
    AddAllIndex(key, s, items);
    AddAllKeepsMaps(key, s, items);
  }

  /** One add, as the batch lemmas use it. */
  lemma AddItemStep<T>(key: T -> string, s: State<T>, x: T)
    ensures var t := AddItem(key, s, x);
      && t.index.Keys == s.index.Keys + {key(x)}
      && t.queue == (if key(x) in s.index then s.queue else s.queue + [x])
      && t.processing == s.processing
      && t.parallelization == s.parallelization
      && t.completions == s.completions
  {
    if key(x) in s.index {
      assert s.index.Keys + {key(x)} == s.index.Keys;
    }
  }

  lemma {:induction false} AddAllQueue<T>(key: T -> string, s: State<T>, items: seq<T>)
    ensures AddAll(key, s, items).queue == s.queue + FirstOfEachKey(key, s.index.Keys, items)
    decreases |items|
  {
    if |items| == 0 {
      assert s.queue + [] == s.queue;
    } else {
      var x := items[0];
      var t := AddItem(key, s, x);
      AddItemStep(key, s, x);
      AddAllQueue(key, t, items[1..]);
      if key(x) !in s.index {
        AppendAssoc(s.queue, [x], FirstOfEachKey(key, t.index.Keys, items[1..]));
      }
    }
  }

  lemma {:induction false} AddAllIndex<T>(key: T -> string, s: State<T>, items: seq<T>)
    ensures AddAll(key, s, items).index.Keys == s.index.Keys + PendingKeys(key, items)
    decreases |items|
  {
    if |items| == 0 {
      assert PendingKeys(key, items) == {};
    } else {
      var t := AddItem(key, s, items[0]);
      AddItemStep(key, s, items[0]);
      AddAllIndex(key, t, items[1..]);
      PendingKeysTail(key, items);
    }
  }

  lemma {:induction false} AddAllKeepsMaps<T>(key: T -> string, s: State<T>, items: seq<T>)
    ensures var r := AddAll(key, s, items);
      && r.processing == s.processing
      && r.parallelization == s.parallelization
      && r.completions == s.completions
    decreases |items|
  {
    if |items| > 0 {
      AddItemStep(key, s, items[0]);
      AddAllKeepsMaps(key, AddItem(key, s, items[0]), items[1..]);
    }
  }

  /** The number of items a batch accepts is the number of its keys that
      were not already indexed. */
  lemma {:induction false} FirstOfEachKeyCount<T>(key: T -> string, seen: set<string>, items: seq<T>)
    ensures |FirstOfEachKey(key, seen, items)| == |PendingKeys(key, items) - seen|
    ensures PendingKeys(key, FirstOfEachKey(key, seen, items)) == PendingKeys(key, items) - seen
    decreases |items|
  {
    if |items| == 0 {
      assert PendingKeys(key, items) == {};
      assert PendingKeys(key, FirstOfEachKey(key, seen, items)) == {};
    } else {
      var k := key(items[0]);
      var rest := items[1..];
      PendingKeysTail(key, items);
      if k in seen {
        FirstOfEachKeyCount(key, seen, rest);
        assert PendingKeys(key, items) - seen == PendingKeys(key, rest) - seen;
      } else {
        FirstOfEachKeyCount(key, seen + {k}, rest);
        var tail := FirstOfEachKey(key, seen + {k}, rest);
        assert PendingKeys(key, items) - seen == {k} + (PendingKeys(key, rest) - (seen + {k}));
        assert k !in PendingKeys(key, rest) - (seen + {k});
        PendingKeysCons(key, items[0], tail);
      }
    }
  }

  lemma PendingKeysEmpty<T>(key: T -> string, q: seq<T>)
    ensures PendingKeys(key, q) == {} <==> q == []
  {
    if q != [] {
      assert key(q[0]) in PendingKeys(key, q);
    }
  }

  lemma PendingKeysCons<T>(key: T -> string, x: T, q: seq<T>)
    ensures PendingKeys(key, [x] + q) == {key(x)} + PendingKeys(key, q)
  {
    PendingKeysTail(key, [x] + q);
    assert ([x] + q)[1..] == q;
  }

  /** A batch of adds keeps the invariant. */
  lemma {:induction false} AddAllValid<T>(key: T -> string, s: State<T>, items: seq<T>)
    requires Valid(key, s)
    ensures Valid(key, AddAll(key, s, items))
    decreases |items|
  {
    if |items| > 0 {
      AddItemValid(key, s, items[0]);
      AddAllValid(key, AddItem(key, s, items[0]), items[1..]);
    }
  }

  /** In a valid state with nothing indexed, nothing is pending or being
      processed. */
  lemma NothingLive<T>(key: T -> string, s: State<T>)
    requires Valid(key, s) && |s.index| == 0
    ensures s.queue == [] && s.processing == map[]
  {
    assert s.index.Keys == {};
    PendingKeysEmpty(key, s.queue);
    ValidConsequences(key, s);
  }

  /** A batch of adds to a processor with nothing pending or in flight
      queues the first item of each distinct key of the batch, in order, so
      one item per key, and indexes exactly the keys of what it queued. */
  lemma BatchAccepts<T>(key: T -> string, s: State<T>, items: seq<T>)
    requires s.queue == [] && s.index == map[]
    ensures var r := AddAll(key, s, items);
      && r.queue == FirstOfEachKey(key, {}, items)
      && PendingKeys(key, r.queue) == PendingKeys(key, items)
      && |r.queue| == |PendingKeys(key, items)|
      && r.index.Keys == PendingKeys(key, r.queue)
      && r.processing == s.processing
      && r.completions == s.completions
  {
    var r := AddAll(key, s, items);
    var firsts := FirstOfEachKey(key, {}, items);
    assert s.index.Keys == {};
    AddAllEffect(key, s, items);
    assert r.queue == firsts;
    FirstOfEachKeyCount(key, {}, items);
    assert PendingKeys(key, items) - {} == PendingKeys(key, items);
    assert PendingKeys(key, firsts) == PendingKeys(key, items);
    assert r.index.Keys == {} + PendingKeys(key, items);
  }

  /** Dedup over a whole run: starting with nothing pending or in flight, a
      batch of adds followed by one worker running alone completes exactly
      one item per distinct key of the batch and leaves nothing pending or in
      flight, so that every key can be added again. */
  lemma BatchThenDrain<T>(key: T -> string, s: State<T>, items: seq<T>, w: nat, outcomes: seq<bool>)
    requires Valid(key, s) && |s.index| == 0
    requires var r := AddAll(key, s, items); w in r.workers && r.workers[w].AtLoopHead?
    requires |outcomes| == |AddAll(key, s, items).queue|
    ensures var d := Drain(key, AddAll(key, s, items), w, outcomes);
      && d.completions == s.completions + Outcomes(AddAll(key, s, items).queue, outcomes)
      && PendingKeys(key, AddAll(key, s, items).queue) == PendingKeys(key, items)
      && |d.completions| == |s.completions| + |PendingKeys(key, items)|
      && d.queue == [] && d.index == map[] && d.processing == map[]
  {
    var r := AddAll(key, s, items);
    NothingLive(key, s);
    BatchAccepts(key, s, items);
    AddAllValid(key, s, items);
    PendingNotProcessing(key, r);
    DrainEffect(key, r, w, outcomes);
    var d := Drain(key, r, w, outcomes);
    assert d.index.Keys == {};
  }

  /* ---------------------------------------------------------------------- */
  /* Stalling with a target of 0                                            */
  /* ---------------------------------------------------------------------- */

  /** With a target of 0, adds start no worker: the set of worker tasks and
      the counter are unchanged, so no item is ever dequeued. */
  lemma {:induction false} AddAllStalls<T>(key: T -> string, s: State<T>, items: seq<T>)
    requires s.parallelization == 0 && s.runningWorkers >= 0
    ensures AddAll(key, s, items).workers == s.workers
    ensures AddAll(key, s, items).runningWorkers == s.runningWorkers
    ensures AddAll(key, s, items).dequeued == s.dequeued
    ensures AddAll(key, s, items).nextWorker == s.nextWorker
    decreases |items|
  {
    if |items| > 0 {
      AddAllStalls(key, AddItem(key, s, items[0]), items[1..]);
    }
  }

  /** Unstalling: from a processor that has no worker, raising the target
      starts nothing by itself; a manual start then starts exactly one
      worker, which is at its loop test with the whole queue before it. */
  lemma RaiseThenManualStart<T>(key: T -> string, s: State<T>, value: int)
    requires Valid(key, s) && s.runningWorkers == 0 && value > 0
    ensures var raised := SetParallelization(s, value);
      && raised.workers == map[] && raised.queue == s.queue
      && var started := StartWorker(raised);
         && started.runningWorkers == 1
         && started.workers == map[s.nextWorker := AtLoopHead]
         && started.queue == s.queue
  {
  }

  /* ---------------------------------------------------------------------- */
  /* The exit race                                                          */
  /* ---------------------------------------------------------------------- */

  /** Between a worker's failed dequeue and its decrement the counter still
      counts it, so an add in that window that finds the counter at the
      target starts no worker; once the worker has decremented, the added
      item is pending with no worker left to take it. */
  lemma ExitRaceStrands<T>(key: T -> string, s: State<T>, w: nat, x: T)
    requires Valid(key, s) && s.workers == map[w := Exiting]
    requires s.parallelization <= s.runningWorkers && key(x) !in s.index
    ensures var a := AddItem(key, s, x);
      var e := WorkerExit(a, w);
      && a.workers == s.workers && a.runningWorkers == s.runningWorkers
      && e.queue == s.queue + [x] && key(x) in e.index
      && e.workers == map[] && e.runningWorkers == 0
  {
    assert |s.workers| == 1;
  }

  /** The race is reachable from a new processor: one add starts the only
      worker, which handles the item and finds the queue empty; a second add
      in the window before the decrement is then left pending, with no
      worker, although the target is 1. */
  lemma ExitRaceReachable<T>(key: T -> string, x: T, y: T)
    requires key(x) != key(y)
    ensures var s1 := AddItem(key, Init(), y);
      0 in s1.workers && s1.workers[0].AtLoopHead? && s1.queue == [y]
      && var s2 := WorkerLoopHead(Iteration(key, s1, 0, false), 0);
         && s2.workers == map[0 := Exiting]
         && var e := WorkerExit(AddItem(key, s2, x), 0);
            && e.queue == [x] && e.workers == map[] && e.parallelization == 1
  {
    var s1 := AddItem(key, Init(), y);
    OneItemRun(key, y);
    var t := Iteration(key, s1, 0, false);
    LoopHeadValid(key, t, 0);
    ExitRaceStrands(key, WorkerLoopHead(t, 0), 0, x);
  }

  /** A new processor given one item: the add starts worker 0, and one pass
      of its loop leaves the processor valid with nothing indexed. */
  lemma OneItemRun<T>(key: T -> string, y: T)
    ensures var s1 := AddItem(key, Init(), y);
      && s1.workers == map[0 := AtLoopHead] && s1.queue == [y]
      && var t := Iteration(key, s1, 0, false);
         && Valid(key, t) && t.queue == [] && t.index == map[]
         && t.workers == map[0 := AtLoopHead] && t.parallelization == 1
  {
    var s1 := AddItem(key, Init(), y);
    InitValid<T>(key);
    AddItemValid(key, Init(), y);
    assert s1.index.Keys == {key(y)};
    IterationValid(key, s1, 0, false);
    IterationEffect(key, s1, 0, false);
    var t := Iteration(key, s1, 0, false);
    assert t.index.Keys == {};
    assert t.workers == map[0 := AtLoopHead];
  }

  /** A stranded item waits for the next add of a new key or a manual start:
      either starts a worker at its loop test, with the pending items before
      it, when the target is positive. An add of a key already indexed does
      nothing, so it does not unstall the queue. */
  lemma StrandedUntilNextStart<T>(key: T -> string, e: State<T>, y: T)
    requires Valid(key, e) && e.workers == map[] && e.parallelization > 0
    ensures StartWorker(e).workers == map[e.nextWorker := AtLoopHead]
    ensures StartWorker(e).queue == e.queue
    ensures key(y) !in e.index ==>
              && AddItem(key, e, y).workers == map[e.nextWorker := AtLoopHead]
              && AddItem(key, e, y).queue == e.queue + [y]
    ensures key(y) in e.index ==> AddItem(key, e, y).workers == map[]
  {
    assert e.runningWorkers == 0;
  }
}
