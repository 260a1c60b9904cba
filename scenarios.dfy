/**
 Runs of the processor as its own tests drive it: a test item is keyed by
 its name, and the harness's callback fails exactly on items of value Fail
 and otherwise counts the item under its value.
 */
module Scenarios {
  import opened QueueModel
  import opened QueueRuns

  datatype ItemValue = Win | Succeed | Fail

  datatype Item = Item(name: string, value: ItemValue)

  /** The key of a test item is its name. */
  function Name(it: Item): string {
    it.name
  }

  /** Whether the harness's callback fails on `items[i]`, for each i. */
  function Failures(items: seq<Item>): (r: seq<bool>)
    ensures |r| == |items|
    ensures forall i | 0 <= i < |items| :: r[i] <==> items[i].value == Fail
  {
    seq(|items|, i requires 0 <= i < |items| => items[i].value == Fail)
  }

  /** The number of items of value `v`. */
  function Count(items: seq<Item>, v: ItemValue): nat {
    if items == [] then 0
    else (if items[0].value == v then 1 else 0) + Count(items[1..], v)
  }

  /** The harness's error counter: the number of errored completions. */
  function Errors(cs: seq<Completion<Item>>): nat {
    if cs == [] then 0
    else (if cs[0].Errored? then 1 else 0) + Errors(cs[1..])
  }

  /** The harness's counter for value `v`: processed completions of value `v`. */
  function ProcessedOf(cs: seq<Completion<Item>>, v: ItemValue): nat {
    if cs == [] then 0
    else (if cs[0].Processed? && cs[0].item.value == v then 1 else 0) + ProcessedOf(cs[1..], v)
  }

  lemma OutcomesTail(items: seq<Item>)
    requires |items| > 0
    ensures Outcomes(items, Failures(items))[1..] == Outcomes(items[1..], Failures(items[1..]))
  {
    assert Failures(items)[1..] == Failures(items[1..]);
    var head := [Outcome(items[0], Failures(items)[0])];
    assert (head + Outcomes(items[1..], Failures(items)[1..]))[1..]
        == Outcomes(items[1..], Failures(items)[1..]);
  }

  /** The harness counts one error per item of value Fail. */
  lemma {:induction false} ErrorsCountFails(items: seq<Item>)
    ensures Errors(Outcomes(items, Failures(items))) == Count(items, Fail)
    decreases |items|
  {
    if items != [] {
      OutcomesTail(items);
      ErrorsCountFails(items[1..]);
    }
  }

  /** The harness counts under `v` one processed item per item of value `v`,
      for every value but Fail. */
  lemma {:induction false} ProcessedCountsValue(items: seq<Item>, v: ItemValue)
    requires v != Fail
    ensures ProcessedOf(Outcomes(items, Failures(items)), v) == Count(items, v)
    decreases |items|
  {
    if items != [] {
      OutcomesTail(items);
      ProcessedCountsValue(items[1..], v);
    }
  }

  /* ---------------------------------------------------------------------- */
  /* Batches of distinct names                                              */
  /* ---------------------------------------------------------------------- */

  /** The names of `items` are one character each, all above `c`, and in
      strictly increasing order, hence pairwise distinct. */
  ghost predicate IncreasingAbove(items: seq<Item>, c: char) {
    && (forall i | 0 <= i < |items| :: |items[i].name| == 1)
    && (|items| > 0 ==> c < items[0].name[0])
    && (forall i | 0 <= i < |items| - 1 :: items[i].name[0] < items[i + 1].name[0])
  }

  /** A batch none of whose names is seen nor repeated is queued whole. */
  lemma {:induction false} FirstOfEachFresh(items: seq<Item>, seen: set<string>, c: char)
    requires IncreasingAbove(items, c)
    requires forall k | k in seen :: |k| == 1 && k[0] <= c
    ensures FirstOfEachKey(Name, seen, items) == items
    decreases |items|
  {
    if |items| > 0 {
      var x := items[0];
      assert x.name !in seen;
      IncreasingTail(items, c);
      FirstOfEachFresh(items[1..], seen + {x.name}, x.name[0]);
    }
  }

  lemma IncreasingTail(items: seq<Item>, c: char)
    requires IncreasingAbove(items, c) && |items| > 0
    ensures |items[0].name| == 1 && c < items[0].name[0]
    ensures IncreasingAbove(items[1..], items[0].name[0])
  {
    var t := items[1..];
    assert forall i | 0 <= i < |t| :: t[i] == items[i + 1];
  }

  /** A processor with nothing pending, nothing in flight, nothing handled
      yet, and room under its target for one more worker. */
  ghost predicate FreshHarness(h: State<Item>) {
    && h.queue == [] && h.index == map[] && h.processing == map[] && h.completions == []
    && h.parallelization - h.runningWorkers > 0
  }

  /** A batch whose second item repeats the name of the first and whose other
      names are distinct. */
  ghost predicate RepeatThenDistinct(b: seq<Item>) {
    && |b| >= 2 && b[1].name == b[0].name && |b[0].name| == 1
    && IncreasingAbove(b[2..], b[0].name[0])
  }

  /** Such a batch, added to a fresh harness, queues every item but the
      repeat, in the order added, and the first add starts a worker. */
  lemma RepeatQueuedOnce(h: State<Item>, b: seq<Item>)
    requires FreshHarness(h) && RepeatThenDistinct(b)
    ensures var r := AddAll(Name, h, b);
      && r.queue == [b[0]] + b[2..]
      && r.index.Keys == PendingKeys(Name, r.queue)
      && r.processing == map[] && r.completions == []
      && h.nextWorker in r.workers && r.workers[h.nextWorker].AtLoopHead?
  {
    var r := AddAll(Name, h, b);
    AddAllEffect(Name, h, b);
    assert h.index.Keys == {};
    assert {} + {Name(b[0])} == {b[0].name};
    assert FirstOfEachKey(Name, {}, b) == [b[0]] + FirstOfEachKey(Name, {b[0].name}, b[1..]);
    assert b[1..][1..] == b[2..];
    FirstOfEachFresh(b[2..], {b[0].name}, b[0].name[0]);
    FirstOfEachKeyCount(Name, {}, b);
    assert PendingKeys(Name, b) - {} == PendingKeys(Name, b);
    var s1 := AddItem(Name, h, b[0]);
    assert r == AddAll(Name, s1, b[1..]);
    AddAllKeepsWorkers(Name, s1, b[1..], h.nextWorker);
  }

  /** A worker running alone on a processor whose index holds exactly the
      pending keys and nothing is being processed handles every pending item
      once and leaves nothing pending or in flight. */
  lemma DrainClears(s: State<Item>, w: nat, outcomes: seq<bool>)
    requires w in s.workers && s.workers[w].AtLoopHead? && |outcomes| == |s.queue|
    requires s.index.Keys == PendingKeys(Name, s.queue) && s.processing == map[]
    ensures var d := Drain(Name, s, w, outcomes);
      && d.completions == s.completions + Outcomes(s.queue, outcomes)
      && d.queue == [] && d.index == map[] && d.processing == map[]
      && d.runningWorkers == s.runningWorkers - 1
  {
    DrainEffect(Name, s, w, outcomes);
    assert Drain(Name, s, w, outcomes).index.Keys == {};
  }

  /** Such a batch, once a worker has run alone over it, has had each
      distinct name handled once and has left nothing pending or in flight;
      the harness's counters count the handled items by value. */
  lemma RepeatHandledOnce(h: State<Item>, b: seq<Item>)
    requires FreshHarness(h) && RepeatThenDistinct(b)
    ensures var r := AddAll(Name, h, b);
      && r.queue == [b[0]] + b[2..]
      && h.nextWorker in r.workers && r.workers[h.nextWorker].AtLoopHead?
      && var d := Drain(Name, r, h.nextWorker, Failures(r.queue));
         && d.completions == Outcomes(r.queue, Failures(r.queue))
         && Errors(d.completions) == Count(r.queue, Fail)
         && ProcessedOf(d.completions, Win) == Count(r.queue, Win)
         && ProcessedOf(d.completions, Succeed) == Count(r.queue, Succeed)
         && d.queue == [] && d.index == map[] && d.processing == map[]
  {
    var r := AddAll(Name, h, b);
    RepeatQueuedOnce(h, b);
    DrainClears(r, h.nextWorker, Failures(r.queue));
    ErrorsCountFails(r.queue);
    ProcessedCountsValue(r.queue, Win);
    ProcessedCountsValue(r.queue, Succeed);
  }

  /* ---------------------------------------------------------------------- */
  /* The batch test                                                         */
  /* ---------------------------------------------------------------------- */

  /** A new test harness: a new processor whose target is then set to 4. */
  function Harness(): State<Item> {
    SetParallelization(Init(), 4)
  }

  /** The ten adds of the batch test; the second repeats the first name. */
  function Batch(): seq<Item> {
    [Item("1", Win), Item("1", Win), Item("2", Fail), Item("3", Win), Item("4", Win),
     Item("5", Succeed), Item("6", Fail), Item("7", Succeed), Item("8", Succeed),
     Item("9", Succeed)]
  }

  lemma HarnessIsFresh()
    ensures FreshHarness(Harness()) && Harness().nextWorker == 0
  {
  }

  lemma BatchRepeatsFirst()
    ensures RepeatThenDistinct(Batch())
  {
  }

  /** The nine items the batch test queues: the batch without its repeat. */
  function BatchQueued(): seq<Item> {
    [Item("1", Win), Item("2", Fail), Item("3", Win), Item("4", Win),
     Item("5", Succeed), Item("6", Fail), Item("7", Succeed), Item("8", Succeed),
     Item("9", Succeed)]
  }

  lemma BatchWithoutRepeat()
    ensures [Batch()[0]] + Batch()[2..] == BatchQueued()
  {
  }

  lemma BatchFails()
    ensures Count(BatchQueued(), Fail) == 2
  {
  }

  lemma BatchWins()
    ensures Count(BatchQueued(), Win) == 3
  {
  }

  lemma BatchSucceeds()
    ensures Count(BatchQueued(), Succeed) == 4
  {
  }

  /** The batch test: in a new harness the ten adds queue nine items; the
      worker the first add starts, running alone, has two of them fail and
      counts three Win and four Succeed, and leaves nothing pending or in
      flight. */
  lemma BatchTest(h: State<Item>, b: seq<Item>)
    requires h == Harness() && b == Batch()
    ensures var r := AddAll(Name, h, b);
      && |r.queue| == 9
      && 0 in r.workers && r.workers[0].AtLoopHead?
      && var d := Drain(Name, r, 0, Failures(r.queue));
         && Errors(d.completions) == 2
         && ProcessedOf(d.completions, Win) == 3
         && ProcessedOf(d.completions, Succeed) == 4
         && d.queue == [] && d.index == map[] && d.processing == map[]
  {
    HarnessIsFresh();
    BatchRepeatsFirst();
    BatchWithoutRepeat();
    BatchFails();
    BatchWins();
    BatchSucceeds();
    RepeatHandledOnce(h, b);
  }

  /** Pairwise distinct names. */
  ghost predicate DistinctNames(items: seq<Item>) {
    forall i, j | 0 <= i < j < |items| :: items[i].name != items[j].name
  }

  /** A batch of distinct names none of which is seen is queued whole. */
  lemma {:induction false} FirstOfEachDistinct(items: seq<Item>, seen: set<string>)
    requires DistinctNames(items)
    requires forall i | 0 <= i < |items| :: items[i].name !in seen
    ensures FirstOfEachKey(Name, seen, items) == items
    decreases |items|
  {
    if |items| > 0 {
      var t := items[1..];
      assert forall i | 0 <= i < |t| :: t[i] == items[i + 1];
      assert forall i | 0 <= i < |t| :: t[i].name != items[0].name;
      FirstOfEachDistinct(t, seen + {items[0].name});
    }
  }

  /** The harness's counters add up over consecutive runs. */
  lemma {:induction false} ProcessedOfAppend(a: seq<Completion<Item>>, b: seq<Completion<Item>>, v: ItemValue)
    ensures ProcessedOf(a + b, v) == ProcessedOf(a, v) + ProcessedOf(b, v)
    decreases |a|
  {
    if a == [] {
      assert a + b == b;
    } else {
      assert (a + b)[1..] == a[1..] + b;
      ProcessedOfAppend(a[1..], b, v);
    }
  }

  /** A batch all of whose items have value `v` counts all of them. */
  lemma {:induction false} CountAll(items: seq<Item>, v: ItemValue)
    requires forall i | 0 <= i < |items| :: items[i].value == v
    ensures Count(items, v) == |items|
    decreases |items|
  {
    if items != [] {
      assert forall i | 0 <= i < |items[1..]| :: items[1..][i] == items[i + 1];
      CountAll(items[1..], v);
    }
  }

  /** Worker `w` will run a new round on `d`: either it is the worker the
      first add starts, because the counter is below the target, or it is a
      worker of an earlier round still at its loop test. What is left out is
      a state where every counted worker has already seen an empty queue and
      the counter is at the target: there the first add starts nobody. */
  ghost predicate RoundRunner(d: State<Item>, w: nat) {
    || (w == d.nextWorker && d.parallelization - d.runningWorkers > 0)
    || (w in d.workers && d.workers[w].AtLoopHead?)
  }

  /** Adding a batch of new, distinct names to a processor with nothing
      pending or in flight queues every item, in order, and leaves the
      round's runner at its loop test. */
  lemma RoundQueued(d: State<Item>, items: seq<Item>, w: nat)
    requires Valid(Name, d) && d.index == map[] && RoundRunner(d, w)
    requires DistinctNames(items) && |items| > 0
    ensures var r := AddAll(Name, d, items);
      && r.queue == items && r.index.Keys == PendingKeys(Name, items)
      && r.processing == map[] && r.completions == d.completions
      && w in r.workers && r.workers[w].AtLoopHead?
  {
    NothingLive(Name, d);
    EmptyRoundQueued(d, items);
    RunnerWaits(d, items, w);
  }

  /** Distinct names added to an empty queue and index are queued in order
      and indexed, and nothing else of the round's bookkeeping changes. */
  lemma EmptyRoundQueued(d: State<Item>, items: seq<Item>)
    requires d.queue == [] && d.index == map[] && DistinctNames(items)
    ensures var r := AddAll(Name, d, items);
      && r.queue == items && r.index.Keys == PendingKeys(Name, items)
      && r.processing == d.processing && r.completions == d.completions
  {
    var r := AddAll(Name, d, items);
    AddAllEffect(Name, d, items);
    assert d.index.Keys == {};
    FirstOfEachDistinct(items, {});
    assert r.queue == [] + items;
    assert r.index.Keys == {} + PendingKeys(Name, items);
  }

  /** The round's runner is at its loop test once the batch is added: the
      first add starts a fresh worker when the counter is below the target,
      and adds leave an existing worker's phase alone. */
  lemma RunnerWaits(d: State<Item>, items: seq<Item>, w: nat)
    requires Valid(Name, d) && d.index == map[] && RoundRunner(d, w)
    requires |items| > 0
    ensures var r := AddAll(Name, d, items);
      w in r.workers && r.workers[w].AtLoopHead?
  {
    if w in d.workers && d.workers[w].AtLoopHead? {
      AddAllKeepsWorkers(Name, d, items, w);
    } else {
      var s1 := AddItem(Name, d, items[0]);
      assert w in s1.workers && s1.workers[w].AtLoopHead? && w < s1.nextWorker;
      AddAllKeepsWorkers(Name, s1, items[1..], w);
    }
  }

  /** The second half of the batch test: once the first round is handled,
      the same processor accepts a further batch of distinct names, including
      names handled before, and the round's runner, running alone over it,
      counts every one of them as a Win on top of the earlier count. */
  lemma BatchSecondRound(d: State<Item>, items: seq<Item>, w: nat)
    requires Valid(Name, d) && d.index == map[] && RoundRunner(d, w)
    requires DistinctNames(items) && |items| > 0
    requires forall i | 0 <= i < |items| :: items[i].value == Win
    ensures var r := AddAll(Name, d, items);
      && r.queue == items
      && w in r.workers && r.workers[w].AtLoopHead?
      && var e := Drain(Name, r, w, Failures(items));
         && ProcessedOf(e.completions, Win) == ProcessedOf(d.completions, Win) + |items|
         && e.queue == [] && e.index == map[] && e.processing == map[]
  {
    var r := AddAll(Name, d, items);
    RoundQueued(d, items, w);
    DrainClears(r, w, Failures(items));
    ProcessedOfAppend(d.completions, Outcomes(items, Failures(items)), Win);
    ProcessedCountsValue(items, Win);
    CountAll(items, Win);
  }

  /* ---------------------------------------------------------------------- */
  /* The stall test                                                         */
  /* ---------------------------------------------------------------------- */

  /** A processor with no worker and nothing pending or in flight. */
  ghost predicate Idle(h: State<Item>) {
    && h.queue == [] && h.index == map[] && h.processing == map[]
    && h.runningWorkers == 0 && h.workers == map[]
  }

  /** With a target of 0, distinct adds to an idle processor queue every
      item, index exactly their names, and start no worker. */
  lemma StallQueues(h: State<Item>, items: seq<Item>, c: char)
    requires Idle(h) && IncreasingAbove(items, c)
    ensures var s1 := AddAll(Name, SetParallelization(h, 0), items);
      && s1.queue == items && s1.dequeued == h.dequeued
      && s1.index.Keys == PendingKeys(Name, items) && s1.processing == map[]
      && s1.workers == map[] && s1.runningWorkers == 0 && s1.nextWorker == h.nextWorker
  {
    var s0 := SetParallelization(h, 0);
    AddAllStalls(Name, s0, items);
    AddAllEffect(Name, s0, items);
    assert s0.index.Keys == {};
    FirstOfEachFresh(items, {}, c);
    FirstOfEachKeyCount(Name, {}, items);
    assert PendingKeys(Name, items) - {} == PendingKeys(Name, items);
  }

  /** The stall test, up to the manual start: with a target of 0, distinct
      adds queue their items but start no worker; raising the target to 1
      starts none either; a manual start then starts exactly one. */
  lemma StallTest(h: State<Item>, items: seq<Item>, c: char)
    requires Idle(h) && IncreasingAbove(items, c)
    ensures AddAll(Name, SetParallelization(h, 0), items).queue == items
    ensures AddAll(Name, SetParallelization(h, 0), items).dequeued == h.dequeued
    ensures AddAll(Name, SetParallelization(h, 0), items).index.Keys == PendingKeys(Name, items)
    ensures AddAll(Name, SetParallelization(h, 0), items).processing == map[]
    ensures SetParallelization(AddAll(Name, SetParallelization(h, 0), items), 1).workers == map[]
    ensures StartWorker(SetParallelization(AddAll(Name, SetParallelization(h, 0), items), 1)).runningWorkers == 1
    ensures StartWorker(SetParallelization(AddAll(Name, SetParallelization(h, 0), items), 1)).workers
         == map[h.nextWorker := AtLoopHead]
  {
    StallQueues(h, items, c);
    var s2 := SetParallelization(AddAll(Name, SetParallelization(h, 0), items), 1);
    assert s2.workers == map[] && s2.runningWorkers == 0 && s2.parallelization == 1;
    assert StartWorker(s2).workers == s2.workers[s2.nextWorker := AtLoopHead];
  }

  /** The end of the stall test: the manually started worker handles every
      item, and then nothing is pending, in flight or running. */
  lemma StallUnstalled(h: State<Item>, items: seq<Item>, c: char)
    requires Idle(h) && IncreasingAbove(items, c)
    ensures var s3 := StartWorker(SetParallelization(AddAll(Name, SetParallelization(h, 0), items), 1));
      && h.nextWorker in s3.workers && s3.workers[h.nextWorker].AtLoopHead?
      && s3.queue == items
      && var d := Drain(Name, s3, h.nextWorker, Failures(items));
         && d.completions == h.completions + Outcomes(items, Failures(items))
         && d.queue == [] && d.index == map[] && d.runningWorkers == 0
  {
    StallTest(h, items, c);
    var s1 := AddAll(Name, SetParallelization(h, 0), items);
    AddAllEffect(Name, SetParallelization(h, 0), items);
    var s3 := StartWorker(SetParallelization(s1, 1));
    DrainClears(s3, h.nextWorker, Failures(items));
  }

  /** The second half of the stall test: an item added while the target is
      0 stays queued; once the target is 1, the next add starts a worker,
      which handles both items. */
  lemma StallThenAddTest(h: State<Item>, x: Item, y: Item)
    requires Idle(h) && x.name != y.name
    ensures var s1 := AddItem(Name, SetParallelization(h, 0), x);
      var s2 := AddItem(Name, SetParallelization(s1, 1), y);
      && s1.runningWorkers == 0 && s1.queue == [x]
      && s2.runningWorkers == 1 && s2.workers == map[h.nextWorker := AtLoopHead]
      && s2.queue == [x, y]
      && var d := Drain(Name, s2, h.nextWorker, Failures([x, y]));
         && d.completions == h.completions + Outcomes([x, y], Failures([x, y]))
         && d.queue == [] && d.index == map[] && d.runningWorkers == 0
  {
    var s1 := AddItem(Name, SetParallelization(h, 0), x);
    var s2 := AddItem(Name, SetParallelization(s1, 1), y);
    assert s2.queue == [x, y];
    PendingKeysCons(Name, x, [y]);
    PendingKeysCons(Name, y, []);
    assert [x] + [y] == [x, y] && [y] + [] == [y];
    assert PendingKeys(Name, []) == {};
    assert s2.index.Keys == {x.name, y.name};
    assert s2.processing == map[];
    assert h.nextWorker in s2.workers;
    DrainClears(s2, h.nextWorker, Failures([x, y]));
  }
}
