/**
 The bookkeeping of a distinct queue processor as a state machine.

 A processor keeps a FIFO of pending items, an index from key to item of
 everything pending or in flight, a map of the items currently inside the
 consumer's Process/Error callbacks, a worker target (Parallelization) and a
 counter of running workers. Every locked section of the processor and every
 step of a worker task is one transition function below; `Valid` is the
 invariant they all keep.

 The identity of an item is its key, given as a function `key: T -> string`.
 Besides the processor's own five pieces of state, a `State` records the live
 worker tasks (each by an identity number), and three histories used only for
 stating properties: the items accepted by AddItem, the items dequeued by
 workers, and which callback completed each item.
 */
module QueueModel {

  datatype Option<T> = None | Some(value: T)

  /** Where a worker task is in its loop: about to try a dequeue, holding an
      item it has just dequeued, inside Process/Error for that item, or out of
      its loop after seeing an empty queue but not yet decremented. */
  datatype Phase<T> = AtLoopHead | Dequeued(item: T) | InCallback(item: T) | Exiting
  {
    /** Whether the worker holds an item: it has dequeued it and not yet
        cleaned it up. */
    predicate Holding() {
      Dequeued? || InCallback?
    }
  }

  /** Which consumer callback finished an item. */
  datatype Completion<T> = Processed(item: T) | Errored(item: T)

  datatype State<T> = State(
    queue: seq<T>,                   // pending items, head first
    index: map<string, T>,           // everything pending or in flight
    processing: map<string, T>,      // items inside Process/Error
    parallelization: int,            // worker target
    runningWorkers: int,             // worker counter
    workers: map<nat, Phase<T>>,     // live worker tasks
    nextWorker: nat,                 // identity for the next task started
    accepted: seq<T>,                // every item AddItem accepted, in order
    dequeued: seq<T>,                // every item a worker dequeued, in order
    completions: seq<Completion<T>>) // every finished item, in finishing order

  /** A fresh processor: nothing queued, target 1, no workers. */
  function Init<T>(): State<T> {
    State([], map[], map[], 1, 0, map[], 0, [], [], [])
  }

  /* ---------------------------------------------------------------------- */
  /* Transitions                                                            */
  /* ---------------------------------------------------------------------- */

  /** Whether an item with key `k` is pending or in flight. */
  function CheckQueue<T>(s: State<T>, k: string): bool {
    k in s.index
  }

  /** The Parallelization setter: negative values are stored as 0. */
  function SetParallelization<T>(s: State<T>, value: int): State<T> {
    s.(parallelization := if value < 0 then 0 else value)
  }

  /** The start-worker rule: one more worker task when the target exceeds the
      counter. The new task starts at the head of its loop. */
  function StartWorker<T>(s: State<T>): State<T> {
    if s.parallelization - s.runningWorkers > 0 then
      s.(runningWorkers := s.runningWorkers + 1,
         workers := s.workers[s.nextWorker := AtLoopHead],
         nextWorker := s.nextWorker + 1)
    else
      s
  }

  /** The locked section of AddItem: an item whose key is already indexed is
      dropped; otherwise it is indexed, appended to the queue, and the
      start-worker rule is applied once. */
  function AddItem<T>(key: T -> string, s: State<T>, item: T): State<T> {
    var k := key(item);
    if k in s.index then
      s
    else
      StartWorker(s.(index := s.index[k := item],
                     queue := s.queue + [item],
                     accepted := s.accepted + [item]))
  }

  /** The loop test of worker `w`: dequeue the head, or, on an empty queue,
      leave the loop (the counter still counts the worker). */
  function WorkerLoopHead<T>(s: State<T>, w: nat): State<T>
    requires w in s.workers && s.workers[w].AtLoopHead?
  {
    if |s.queue| == 0 then
      s.(workers := s.workers[w := Exiting])
    else
      s.(queue := s.queue[1..],
         workers := s.workers[w := Dequeued(s.queue[0])],
         dequeued := s.dequeued + [s.queue[0]])
  }

  /** Worker `w` records its item as being processed (a TryAdd, which leaves
      the map alone when the key is already there). */
  function WorkerMarkProcessing<T>(key: T -> string, s: State<T>, w: nat): State<T>
    requires w in s.workers && s.workers[w].Dequeued?
  {
    var item := s.workers[w].item;
    var k := key(item);
    s.(processing := if k in s.processing then s.processing else s.processing[k := item],
       workers := s.workers[w := InCallback(item)])
  }

  /** Worker `w` leaves Process (or Error, when Process `failed`) and runs its
      cleanup: the key leaves the index and the processing map, and the worker
      returns to its loop test. */
  function WorkerFinish<T>(key: T -> string, s: State<T>, w: nat, failed: bool): State<T>
    requires w in s.workers && s.workers[w].InCallback?
  {
    var item := s.workers[w].item;
    var k := key(item);
    s.(completions := s.completions + [if failed then Errored(item) else Processed(item)],
       index := s.index - {k},
       processing := s.processing - {k},
       workers := s.workers[w := AtLoopHead])
  }

  /** The outer finally of worker `w`, out of its loop: the counter goes
      down and the task ends. */
  function WorkerExit<T>(s: State<T>, w: nat): State<T>
    requires w in s.workers && s.workers[w].Exiting?
  {
    s.(runningWorkers := s.runningWorkers - 1,
       workers := s.workers - {w})
  }

  /* ---------------------------------------------------------------------- */
  /* The invariant                                                          */
  /* ---------------------------------------------------------------------- */

  /** The items workers hold (dequeued and not yet cleaned up), by worker. */
  function Held<T>(ws: map<nat, Phase<T>>): map<nat, T> {
    map w | w in ws && ws[w].Holding() :: ws[w].item
  }

  /** The items workers are running a callback on, by worker. */
  function InCallbacks<T>(ws: map<nat, Phase<T>>): map<nat, T> {
    map w | w in ws && ws[w].InCallback? :: ws[w].item
  }

  function PendingKeys<T>(key: T -> string, q: seq<T>): set<string> {
    set i | 0 <= i < |q| :: key(q[i])
  }

  function ItemKeys<T>(key: T -> string, m: map<nat, T>): set<string> {
    set w | w in m :: key(m[w])
  }

  ghost predicate Indexed<T>(key: T -> string, m: map<string, T>, x: T) {
    key(x) in m && m[key(x)] == x
  }

  /** No key belongs to two live items: pending items have distinct keys,
      held items have distinct keys, and no held item shares a pending key. */
  ghost predicate LiveKeysDistinct<T>(key: T -> string, q: seq<T>, held: map<nat, T>) {
    && (forall i, j | 0 <= i < j < |q| :: key(q[i]) != key(q[j]))
    && (forall w, i | w in held && 0 <= i < |q| :: key(held[w]) != key(q[i]))
    && (forall w, v | w in held && v in held && w != v :: key(held[w]) != key(held[v]))
  }

  /** The index maps exactly the keys of the live items, each to its item. */
  ghost predicate IndexExact<T>(key: T -> string, index: map<string, T>, q: seq<T>, held: map<nat, T>) {
    && index.Keys == PendingKeys(key, q) + ItemKeys(key, held)
    && (forall i | 0 <= i < |q| :: Indexed(key, index, q[i]))
    && (forall w | w in held :: Indexed(key, index, held[w]))
  }

  /** The processing map holds exactly the items workers run callbacks on. */
  ghost predicate ProcessingExact<T>(key: T -> string, processing: map<string, T>, cb: map<nat, T>) {
    && processing.Keys == ItemKeys(key, cb)
    && (forall w | w in cb :: Indexed(key, processing, cb[w]))
  }

  /** The counter counts the live worker tasks, whose identities are fresh. */
  ghost predicate CounterExact<T>(runningWorkers: int, ws: map<nat, Phase<T>>, next: nat) {
    && runningWorkers == |ws|
    && (forall w | w in ws :: w < next)
  }

  ghost predicate Valid<T>(key: T -> string, s: State<T>) {
    && s.parallelization >= 0
    && CounterExact(s.runningWorkers, s.workers, s.nextWorker)
    && LiveKeysDistinct(key, s.queue, Held(s.workers))
    && IndexExact(key, s.index, s.queue, Held(s.workers))
    && ProcessingExact(key, s.processing, InCallbacks(s.workers))
    && s.accepted == s.dequeued + s.queue
  }

  /* ---------------------------------------------------------------------- */
  /* What the invariant gives                                               */
  /* ---------------------------------------------------------------------- */

  /** In a valid state the processing map is part of the index, with the same
      items; the counter is not negative; the pending keys are distinct. */
  lemma ValidConsequences<T>(key: T -> string, s: State<T>)
    requires Valid(key, s)
    ensures s.processing.Keys <= s.index.Keys
    ensures forall k | k in s.processing :: s.index[k] == s.processing[k]
    ensures s.runningWorkers >= 0 && s.parallelization >= 0
    ensures forall i, j | 0 <= i < |s.queue| && 0 <= j < |s.queue| && i != j ::
              key(s.queue[i]) != key(s.queue[j])
  {
    var held, cb := Held(s.workers), InCallbacks(s.workers);
    forall k | k in s.processing
      ensures k in s.index && s.index[k] == s.processing[k]
    {
      var w :| w in cb && key(cb[w]) == k;
      assert w in held && held[w] == cb[w];
      assert Indexed(key, s.processing, cb[w]);
      assert Indexed(key, s.index, held[w]);
    }
    forall i, j | 0 <= i < |s.queue| && 0 <= j < |s.queue| && i != j
      ensures key(s.queue[i]) != key(s.queue[j])
    {
      if i > j {
        assert key(s.queue[j]) != key(s.queue[i]);
      }
    }
  }

  /** CheckQueue is true exactly for the keys of the items that are pending
      or held by a worker. */
  lemma CheckQueueLive<T>(key: T -> string, s: State<T>, k: string)
    requires Valid(key, s)
    ensures CheckQueue(s, k) <==>
              (exists i | 0 <= i < |s.queue| :: key(s.queue[i]) == k) ||
              (exists w | w in s.workers && s.workers[w].Holding() :: key(s.workers[w].item) == k)
  {
    var held := Held(s.workers);
    if CheckQueue(s, k) && k !in PendingKeys(key, s.queue) {
      assert k in ItemKeys(key, held);
      var w :| w in held && key(held[w]) == k;
      assert w in s.workers && s.workers[w].Holding();
    }
    if exists i | 0 <= i < |s.queue| :: key(s.queue[i]) == k {
      var i :| 0 <= i < |s.queue| && key(s.queue[i]) == k;
      assert Indexed(key, s.index, s.queue[i]);
    }
    if exists w | w in s.workers && s.workers[w].Holding() :: key(s.workers[w].item) == k {
      var w :| w in s.workers && s.workers[w].Holding() && key(s.workers[w].item) == k;
      assert w in held;
      assert Indexed(key, s.index, held[w]);
    }
  }

  /* ---------------------------------------------------------------------- */
  /* Helper facts about the parts of the invariant                          */
  /* ---------------------------------------------------------------------- */

  lemma ValidFromParts<T>(key: T -> string, r: State<T>, held: map<nat, T>, cb: map<nat, T>)
    requires r.parallelization >= 0
    requires CounterExact(r.runningWorkers, r.workers, r.nextWorker)
    requires Held(r.workers) == held && InCallbacks(r.workers) == cb
    requires LiveKeysDistinct(key, r.queue, held)
    requires IndexExact(key, r.index, r.queue, held)
    requires ProcessingExact(key, r.processing, cb)
    requires r.accepted == r.dequeued + r.queue
    ensures Valid(key, r)
  {
  }

  /** A non-empty sequence is its head followed by its tail. */
  lemma SplitHead<X>(q: seq<X>)
    requires |q| > 0
    ensures q == [q[0]] + q[1..]
  {
  }

  lemma AppendAssoc<X>(a: seq<X>, b: seq<X>, c: seq<X>)
    ensures (a + b) + c == a + (b + c)
  {
  }

  /** Every item a worker runs a callback on is an item it holds. */
  lemma CallbacksHeld<T>(ws: map<nat, Phase<T>>)
    ensures forall w | w in InCallbacks(ws) :: w in Held(ws) && Held(ws)[w] == InCallbacks(ws)[w]
  {
  }

  lemma HeldAfterStart<T>(ws: map<nat, Phase<T>>, n: nat)
    requires n !in ws
    ensures Held(ws[n := AtLoopHead]) == Held(ws)
    ensures InCallbacks(ws[n := AtLoopHead]) == InCallbacks(ws)
  {
  }

  lemma HeldAfterLoopExit<T>(ws: map<nat, Phase<T>>, w: nat)
    requires w in ws && ws[w].AtLoopHead?
    ensures Held(ws[w := Exiting]) == Held(ws)
    ensures InCallbacks(ws[w := Exiting]) == InCallbacks(ws)
  {
  }

  lemma HeldAfterExit<T>(ws: map<nat, Phase<T>>, w: nat)
    requires w in ws && ws[w].Exiting?
    ensures Held(ws - {w}) == Held(ws)
    ensures InCallbacks(ws - {w}) == InCallbacks(ws)
  {
  }

  lemma HeldAfterDequeue<T>(ws: map<nat, Phase<T>>, w: nat, x: T)
    requires w in ws && ws[w].AtLoopHead?
    ensures w !in Held(ws)
    ensures Held(ws[w := Dequeued(x)]) == Held(ws)[w := x]
    ensures InCallbacks(ws[w := Dequeued(x)]) == InCallbacks(ws)
  {
  }

  lemma HeldAfterMark<T>(ws: map<nat, Phase<T>>, w: nat)
    requires w in ws && ws[w].Dequeued?
    ensures w !in InCallbacks(ws)
    ensures Held(ws[w := InCallback(ws[w].item)]) == Held(ws)
    ensures InCallbacks(ws[w := InCallback(ws[w].item)]) == InCallbacks(ws)[w := ws[w].item]
  {
  }

  lemma HeldAfterFinish<T>(ws: map<nat, Phase<T>>, w: nat)
    requires w in ws && ws[w].InCallback?
    ensures w in Held(ws) && Held(ws)[w] == ws[w].item
    ensures w in InCallbacks(ws) && InCallbacks(ws)[w] == ws[w].item
    ensures Held(ws[w := AtLoopHead]) == Held(ws) - {w}
    ensures InCallbacks(ws[w := AtLoopHead]) == InCallbacks(ws) - {w}
  {
  }

  lemma CounterAfterStart<T>(rw: int, ws: map<nat, Phase<T>>, n: nat)
    requires CounterExact(rw, ws, n)
    ensures n !in ws
    ensures CounterExact(rw + 1, ws[n := AtLoopHead], n + 1)
  {
    assert n !in ws;
  }

  lemma CounterAfterExit<T>(rw: int, ws: map<nat, Phase<T>>, n: nat, w: nat)
    requires CounterExact(rw, ws, n) && w in ws
    ensures CounterExact(rw - 1, ws - {w}, n)
  {
    assert (ws - {w}).Keys == ws.Keys - {w};
  }

  lemma CounterAfterUpdate<T>(rw: int, ws: map<nat, Phase<T>>, n: nat, w: nat, p: Phase<T>)
    requires CounterExact(rw, ws, n) && w in ws
    ensures CounterExact(rw, ws[w := p], n)
  {
    assert ws[w := p].Keys == ws.Keys;
  }

  lemma PendingKeysAppend<T>(key: T -> string, q: seq<T>, x: T)
    ensures PendingKeys(key, q + [x]) == PendingKeys(key, q) + {key(x)}
  {
    var r := q + [x];
    forall k | k in PendingKeys(key, r)
      ensures k in PendingKeys(key, q) + {key(x)}
    {
      var i :| 0 <= i < |r| && key(r[i]) == k;
      if i < |q| {
        assert r[i] == q[i];
      }
    }
    forall k | k in PendingKeys(key, q)
      ensures k in PendingKeys(key, r)
    {
      var i :| 0 <= i < |q| && key(q[i]) == k;
      assert r[i] == q[i];
    }
    assert r[|q|] == x;
  }

  lemma PendingKeysTail<T>(key: T -> string, q: seq<T>)
    requires |q| > 0
    ensures PendingKeys(key, q) == PendingKeys(key, q[1..]) + {key(q[0])}
  {
    var t := q[1..];
    forall k | k in PendingKeys(key, q)
      ensures k in PendingKeys(key, t) + {key(q[0])}
    {
      var i :| 0 <= i < |q| && key(q[i]) == k;
      if i > 0 {
        assert q[i] == t[i - 1];
      }
    }
    forall k | k in PendingKeys(key, t)
      ensures k in PendingKeys(key, q)
    {
      var i :| 0 <= i < |t| && key(t[i]) == k;
      assert t[i] == q[i + 1];
    }
  }

  lemma ItemKeysAdd<T>(key: T -> string, m: map<nat, T>, w: nat, x: T)
    requires w !in m
    ensures ItemKeys(key, m[w := x]) == ItemKeys(key, m) + {key(x)}
  {
    var r := m[w := x];
    forall k | k in ItemKeys(key, r)
      ensures k in ItemKeys(key, m) + {key(x)}
    {
      var v :| v in r && key(r[v]) == k;
      if v != w {
        assert r[v] == m[v];
      }
    }
    forall k | k in ItemKeys(key, m)
      ensures k in ItemKeys(key, r)
    {
      var v :| v in m && key(m[v]) == k;
      assert r[v] == m[v];
    }
    assert key(r[w]) == key(x);
  }

  lemma ItemKeysRemove<T>(key: T -> string, m: map<nat, T>, w: nat)
    requires w in m
    requires forall u, v | u in m && v in m && u != v :: key(m[u]) != key(m[v])
    ensures ItemKeys(key, m - {w}) == ItemKeys(key, m) - {key(m[w])}
  {
    var r := m - {w};
    forall k | k in ItemKeys(key, m) - {key(m[w])}
      ensures k in ItemKeys(key, r)
    {
      var v :| v in m && key(m[v]) == k;
      assert v != w && r[v] == m[v];
    }
  }

  /** Appending an item whose key is not live keeps the keys distinct. */
  lemma DistinctAfterAppend<T>(key: T -> string, q: seq<T>, held: map<nat, T>, x: T)
    requires LiveKeysDistinct(key, q, held)
    requires key(x) !in PendingKeys(key, q) + ItemKeys(key, held)
    ensures LiveKeysDistinct(key, q + [x], held)
  {
    var r := q + [x];
    forall i, j | 0 <= i < j < |r|
      ensures key(r[i]) != key(r[j])
    {
      assert r[i] == q[i];
      if j < |q| {
        assert r[j] == q[j];
      } else {
        assert key(q[i]) in PendingKeys(key, q);
      }
    }
    forall w, i | w in held && 0 <= i < |r|
      ensures key(held[w]) != key(r[i])
    {
      if i < |q| {
        assert r[i] == q[i];
      } else {
        assert key(held[w]) in ItemKeys(key, held);
      }
    }
  }

  lemma IndexAfterAppend<T>(key: T -> string, index: map<string, T>, q: seq<T>, held: map<nat, T>, x: T)
    requires IndexExact(key, index, q, held)
    requires key(x) !in index
    ensures IndexExact(key, index[key(x) := x], q + [x], held)
  {
    var r, index' := q + [x], index[key(x) := x];
    PendingKeysAppend(key, q, x);
    forall i | 0 <= i < |r|
      ensures Indexed(key, index', r[i])
    {
      if i < |q| {
        assert r[i] == q[i];
        assert Indexed(key, index, q[i]);
      }
    }
    forall w | w in held
      ensures Indexed(key, index', held[w])
    {
      assert Indexed(key, index, held[w]);
    }
  }

  /** Moving the head of the queue into the hands of worker `w`. */
  lemma DistinctAfterDequeue<T>(key: T -> string, q: seq<T>, held: map<nat, T>, w: nat)
    requires LiveKeysDistinct(key, q, held)
    requires |q| > 0 && w !in held
    ensures LiveKeysDistinct(key, q[1..], held[w := q[0]])
  {
    var t, h := q[1..], held[w := q[0]];
    forall i, j | 0 <= i < j < |t|
      ensures key(t[i]) != key(t[j])
    {
      assert t[i] == q[i + 1] && t[j] == q[j + 1];
    }
    forall u, i | u in h && 0 <= i < |t|
      ensures key(h[u]) != key(t[i])
    {
      assert t[i] == q[i + 1];
      if u == w {
        assert key(q[0]) != key(q[i + 1]);
      }
    }
    forall u, v | u in h && v in h && u != v
      ensures key(h[u]) != key(h[v])
    {
      if u == w {
        assert key(held[v]) != key(q[0]);
      } else if v == w {
        assert key(held[u]) != key(q[0]);
      }
    }
  }

  lemma IndexAfterDequeue<T>(key: T -> string, index: map<string, T>, q: seq<T>, held: map<nat, T>, w: nat)
    requires IndexExact(key, index, q, held)
    requires |q| > 0 && w !in held
    ensures IndexExact(key, index, q[1..], held[w := q[0]])
  {
    var t := q[1..];
    PendingKeysTail(key, q);
    ItemKeysAdd(key, held, w, q[0]);
    forall i | 0 <= i < |t|
      ensures Indexed(key, index, t[i])
    {
      assert t[i] == q[i + 1];
    }
    assert Indexed(key, index, q[0]);
  }

  /** Worker `w` starts a callback on an item whose key is not yet in the
      processing map. */
  lemma ProcessingAfterMark<T>(key: T -> string, processing: map<string, T>, cb: map<nat, T>, w: nat, x: T)
    requires ProcessingExact(key, processing, cb)
    requires w !in cb && key(x) !in processing
    ensures ProcessingExact(key, processing[key(x) := x], cb[w := x])
  {
    ItemKeysAdd(key, cb, w, x);
    forall v | v in cb
      ensures Indexed(key, processing[key(x) := x], cb[v])
    {
      assert Indexed(key, processing, cb[v]);
    }
  }

  /** The key of a held item is not in the processing map unless a callback
      runs on it. */
  lemma HeldNotProcessing<T>(key: T -> string, s: State<T>, w: nat)
    requires Valid(key, s)
    requires w in s.workers && s.workers[w].Dequeued?
    ensures key(s.workers[w].item) !in s.processing
  {
    var held, cb := Held(s.workers), InCallbacks(s.workers);
    CallbacksHeld(s.workers);
    assert w in held && w !in cb;
    forall v | v in cb
      ensures key(cb[v]) != key(held[w])
    {
      assert v in held && v != w;
    }
  }

  /** Cleanup of the item held by worker `w`. */
  lemma DistinctAfterFinish<T>(key: T -> string, q: seq<T>, held: map<nat, T>, w: nat)
    requires LiveKeysDistinct(key, q, held)
    ensures LiveKeysDistinct(key, q, held - {w})
  {
  }

  lemma IndexAfterFinish<T>(key: T -> string, index: map<string, T>, q: seq<T>, held: map<nat, T>, w: nat)
    requires IndexExact(key, index, q, held) && LiveKeysDistinct(key, q, held)
    requires w in held
    ensures IndexExact(key, index - {key(held[w])}, q, held - {w})
  {
    var k := key(held[w]);
    ItemKeysRemove(key, held, w);
    assert k !in PendingKeys(key, q);
    forall i | 0 <= i < |q|
      ensures Indexed(key, index - {k}, q[i])
    {
      assert Indexed(key, index, q[i]);
    }
    forall u | u in held - {w}
      ensures Indexed(key, index - {k}, held[u])
    {
      assert Indexed(key, index, held[u]);
    }
  }

  lemma ProcessingAfterFinish<T>(key: T -> string, processing: map<string, T>, cb: map<nat, T>,
                                 held: map<nat, T>, w: nat)
    requires ProcessingExact(key, processing, cb)
    requires forall u, v | u in held && v in held && u != v :: key(held[u]) != key(held[v])
    requires forall u | u in cb :: u in held && held[u] == cb[u]
    requires w in cb
    ensures ProcessingExact(key, processing - {key(cb[w])}, cb - {w})
  {
    var k := key(cb[w]);
    assert forall u, v | u in cb && v in cb && u != v :: key(cb[u]) != key(cb[v]) by {
      forall u, v | u in cb && v in cb && u != v
        ensures key(cb[u]) != key(cb[v])
      {
        assert key(held[u]) != key(held[v]);
      }
    }
    ItemKeysRemove(key, cb, w);
    forall u | u in cb - {w}
      ensures Indexed(key, processing - {k}, cb[u])
    {
      assert Indexed(key, processing, cb[u]);
    }
  }

  /* ---------------------------------------------------------------------- */
  /* Each transition keeps the invariant                                    */
  /* ---------------------------------------------------------------------- */

  lemma InitValid<T>(key: T -> string)
    ensures Valid(key, Init<T>())
  {
    var s := Init<T>();
    assert Held(s.workers) == map[];
    assert InCallbacks(s.workers) == map[];
    assert PendingKeys(key, s.queue) == {};
    assert ItemKeys(key, Held(s.workers)) == {};
    assert ItemKeys(key, InCallbacks(s.workers)) == {};
  }

  lemma SetParallelizationValid<T>(key: T -> string, s: State<T>, value: int)
    requires Valid(key, s)
    ensures Valid(key, SetParallelization(s, value))
  {
  }

  lemma StartWorkerValid<T>(key: T -> string, s: State<T>)
    requires Valid(key, s)
    ensures Valid(key, StartWorker(s))
  {
    if s.parallelization - s.runningWorkers > 0 {
      WorkerStartedValid(key, s);
    } else {
      assert StartWorker(s) == s;
    }
  }

  /** Starting one more worker task keeps the invariant. */
  lemma WorkerStartedValid<T>(key: T -> string, s: State<T>)
    requires Valid(key, s)
    ensures Valid(key, s.(runningWorkers := s.runningWorkers + 1,
                          workers := s.workers[s.nextWorker := AtLoopHead],
                          nextWorker := s.nextWorker + 1))
  {
    var r := s.(runningWorkers := s.runningWorkers + 1,
                workers := s.workers[s.nextWorker := AtLoopHead],
                nextWorker := s.nextWorker + 1);
    CounterAfterStart(s.runningWorkers, s.workers, s.nextWorker);
    HeldAfterStart(s.workers, s.nextWorker);
    ValidFromParts(key, r, Held(s.workers), InCallbacks(s.workers));
  }

  /** Enqueueing an item whose key is not indexed, before the start-worker
      rule is applied, keeps the invariant. */
  lemma EnqueueValid<T>(key: T -> string, s: State<T>, item: T)
    requires Valid(key, s) && key(item) !in s.index
    ensures Valid(key, s.(index := s.index[key(item) := item], queue := s.queue + [item],
                          accepted := s.accepted + [item]))
  {
    var t := s.(index := s.index[key(item) := item], queue := s.queue + [item],
                accepted := s.accepted + [item]);
    var held := Held(s.workers);
    DistinctAfterAppend(key, s.queue, held, item);
    IndexAfterAppend(key, s.index, s.queue, held, item);
    ValidFromParts(key, t, held, InCallbacks(s.workers));
  }

  lemma AddItemValid<T>(key: T -> string, s: State<T>, item: T)
    requires Valid(key, s)
    ensures Valid(key, AddItem(key, s, item))
  {
    var k := key(item);
    if k !in s.index {
      var t := s.(index := s.index[k := item], queue := s.queue + [item],
                  accepted := s.accepted + [item]);
      EnqueueValid(key, s, item);
      StartWorkerValid(key, t);
    }
  }

  lemma LoopHeadValid<T>(key: T -> string, s: State<T>, w: nat)
    requires Valid(key, s)
    requires w in s.workers && s.workers[w].AtLoopHead?
    ensures Valid(key, WorkerLoopHead(s, w))
  {
    if |s.queue| == 0 {
      LoopExitValid(key, s, w);
    } else {
      DequeueValid(key, s, w);
    }
  }

  /** On an empty queue, the worker leaving its loop keeps the invariant. */
  lemma LoopExitValid<T>(key: T -> string, s: State<T>, w: nat)
    requires Valid(key, s)
    requires w in s.workers && s.workers[w].AtLoopHead?
    ensures Valid(key, s.(workers := s.workers[w := Exiting]))
  {
    var r := s.(workers := s.workers[w := Exiting]);
    CounterAfterUpdate(s.runningWorkers, s.workers, s.nextWorker, w, Exiting);
    HeldAfterLoopExit(s.workers, w);
    ValidFromParts(key, r, Held(s.workers), InCallbacks(s.workers));
  }

  /** The decrement that ends a worker task keeps the invariant. */
  lemma WorkerExitValid<T>(key: T -> string, s: State<T>, w: nat)
    requires Valid(key, s)
    requires w in s.workers && s.workers[w].Exiting?
    ensures Valid(key, WorkerExit(s, w))
  {
    var r := WorkerExit(s, w);
    CounterAfterExit(s.runningWorkers, s.workers, s.nextWorker, w);
    HeldAfterExit(s.workers, w);
    ValidFromParts(key, r, Held(s.workers), InCallbacks(s.workers));
  }

  /** Dequeuing the head keeps the invariant. */
  lemma DequeueValid<T>(key: T -> string, s: State<T>, w: nat)
    requires Valid(key, s) && |s.queue| > 0
    requires w in s.workers && s.workers[w].AtLoopHead?
    ensures Valid(key, s.(queue := s.queue[1..], workers := s.workers[w := Dequeued(s.queue[0])],
                          dequeued := s.dequeued + [s.queue[0]]))
  {
    var r := s.(queue := s.queue[1..], workers := s.workers[w := Dequeued(s.queue[0])],
                dequeued := s.dequeued + [s.queue[0]]);
    var held := Held(s.workers);
    CounterAfterUpdate(s.runningWorkers, s.workers, s.nextWorker, w, Dequeued(s.queue[0]));
    HeldAfterDequeue(s.workers, w, s.queue[0]);
    DistinctAfterDequeue(key, s.queue, held, w);
    IndexAfterDequeue(key, s.index, s.queue, held, w);
    SplitHead(s.queue);
    AppendAssoc(s.dequeued, [s.queue[0]], s.queue[1..]);
    ValidFromParts(key, r, held[w := s.queue[0]], InCallbacks(s.workers));
  }

  lemma MarkProcessingValid<T>(key: T -> string, s: State<T>, w: nat)
    requires Valid(key, s)
    requires w in s.workers && s.workers[w].Dequeued?
    ensures Valid(key, WorkerMarkProcessing(key, s, w))
  {
    var r := WorkerMarkProcessing(key, s, w);
    var item := s.workers[w].item;
    var cb := InCallbacks(s.workers);
    HeldNotProcessing(key, s, w);
    CounterAfterUpdate(s.runningWorkers, s.workers, s.nextWorker, w, InCallback(item));
    HeldAfterMark(s.workers, w);
    ProcessingAfterMark(key, s.processing, cb, w, item);
    ValidFromParts(key, r, Held(s.workers), cb[w := item]);
  }

  lemma FinishValid<T>(key: T -> string, s: State<T>, w: nat, failed: bool)
    requires Valid(key, s)
    requires w in s.workers && s.workers[w].InCallback?
    ensures Valid(key, WorkerFinish(key, s, w, failed))
  {
    var r := WorkerFinish(key, s, w, failed);
    var held, cb := Held(s.workers), InCallbacks(s.workers);
    CounterAfterUpdate(s.runningWorkers, s.workers, s.nextWorker, w, AtLoopHead);
    HeldAfterFinish(s.workers, w);
    CallbacksHeld(s.workers);
    DistinctAfterFinish(key, s.queue, held, w);
    IndexAfterFinish(key, s.index, s.queue, held, w);
    ProcessingAfterFinish(key, s.processing, cb, held, w);
    ValidFromParts(key, r, held - {w}, cb - {w});
  }

  /* ---------------------------------------------------------------------- */
  /* Properties of single transitions                                       */
  /* ---------------------------------------------------------------------- */

  /** The stored target is the given value clamped at 0, and nothing else
      changes. */
  lemma SetParallelizationClamps<T>(s: State<T>, value: int)
    ensures SetParallelization(s, value).parallelization >= 0
    ensures value >= 0 ==> SetParallelization(s, value).parallelization == value
    ensures value < 0 ==> SetParallelization(s, value).parallelization == 0
    ensures SetParallelization(s, value).(parallelization := s.parallelization) == s
  {
  }

  /** The start-worker rule: exactly one worker starts, and the counter goes
      up by one, if and only if the target exceeds the counter; otherwise the
      state is unchanged. A start never takes the counter past the target. */
  lemma StartWorkerRule<T>(s: State<T>)
    ensures var r := StartWorker(s);
      && (s.parallelization - s.runningWorkers > 0 <==> r.runningWorkers == s.runningWorkers + 1)
      && (s.parallelization - s.runningWorkers > 0 ==>
            && r.runningWorkers <= r.parallelization
            && r.workers.Keys == s.workers.Keys + {s.nextWorker}
            && r.workers[s.nextWorker].AtLoopHead?)
      && (s.parallelization - s.runningWorkers <= 0 ==> r == s)
      && r.queue == s.queue && r.index == s.index && r.processing == s.processing
  {
  }

  /** A target of 0 turns the start-worker rule into a no-op on a state
      whose counter is not negative. */
  lemma StallWithZeroTarget<T>(key: T -> string, s: State<T>, item: T)
    requires s.parallelization == 0 && s.runningWorkers >= 0
    ensures StartWorker(s) == s
    ensures AddItem(key, s, item).runningWorkers == s.runningWorkers
    ensures AddItem(key, s, item).workers == s.workers
  {
  }

  /** Adding an item whose key is indexed changes nothing at all. */
  lemma AddDuplicateUnchanged<T>(key: T -> string, s: State<T>, item: T)
    requires CheckQueue(s, key(item))
    ensures AddItem(key, s, item) == s
  {
  }

  /** Adding an item with a fresh key indexes it and appends it to the
      queue; the processing map is untouched; then the start-worker rule is
      applied exactly once. */
  lemma AddFreshItem<T>(key: T -> string, s: State<T>, item: T)
    requires !CheckQueue(s, key(item))
    ensures var r := AddItem(key, s, item);
      && r.index == s.index[key(item) := item]
      && r.queue == s.queue + [item]
      && r.processing == s.processing
      && r.parallelization == s.parallelization
      && (r.runningWorkers == s.runningWorkers + 1 <==> s.parallelization - s.runningWorkers > 0)
      && (r.runningWorkers == s.runningWorkers <==> s.parallelization - s.runningWorkers <= 0)
      && CheckQueue(r, key(item))
  {
  }

  /** The loop test takes the head of the queue; on an empty queue the worker
      leaves its loop but is still counted. Either way the counter and the
      maps are unchanged. */
  lemma LoopHeadTakesHead<T>(s: State<T>, w: nat)
    requires w in s.workers && s.workers[w].AtLoopHead?
    ensures var r := WorkerLoopHead(s, w);
      && (|s.queue| > 0 ==>
            && r.workers[w] == Dequeued(s.queue[0])
            && s.queue == [s.queue[0]] + r.queue)
      && (|s.queue| == 0 ==> r.workers[w].Exiting? && r.queue == [])
      && r.runningWorkers == s.runningWorkers
      && r.index == s.index && r.processing == s.processing
  {
  }

  /** The decrement ends exactly worker `w`, lowers the counter by one and
      changes nothing else. */
  lemma ExitDecrements<T>(s: State<T>, w: nat)
    requires w in s.workers && s.workers[w].Exiting?
    ensures var r := WorkerExit(s, w);
      && r.runningWorkers == s.runningWorkers - 1
      && r.workers.Keys == s.workers.Keys - {w}
      && (forall v | v in r.workers :: r.workers[v] == s.workers[v])
      && r.(runningWorkers := s.runningWorkers, workers := s.workers) == s
  {
  }

  /** In a valid state the TryAdd into the processing map always adds: the
      key of a dequeued item is never already being processed. */
  lemma MarkProcessingAdds<T>(key: T -> string, s: State<T>, w: nat)
    requires Valid(key, s)
    requires w in s.workers && s.workers[w].Dequeued?
    ensures var item := s.workers[w].item;
      && key(item) !in s.processing
      && WorkerMarkProcessing(key, s, w).processing == s.processing[key(item) := item]
  {
    HeldNotProcessing(key, s, w);
  }

  /** Finishing an item, whether Process succeeded or Error ran, removes its
      key from the index and from the processing map, records one completion
      of the matching kind, and makes the key acceptable again. */
  lemma FinishRemovesKey<T>(key: T -> string, s: State<T>, w: nat, failed: bool, again: T)
    requires Valid(key, s)
    requires w in s.workers && s.workers[w].InCallback?
    requires key(again) == key(s.workers[w].item)
    ensures var r := WorkerFinish(key, s, w, failed);
      && !CheckQueue(r, key(again))
      && key(again) !in r.processing
      && r.index == s.index - {key(again)}
      && r.processing == s.processing - {key(again)}
      && r.completions == s.completions +
           [if failed then Errored(s.workers[w].item) else Processed(s.workers[w].item)]
      && r.(completions := s.completions) == WorkerFinish(key, s, w, !failed).(completions := s.completions)
      && AddItem(key, r, again).queue == r.queue + [again]
  {
  }

  /** Items leave the queue in the order AddItem accepted them: in a valid
      state the accepted items are the dequeued ones followed by the pending
      ones, so a worker step that dequeues extends `dequeued` by the next
      accepted item. */
  lemma DequeueOrderIsAcceptOrder<T>(key: T -> string, s: State<T>, w: nat)
    requires Valid(key, s)
    requires w in s.workers && s.workers[w].AtLoopHead? && |s.queue| > 0
    ensures var r := WorkerLoopHead(s, w);
      && r.dequeued == s.accepted[..|s.dequeued| + 1]
      && r.workers[w].item == s.accepted[|s.dequeued|]
  {
    assert s.accepted[..|s.dequeued| + 1] == s.dequeued + [s.queue[0]];
  }
}
