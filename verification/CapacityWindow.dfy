/** The in-flight window (utils/capacity_queue) and the worker that submits through it
    (utils/capacity_worker). */
module CapacityWindow {
  import opened Machine
  import opened Sequences

  datatype Entry = Entry(item: nat, cost: nat)

  datatype Taken = Nothing | Item(item: nat)

  /** What the window is for: take when nothing is in flight, or when the cost still fits. */
  predicate MayTake(inflight: nat, cost: nat, capacity: nat) {
    inflight == 0 || inflight + cost <= capacity
  }

  /** What the machine tests: the sum is a size_t and wraps. */
  predicate TestsFree(inflight: nat, cost: nat, capacity: nat) {
    inflight == 0 || Add64(inflight, cost) <= capacity
  }

  /** The test agrees with the purpose exactly when the sum does not wrap, or wraps to more than the
      capacity. */
  lemma {:induction false} TestExact(inflight: nat, cost: nat, capacity: nat)
    requires inflight <= MAX_SIZE && cost <= MAX_SIZE && capacity <= MAX_SIZE
    ensures TestsFree(inflight, cost, capacity) == MayTake(inflight, cost, capacity) <==>
              inflight == 0 || inflight + cost <= MAX_SIZE || inflight + cost - (MAX_SIZE + 1) > capacity
  {
  }

  /** Removes one occurrence. */
  function Without(s: seq<nat>, x: nat): seq<nat> {
    if s == [] then []
    else if s[|s| - 1] == x then s[..|s| - 1]
    else Without(s[..|s| - 1], x) + [s[|s| - 1]]
  }

  lemma {:induction false} WithoutSum(s: seq<nat>, x: nat)
    requires x in s
    ensures Sum(Without(s, x)) + x == Sum(s) && |Without(s, x)| == |s| - 1
    ensures multiset(Without(s, x)) == multiset(s) - multiset{x}
  {
    var n := |s| - 1;
    assert s == s[..n] + [s[n]];
    if s[n] != x {
      WithoutSum(s[..n], x);
      SumAppend(Without(s[..n], x), s[n]);
    }
  }

  /** The window holds: what is in flight fits, or one item carries it all (it was taken alone, because
      an item larger than the window could otherwise never be). */
  ghost predicate Bounded(inflight: nat, outstanding: seq<nat>, capacity: nat) {
    inflight <= capacity || inflight in outstanding
  }

  ghost predicate Consistent(inflight: nat, outstanding: seq<nat>, capacity: nat) {
    inflight == Sum(outstanding) && Bounded(inflight, outstanding, capacity)
  }

  lemma {:induction false} TakeKeeps(inflight: nat, outstanding: seq<nat>, capacity: nat, cost: nat)
    requires Consistent(inflight, outstanding, capacity) && MayTake(inflight, cost, capacity)
    ensures Consistent(inflight + cost, outstanding + [cost], capacity)
  {
    SumAppend(outstanding, cost);
    assert (outstanding + [cost])[|outstanding|] == cost;
  }

  lemma {:induction false} CompleteKeeps(inflight: nat, outstanding: seq<nat>, capacity: nat, cost: nat)
    requires Consistent(inflight, outstanding, capacity) && cost in outstanding
    ensures cost <= inflight && Consistent(inflight - cost, Without(outstanding, cost), capacity)
  {
    WithoutSum(outstanding, cost);
    if inflight > capacity && cost != 0 && inflight - cost > capacity {
      TwoCosts(outstanding, inflight, cost);
    } else if cost == 0 && inflight > capacity {
      assert inflight in multiset(outstanding);
      assert inflight in multiset(Without(outstanding, cost));
    }
  }

  lemma {:induction false} TwoCosts(s: seq<nat>, x: nat, y: nat)
    requires x in s && y in s
    ensures x == y || x + y <= Sum(s)
  {
    if x != y {
      WithoutSum(s, x);
      assert y in multiset(s) && y in multiset(Without(s, x));
      WithoutSum(Without(s, x), y);
    }
  }

  /** What always holds: everything is a size, and nothing is counted that is not in flight. */
  ghost predicate Tracked(capacity: nat, inflight: nat, pending: seq<Entry>, outstanding: seq<nat>, exact: bool) {
    && capacity <= MAX_SIZE && inflight <= MAX_SIZE && CostsBelow(pending, MAX_SIZE)
    && inflight <= Sum(outstanding)
    && (exact ==> Consistent(inflight, outstanding, capacity))
  }

  ghost predicate CostsBelow(entries: seq<Entry>, largest: nat) {
    forall k :: 0 <= k < |entries| ==> entries[k].cost <= largest
  }

  lemma {:induction false} TakeKeepsWindow(capacity: nat, inflight: nat, pending: seq<Entry>, outstanding: seq<nat>, exact: bool)
    requires Tracked(capacity, inflight, pending, outstanding, exact)
    requires pending != [] && TestsFree(inflight, pending[0].cost, capacity)
    ensures
      var cost := pending[0].cost;
      Tracked(capacity, Add64(inflight, cost), pending[1..], outstanding + [cost], exact && inflight + cost <= MAX_SIZE)
  {
    var cost := pending[0].cost;
    SumAppend(outstanding, cost);
    if exact && inflight + cost <= MAX_SIZE { TakeKeeps(inflight, outstanding, capacity, cost); }
    hide Consistent;
  }

  lemma {:induction false} CompleteKeepsWindow(capacity: nat, inflight: nat, pending: seq<Entry>, outstanding: seq<nat>, exact: bool, cost: nat)
    requires Tracked(capacity, inflight, pending, outstanding, exact)
    ensures
      Tracked(capacity, if inflight >= cost then inflight - cost else 0, pending, Without(outstanding, cost), exact && cost in outstanding)
  {
    if cost in outstanding {
      WithoutSum(outstanding, cost);
      if exact { CompleteKeeps(inflight, outstanding, capacity, cost); }
    } else {
      WithoutNone(outstanding, cost);
    }
    hide Consistent, Without;
  }

  lemma {:induction false} WithoutNone(s: seq<nat>, x: nat)
    requires x !in s
    ensures Without(s, x) == s
  {
    if s != [] { WithoutNone(s[..|s| - 1], x); }
  }

  class CapacityQueue {
    const capacity: nat
    var inflight: nat
    var pending: seq<Entry>

    /** The costs taken and not completed. */
    ghost var outstanding: seq<nat>
    /** No take has wrapped, and every completion was of a cost in flight. */
    ghost var exact: bool

    ghost predicate Valid()
      reads this
    {
      Tracked(capacity, inflight, pending, outstanding, exact)
    }

    constructor (limit: nat)
      requires limit <= MAX_SIZE
      ensures Valid() && capacity == limit && pending == [] && outstanding == [] && exact
    {
      capacity, inflight, pending, outstanding, exact := limit, 0, [], [], true;
    }

    method Enqueue(item: nat, cost: nat)
      requires Valid() && cost <= MAX_SIZE
      modifies this`pending
      ensures Valid() && pending == old(pending) + [Entry(item, cost)]
    {
      pending := pending + [Entry(item, cost)];
    }

    method EnqueueFront(item: nat, cost: nat)
      requires Valid() && cost <= MAX_SIZE
      modifies this`pending
      ensures Valid() && pending == [Entry(item, cost)] + old(pending)
    {
      pending := [Entry(item, cost)] + pending;
    }

    /** Takes the first pending item if the machine's test lets it, and nothing otherwise. While the
        window is exact it stays so, unless this very sum passes the largest size. */
    method TryTake() returns (taken: Taken)
      requires Valid()
      modifies this`inflight, this`pending, this`outstanding, this`exact
      ensures Valid()
      ensures taken.Item? <==> old(pending) != [] && TestsFree(old(inflight), old(pending)[0].cost, capacity)
      ensures taken.Nothing? ==> pending == old(pending) && inflight == old(inflight) &&
                                 outstanding == old(outstanding) && exact == old(exact)
      ensures taken.Item? ==>
                && taken.item == old(pending)[0].item && old(pending) == [old(pending)[0]] + pending
                && inflight == Add64(old(inflight), old(pending)[0].cost)
                && outstanding == old(outstanding) + [old(pending)[0].cost]
                && exact == (old(exact) && old(inflight) + old(pending)[0].cost <= MAX_SIZE)
    {
      if pending == [] { return Nothing; }
      var cost := pending[0].cost;
      if inflight != 0 && Add64(inflight, cost) > capacity { return Nothing; }
      TakeKeepsWindow(capacity, inflight, pending, outstanding, exact);
      hide Tracked, Add64;
      var entry := pending[0];
      exact := exact && inflight + cost <= MAX_SIZE;
      pending := pending[1..];
      inflight := Add64(inflight, entry.cost);
      outstanding := outstanding + [entry.cost];
      taken := Item(entry.item);
    }

    /** Releases what a completed item reserved, never below nothing. */
    method Complete(cost: nat)
      requires Valid()
      modifies this`inflight, this`outstanding, this`exact
      ensures Valid()
      ensures inflight == if old(inflight) >= cost then old(inflight) - cost else 0
      ensures exact == (old(exact) && cost in old(outstanding))
      ensures outstanding == Without(old(outstanding), cost)
    {
      CompleteKeepsWindow(capacity, inflight, pending, outstanding, exact, cost);
      hide Tracked;
      exact := exact && cost in outstanding;
      inflight := if inflight >= cost then inflight - cost else 0;
      outstanding := Without(outstanding, cost);
    }

    /** Drops what waits and forgets what is in flight. */
    method Clear()
      requires Valid()
      modifies this
      ensures Valid() && exact && pending == [] && outstanding == [] && inflight == 0
    {
      pending, inflight, outstanding, exact := [], 0, [], true;
    }

    /** Drops what waits; what is in flight keeps its credit until it really completes. */
    method AbortPending()
      requires Valid()
      modifies this`pending
      ensures Valid() && pending == []
    {
      pending := [];
    }

    predicate Idle()
      reads this
    {
      pending == [] && inflight == 0
    }

    /** Nothing pending and a count of zero leave only items that cost nothing in flight. */
    lemma IdleIsHonest()
      requires Valid() && exact && Idle()
      ensures forall k :: 0 <= k < |outstanding| ==> outstanding[k] == 0
    {
      forall k | 0 <= k < |outstanding|
        ensures outstanding[k] == 0
      {
        SumUpdate(outstanding, k, 0);
      }
    }
  }

  /** A window of four with one in flight takes an item of the largest size: the sum wraps to nothing, and
      an item is in flight on top of a window it does not fit, with nothing counted. */
  method WrapTakes() returns (first: Taken, second: Taken, inflight: nat)
    ensures first == Item(1) && second == Item(2) && inflight == 0
    ensures !MayTake(1, MAX_SIZE, 4)
  {
    var queue := new CapacityQueue(4);
    queue.Enqueue(1, 1);
    first := queue.TryTake();
    queue.Enqueue(2, MAX_SIZE);
    second := queue.TryTake();
    inflight := queue.inflight;
  }

  datatype Sizing = Window(capacity: nat) | Throws

  /** The chunks in the order they are to be submitted. */
  function Items(entries: seq<Entry>): seq<nat> {
    if entries == [] then [] else [entries[0].item] + Items(entries[1..])
  }

  lemma {:induction false} ItemsConcat(a: seq<Entry>, b: seq<Entry>)
    ensures Items(a + b) == Items(a) + Items(b)
  {
    if a == [] {
      assert a + b == b;
    } else {
      assert (a + b)[1..] == a[1..] + b;
      ItemsConcat(a[1..], b);
    }
  }

  /** No sum of a window, or of an item taken alone, and one more cost of at most `largest` wraps. */
  predicate Roomy(capacity: nat, largest: nat) {
    capacity + largest <= MAX_SIZE && largest + largest <= MAX_SIZE
  }

  ghost predicate TakenBelow(costs: seq<nat>, largest: nat) {
    forall k :: 0 <= k < |costs| ==> costs[k] <= largest
  }

  /** An exact window no sum can wrap, as long as no cost passes `largest`. */
  ghost predicate Safe(capacity: nat, inflight: nat, pending: seq<Entry>, outstanding: seq<nat>, exact: bool, largest: nat) {
    && exact && Consistent(inflight, outstanding, capacity) && Roomy(capacity, largest)
    && CostsBelow(pending, largest) && TakenBelow(outstanding, largest)
  }

  lemma {:induction false} TakeKeepsSafe(capacity: nat, inflight: nat, pending: seq<Entry>, outstanding: seq<nat>, exact: bool, largest: nat)
    requires Safe(capacity, inflight, pending, outstanding, exact, largest)
    requires pending != [] && TestsFree(inflight, pending[0].cost, capacity)
    ensures
      var cost := pending[0].cost;
      && inflight + cost <= MAX_SIZE
      && Safe(capacity, inflight + cost, pending[1..], outstanding + [cost], exact, largest)
  {
    var cost := pending[0].cost;
    assert inflight + cost <= MAX_SIZE;
    TakeKeeps(inflight, outstanding, capacity, cost);
    hide Consistent;
  }

  lemma {:induction false} CompleteKeepsSafe(capacity: nat, inflight: nat, pending: seq<Entry>, outstanding: seq<nat>, exact: bool,
                                             largest: nat, cost: nat)
    requires Safe(capacity, inflight, pending, outstanding, exact, largest) && cost in outstanding
    ensures cost <= inflight && Safe(capacity, inflight - cost, pending, Without(outstanding, cost), exact, largest)
  {
    CompleteKeeps(inflight, outstanding, capacity, cost);
    WithoutBelow(outstanding, cost, largest);
    hide Consistent, Without;
  }

  lemma {:induction false} WithoutBelow(costs: seq<nat>, cost: nat, largest: nat)
    requires TakenBelow(costs, largest)
    ensures TakenBelow(Without(costs, cost), largest)
  {
    if costs != [] && costs[|costs| - 1] != cost { WithoutBelow(costs[..|costs| - 1], cost, largest); }
  }

  /** A worker that owns a window, created by the first request that can size it. Its backend holds what
      was submitted and completes it in any order; a drain with anything in flight completes something.
      Nothing is deferred outside the window. Whatever the costs, no take waits for nothing: a count that
      has wrapped is below what is really in flight. */
  class CapacityWorker {
    var queue: CapacityQueue?
    var backend: seq<nat>
    var submitted: seq<nat>
    var discarded: nat

    /** Any bound on costs; windows it leaves room in stay exact. */
    ghost const largest: nat

    ghost predicate Valid()
      reads this, queue
    {
      queue != null ==> queue.Valid() && backend == queue.outstanding
    }

    ghost predicate Kept(q: CapacityQueue)
      reads q
    {
      Safe(q.capacity, q.inflight, q.pending, q.outstanding, q.exact, largest)
    }

    /** The window is exact and roomy, or will be once this sizing has made it. */
    ghost predicate StaysRoomy(sizing: Sizing)
      reads this, queue
    {
      if queue == null then sizing.Window? && Roomy(sizing.capacity, largest) else Kept(queue)
    }

    constructor (ghost largestCost: nat)
      ensures Valid() && queue == null && submitted == [] && discarded == 0 && largest == largestCost
    {
      largest, queue, backend, submitted, discarded := largestCost, null, [], [], 0;
    }

    predicate Idle()
      reads this, queue
    {
      queue == null || queue.Idle()
    }

    ghost function Waiting(): seq<nat>
      reads this, queue
    {
      if queue == null then [] else Items(queue.pending)
    }

    /** Nothing waits, or the window has no room for the next chunk. */
    predicate Full(q: CapacityQueue)
      reads q
    {
      q.pending == [] || !TestsFree(q.inflight, q.pending[0].cost, q.capacity)
    }

    /** One take and submit. */
    method PumpOne(q: CapacityQueue) returns (more: bool)
      requires Valid() && q == queue
      modifies this`submitted, this`backend, q`inflight, q`pending, q`outstanding, q`exact
      ensures Valid() && (old(Kept(q)) ==> Kept(q))
      ensures submitted + Waiting() == old(submitted + Waiting())
      ensures !more ==> Full(q) && q.pending == old(q.pending) && backend == old(backend)
      ensures more ==> |q.pending| + 1 == |old(q.pending)| && |backend| == |old(backend)| + 1
    {
      if Kept(q) && !Full(q) { TakeKeepsSafe(q.capacity, q.inflight, q.pending, q.outstanding, q.exact, largest); }
      hide Safe, Tracked;
      var cost := if q.pending == [] then 0 else q.pending[0].cost;
      var taken := q.TryTake();
      if taken.Nothing? { return false; }
      assert old(q.pending)[1..] == q.pending;
      submitted := submitted + [taken.item];
      backend := backend + [cost];
      more := true;
    }

    /** pump: submits pending chunks, first to last, until the window has no room for the next. */
    method Pump(q: CapacityQueue)
      requires Valid() && q == queue
      modifies this`submitted, this`backend, q`inflight, q`pending, q`outstanding, q`exact
      ensures Valid() && (old(Kept(q)) ==> Kept(q))
      ensures submitted + Waiting() == old(submitted + Waiting())
      ensures Full(q) && (q.pending != [] ==> backend != [])
      ensures |q.pending| + |backend| == old(|q.pending| + |backend|) && |q.pending| <= old(|q.pending|)
    {
      var more := true;
      while more
        invariant Valid() && submitted + Waiting() == old(submitted + Waiting())
        invariant old(Kept(q)) ==> Kept(q)
        invariant |q.pending| + |backend| == old(|q.pending| + |backend|) && |q.pending| <= old(|q.pending|)
        invariant !more ==> Full(q)
        decreases |q.pending|, more
      {
        hide Safe, Tracked;
        more := PumpOne(q);
      }
    }

    method ReleaseOne(q: CapacityQueue)
      requires Valid() && q == queue && backend != []
      modifies this`backend, q`inflight, q`outstanding, q`exact
      ensures Valid() && (old(Kept(q)) ==> Kept(q))
      ensures |backend| == |old(backend)| - 1
    {
      var k: nat :| k < |backend|;
      var cost := backend[k];
      WithoutSum(backend, cost);
      if Kept(q) { CompleteKeepsSafe(q.capacity, q.inflight, q.pending, q.outstanding, q.exact, largest, cost); }
      hide Safe, Tracked;
      q.Complete(cost);
      backend := Without(backend, cost);
    }

    /** drain_batch: at least one item in flight completes, and its cost is released. */
    method DrainBatch(q: CapacityQueue)
      requires Valid() && q == queue
      modifies this`backend, q`inflight, q`outstanding, q`exact
      ensures Valid() && (old(Kept(q)) ==> Kept(q))
      ensures |backend| <= |old(backend)| && (old(backend) != [] ==> |backend| < |old(backend)|)
    {
      var more := true;
      while more && backend != []
        invariant Valid() && |backend| <= |old(backend)|
        invariant old(Kept(q)) ==> Kept(q)
        invariant !more ==> |backend| < |old(backend)|
        decreases |backend|, more
      {
        ReleaseOne(q);
        more := *;
      }
    }

    /** The loop of execute: until every chunk of the request has been submitted. It ends because each
        pass submits a chunk or completes one. */
    method SubmitAll(q: CapacityQueue)
      requires Valid() && q == queue
      modifies this`submitted, this`backend, q`inflight, q`pending, q`outstanding, q`exact
      ensures Valid() && (old(Kept(q)) ==> Kept(q))
      ensures q.pending == [] && submitted == old(submitted + Waiting())
    {
      while q.pending != []
        invariant Valid() && submitted + Waiting() == old(submitted + Waiting())
        invariant old(Kept(q)) ==> Kept(q)
        decreases 2 * |q.pending| + |backend|
      {
        Pump(q);
        if q.pending != [] { DrainBatch(q); }
      }
    }

    /** execute: every chunk of the request, after whatever was waiting, is submitted once and in order;
        a request that finds no window and cannot size one is discarded, and the next one tries again. */
    method Execute(chunks: seq<Entry>, sizing: Sizing)
      requires Valid() && CostsBelow(chunks, MAX_SIZE) && (sizing.Window? ==> sizing.capacity <= MAX_SIZE)
      modifies this, queue
      ensures Valid()
      ensures old(queue) == null && sizing.Throws? ==>
                queue == null && submitted == old(submitted) && discarded == old(discarded) + 1
      ensures old(queue) != null || sizing.Window? ==>
                && queue != null && Waiting() == [] && discarded == old(discarded)
                && submitted == old(submitted) + old(Waiting()) + Items(chunks)
                && (CostsBelow(chunks, largest) && old(StaysRoomy(sizing)) ==> Kept(queue))
    {
      if queue == null {
        if sizing.Throws? {
          discarded := discarded + 1;
          return;
        }
        queue := new CapacityQueue(sizing.capacity);
        backend := [];
      }
      var q := queue;
      EnqueueAll(q, chunks);
      SubmitAll(q);
      if q.inflight >= q.capacity { DrainBatch(q); }
    }

    /** The hook that splits a request into chunks. */
    method EnqueueAll(q: CapacityQueue, chunks: seq<Entry>)
      requires Valid() && q == queue && CostsBelow(chunks, MAX_SIZE)
      modifies q`pending
      ensures Valid() && (old(Kept(q)) && CostsBelow(chunks, largest) ==> Kept(q))
      ensures q.pending == old(q.pending) + chunks
      ensures Waiting() == old(Waiting()) + Items(chunks)
    {
      assert q.pending + chunks[..0] == q.pending;
      for k := 0 to |chunks|
        invariant Valid() && q.pending == old(q.pending) + chunks[..k]
      {
        assert chunks[..k + 1] == chunks[..k] + [chunks[k]];
        q.Enqueue(chunks[k].item, chunks[k].cost);
      }
      assert chunks[..|chunks|] == chunks;
      ItemsConcat(old(q.pending), chunks);
    }

    /** drain: one batch, then whatever the freed window allows. */
    method Drain()
      requires Valid()
      modifies this`submitted, this`backend, queue
      ensures Valid() && submitted + Waiting() == old(submitted + Waiting())
      ensures queue != null ==> Full(queue) && (old(queue != null && Kept(queue)) ==> Kept(queue))
    {
      if queue == null { return; }
      var q := queue;
      DrainBatch(q);
      Pump(q);
    }
  }
}
