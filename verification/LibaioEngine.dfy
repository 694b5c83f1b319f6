/** The libaio engine (posix_io/libaio_engine): control blocks, a queue of staged reads, and the
    completions of reads the kernel refused, against a kernel that may do anything it is allowed to. */
module LibaioEngines {
  import opened IoLedger

  /** How many reads one io_submit carries. */
  const SUBMIT_BATCH: nat := 1

  datatype Event = Event(block: nat, res: int)

  function BlocksOf(events: seq<Event>): seq<nat> {
    if events == [] then [] else BlocksOf(events[..|events| - 1]) + [events[|events| - 1].block]
  }

  lemma {:induction false} LastEvent(events: seq<Event>, event: Event)
    ensures BlocksOf(events + [event]) == BlocksOf(events) + [event.block]
  {
    assert (events + [event])[..|events|] == events;
  }

  /** The kernel's side of one context: the control blocks it holds. */
  class AioContext {
    var held: seq<nat>

    /** What io_submit has answered so far, and how often io_getevents was asked. */
    ghost var answers: seq<int>
    ghost var waits: nat

    constructor Empty()
      ensures held == [] && answers == [] && waits == 0
    {
      held, answers, waits := [], [], 0;
    }

    /** Takes a prefix of what it is offered, or fails and takes nothing. */
    method Submit(offered: seq<nat>) returns (ret: int)
      modifies this`held, this`answers
      ensures ret <= |offered| && answers == old(answers) + [ret]
      ensures held == if ret < 0 then old(held) else old(held) + offered[..ret]
    {
      ret :| ret <= |offered|;
      answers := answers + [ret];
      if ret >= 0 { held := held + offered[..ret]; }
    }

    method FinishOne() returns (event: Event)
      requires held != []
      modifies this`held
      ensures multiset(held) + multiset{event.block} == multiset(old(held))
    {
      var i: nat :| i < |held|;
      var res: int := *;
      Removed(held, i);
      event := Event(held[i], res);
      held := held[..i] + held[i + 1..];
    }

    /** Finishes any of the reads it holds, in any order, with any result; or fails and finishes none. */
    method GetEvents(max: nat) returns (ret: int, events: seq<Event>)
      modifies this`held, this`waits
      ensures waits == old(waits) + 1
      ensures ret < 0 ==> held == old(held) && events == []
      ensures ret >= 0 ==> ret == |events| <= max
      ensures multiset(held) + multiset(BlocksOf(events)) == multiset(old(held))
    {
      events := [];
      waits := waits + 1;
      ret :| true;
      if ret < 0 { return; }
      while |events| < max && held != []
        invariant |events| <= max && waits == old(waits) + 1
        invariant multiset(held) + multiset(BlocksOf(events)) == multiset(old(held))
      {
        var stop: bool := *;
        if stop { break; }
        var event := FinishOne();
        LastEvent(events, event);
        events := events + [event];
      }
      ret := |events|;
    }
  }

  /** All control blocks of a context, once each. */
  ghost function AllBlocks(depth: nat): multiset<nat> {
    if depth == 0 then multiset{} else AllBlocks(depth - 1) + multiset{depth - 1}
  }

  lemma {:induction false} AllBlocksOnce(depth: nat, b: nat)
    ensures AllBlocks(depth)[b] == if b < depth then 1 else 0
    ensures |AllBlocks(depth)| == depth
  {
    if depth > 0 { AllBlocksOnce(depth - 1, b); }
  }

  function IdOf(b: nat, data: seq<nat>): nat { if b < |data| then data[b] else 0 }

  /** The request ids carried by these blocks. */
  function Carried(blocks: seq<nat>, data: seq<nat>): seq<nat> {
    if blocks == [] then [] else Carried(blocks[..|blocks| - 1], data) + [IdOf(blocks[|blocks| - 1], data)]
  }

  lemma {:induction false} CarriedConcat(a: seq<nat>, b: seq<nat>, data: seq<nat>)
    ensures Carried(a + b, data) == Carried(a, data) + Carried(b, data)
    ensures |Carried(b, data)| == |b|
  {
    if b == [] {
      assert a + b == a;
    } else {
      var n := |b| - 1;
      assert (a + b)[..|a + b| - 1] == a + b[..n];
      CarriedConcat(a, b[..n], data);
    }
  }

  lemma {:induction false} CarriedSame(blocks: seq<nat>, data: seq<nat>, b: nat, id: nat)
    requires b < |data| && b !in blocks
    ensures Carried(blocks, data[b := id]) == Carried(blocks, data)
  {
    if blocks != [] { CarriedSame(blocks[..|blocks| - 1], data, b, id); }
  }

  lemma {:induction false} CarriedSplit(blocks: seq<nat>, n: nat, data: seq<nat>)
    requires n <= |blocks|
    ensures |Carried(blocks, data)| == |blocks|
    ensures Carried(blocks[..n], data) == Carried(blocks, data)[..n]
    ensures Carried(blocks[n..], data) == Carried(blocks, data)[n..]
  {
    assert blocks == blocks[..n] + blocks[n..];
    CarriedConcat(blocks[..n], blocks[n..], data);
    CarriedConcat([], blocks[..n], data);
    assert [] + blocks[..n] == blocks[..n];
  }

  lemma {:induction false} CarriedWithout(b: seq<nat>, j: nat, data: seq<nat>)
    requires j < |b|
    ensures multiset(Carried(b, data)) == multiset(Carried(b[..j] + b[j + 1..], data)) + multiset{IdOf(b[j], data)}
  {
    assert b == (b[..j] + [b[j]]) + b[j + 1..];
    CarriedConcat(b[..j], b[j + 1..], data);
    CarriedConcat(b[..j] + [b[j]], b[j + 1..], data);
    CarriedConcat(b[..j], [b[j]], data);
    assert Carried([b[j]], data) == [IdOf(b[j], data)];
  }

  /** Which ids are carried does not depend on the order of the blocks. */
  lemma {:induction false} CarriedReordered(a: seq<nat>, b: seq<nat>, data: seq<nat>)
    requires multiset(a) == multiset(b)
    ensures multiset(Carried(a, data)) == multiset(Carried(b, data))
  {
    if a == [] {
      assert |multiset(b)| == 0;
      assert b == [];
    } else {
      var n := |a| - 1;
      Removed(a, n);
      assert a[..n] + a[n + 1..] == a[..n];
      assert a[n] in multiset(b);
      var j :| 0 <= j < |b| && b[j] == a[n];
      Removed(b, j);
      WithoutSame(a[..n], b[..j] + b[j + 1..], multiset(b), a[n]);
      CarriedReordered(a[..n], b[..j] + b[j + 1..], data);
      CarriedWithout(a, n, data);
      CarriedWithout(b, j, data);
    }
  }

  lemma {:induction false} WithoutSame(a: seq<nat>, b: seq<nat>, all: multiset<nat>, x: nat)
    requires multiset(a) + multiset{x} == all && multiset(b) + multiset{x} == all
    ensures multiset(a) == multiset(b)
  {
    assert multiset(a) == all - multiset{x} && multiset(b) == all - multiset{x};
  }

  lemma {:induction false} BlocksHold(events: seq<Event>, i: nat)
    requires i < |events|
    ensures events[i].block in BlocksOf(events)
    ensures BlocksOf(events[..i + 1]) == BlocksOf(events[..i]) + [events[i].block]
  {
    var n := |events| - 1;
    assert events[..i + 1][..i] == events[..i];
    if i < n {
      assert events[..n][..i + 1] == events[..i + 1] && events[..n][..i] == events[..i];
      BlocksHold(events[..n], i);
    }
  }

  /** The blocks 0 .. depth, in the order the constructor frees them. */
  ghost function FirstBlocks(depth: nat): (blocks: seq<nat>)
    ensures |blocks| == depth && forall i :: 0 <= i < depth ==> blocks[i] == i
    ensures multiset(blocks) == AllBlocks(depth)
  {
    if depth == 0 then [] else FirstBlocks(depth - 1) + [depth - 1]
  }

  /** What the ledger says and what the blocks carry. */
  ghost predicate Accounted(l: Ledger, pending: seq<nat>, held: seq<nat>, failures: seq<Completion>, data: seq<nat>) {
    && l.Balanced()
    && l.pending == Carried(pending, data) && l.held == multiset(Carried(held, data)) && l.failed == failures
  }

  ghost predicate Partition(free: seq<nat>, pending: seq<nat>, held: seq<nat>, depth: nat) {
    multiset(free) + multiset(pending) + multiset(held) == AllBlocks(depth)
  }

  /** Free, pending and kernel-held blocks are disjoint and are all the blocks there are; the ledger says
      what their ids are owed. */
  ghost predicate Consistent(l: Ledger, free: seq<nat>, pending: seq<nat>, held: seq<nat>,
                             failures: seq<Completion>, data: seq<nat>)
  {
    Partition(free, pending, held, |data|) && Accounted(l, pending, held, failures, data)
  }

  lemma {:induction false} StagedMatch(l: Ledger, free: seq<nat>, pending: seq<nat>, held: seq<nat>,
                                       failures: seq<Completion>, data: seq<nat>)
    requires Consistent(l, free, pending, held, failures, data)
    ensures |l.pending| == |pending| && |l.held| == |held| && l.failed == failures && l.Balanced()
  {
    CarriedSplit(pending, 0, data);
    CarriedSplit(held, 0, data);
  }

  lemma {:induction false} PlacesApart(free: seq<nat>, pending: seq<nat>, held: seq<nat>, depth: nat, b: nat)
    requires Partition(free, pending, held, depth)
    ensures |free| + |pending| + |held| == depth
    ensures b in free ==> b < depth && b !in pending && b !in held
    ensures b in pending ==> b < depth && b !in held
  {
    AllBlocksOnce(depth, b);
    assert |multiset(free) + multiset(pending) + multiset(held)| == depth;
    assert multiset(free)[b] + multiset(pending)[b] + multiset(held)[b] == AllBlocks(depth)[b];
    assert b in free <==> multiset(free)[b] > 0;
    assert b in pending <==> multiset(pending)[b] > 0;
    assert b in held <==> multiset(held)[b] > 0;
  }

  function Last(s: seq<nat>): nat
    requires s != []
  {
    s[|s| - 1]
  }

  function ButLast(s: seq<nat>): seq<nat>
    requires s != []
  {
    s[..|s| - 1]
  }

  lemma {:induction false} StagedBlock(l: Ledger, free: seq<nat>, pending: seq<nat>, held: seq<nat>,
                                       failures: seq<Completion>, data: seq<nat>, id: nat)
    requires Consistent(l, free, pending, held, failures, data) && free != []
    ensures Last(free) < |data|
    ensures Consistent(Stage(l, id), ButLast(free), pending + [Last(free)], held, failures, data[Last(free) := id])
  {
    StagedParts(free, pending, held, |data|);
    hide Last, ButLast, Partition, Accounted;
    StagedIds(l, pending, held, failures, data, id, Last(free));
  }

  lemma {:induction false} StagedParts(free: seq<nat>, pending: seq<nat>, held: seq<nat>, depth: nat)
    requires Partition(free, pending, held, depth) && free != []
    ensures Last(free) < depth && Last(free) !in pending && Last(free) !in held
    ensures Partition(ButLast(free), pending + [Last(free)], held, depth)
  {
    PlacesApart(free, pending, held, depth, Last(free));
    assert free == ButLast(free) + [Last(free)];
  }

  lemma {:induction false} StagedIds(l: Ledger, pending: seq<nat>, held: seq<nat>, failures: seq<Completion>,
                                     data: seq<nat>, id: nat, b: nat)
    requires Accounted(l, pending, held, failures, data) && b < |data| && b !in pending && b !in held
    ensures Accounted(Stage(l, id), pending + [b], held, failures, data[b := id])
  {
    StageBalanced(l, id);
    CarriedSame(pending, data, b, id);
    CarriedSame(held, data, b, id);
    CarriedConcat(pending, [b], data[b := id]);
    assert Carried([b], data[b := id]) == [id];
  }

  lemma {:induction false} IssuedBlocks(l: Ledger, free: seq<nat>, pending: seq<nat>, held: seq<nat>,
                                        failures: seq<Completion>, data: seq<nat>, n: nat)
    requires Consistent(l, free, pending, held, failures, data) && n <= |pending|
    ensures n <= |l.pending|
    ensures Consistent(Issue(l, n), free, After(pending, n), held + Upto(pending, n), failures, data)
  {
    assert pending == pending[..n] + pending[n..];
    CarriedSplit(pending, n, data);
    CarriedConcat(held, pending[..n], data);
    IssueBalanced(l, n);
  }

  lemma {:induction false} HeadCarried(pending: seq<nat>, data: seq<nat>)
    requires pending != []
    ensures Carried(pending, data) != [] && Carried(pending, data)[0] == IdOf(pending[0], data)
    ensures Carried(pending[1..], data) == Carried(pending, data)[1..]
  {
    CarriedSplit(pending, 1, data);
    assert Carried(pending[..1], data) == [IdOf(pending[0], data)] by { assert pending[..1] == [] + [pending[0]]; }
    assert Carried(pending, data)[0] == Carried(pending, data)[..1][0];
  }

  lemma {:induction false} RefusedIds(l: Ledger, pending: seq<nat>, held: seq<nat>, failures: seq<Completion>, data: seq<nat>, res: int)
    requires Accounted(l, pending, held, failures, data) && pending != [] && pending[0] < |data|
    ensures l.pending != []
    ensures Accounted(Refuse(l, res), After(pending, 1), held, failures + [Completion(data[pending[0]], res)], data)
  {
    HeadCarried(pending, data);
    hide Carried, Ids;
    RefuseBalanced(l, res);
  }

  lemma {:induction false} RefusedBlock(l: Ledger, free: seq<nat>, pending: seq<nat>, held: seq<nat>,
                                        failures: seq<Completion>, data: seq<nat>, res: int)
    requires Consistent(l, free, pending, held, failures, data) && pending != []
    ensures l.pending != [] && pending[0] < |data|
    ensures Consistent(Refuse(l, res), free + [pending[0]], After(pending, 1), held,
                       failures + [Completion(data[pending[0]], res)], data)
  {
    PlacesApart(free, pending, held, |data|, pending[0]);
    assert pending == [pending[0]] + After(pending, 1);
    hide Accounted, After;
    RefusedIds(l, pending, held, failures, data, res);
  }

  /** As Consistent, with some blocks on their way back from the kernel. */
  ghost predicate Returning(l: Ledger, free: seq<nat>, pending: seq<nat>, held: seq<nat>,
                            failures: seq<Completion>, data: seq<nat>, back: seq<nat>)
  {
    && multiset(free) + multiset(pending) + multiset(held) + multiset(back) == AllBlocks(|data|)
    && l.Balanced() && l.pending == Carried(pending, data) && l.failed == failures
    && l.held == multiset(Carried(held, data)) + multiset(Carried(back, data))
  }

  lemma {:induction false} NowReturning(l: Ledger, free: seq<nat>, pending: seq<nat>, before: seq<nat>,
                                        failures: seq<Completion>, data: seq<nat>, held: seq<nat>, back: seq<nat>)
    requires Consistent(l, free, pending, before, failures, data)
    requires multiset(held) + multiset(back) == multiset(before)
    ensures Returning(l, free, pending, held, failures, data, back)
  {
    ReturnedBlocks(before, held, back, data);
  }

  /** The kernel hands events back: its blocks are those it still has and those of the events. */
  lemma {:induction false} ReturnedBlocks(before: seq<nat>, held: seq<nat>, back: seq<nat>, data: seq<nat>)
    requires multiset(held) + multiset(back) == multiset(before)
    ensures multiset(Carried(before, data)) == multiset(Carried(held, data)) + multiset(Carried(back, data))
  {
    assert multiset(held + back) == multiset(before);
    CarriedReordered(before, held + back, data);
    CarriedConcat(held, back, data);
  }

  lemma {:induction false} AfterOne(s: seq<nat>)
    requires s != []
    ensures |After(s, 1)| == |s| - 1
  {
  }

  lemma {:induction false} IssueMore(l: Ledger, n: nat, m: nat)
    requires n <= |l.pending| && m <= |Issue(l, n).pending|
    ensures n + m <= |l.pending| && Issue(Issue(l, n), m) == Issue(l, n + m)
  {
    TakeMore(l.pending, n, m);
    hide After, Upto;
    assert l.issued + Upto(l.pending, n + m) == (l.issued + Upto(l.pending, n)) + Upto(After(l.pending, n), m);
    assert multiset(Upto(l.pending, n + m)) == multiset(Upto(l.pending, n)) + multiset(Upto(After(l.pending, n), m));
  }

  lemma {:induction false} TakeOne(s: seq<nat>, n: nat)
    requires n < |s|
    ensures Upto(s, n + 1) == Upto(s, n) + [After(s, n)[0]]
  {
  }

  lemma {:induction false} TakeMore(s: seq<nat>, n: nat, m: nat)
    requires n <= |s| && m <= |After(s, n)|
    ensures n + m <= |s|
    ensures Upto(s, n + m) == Upto(s, n) + Upto(After(s, n), m)
    ensures After(s, n + m) == After(After(s, n), m)
  {
  }

  lemma {:induction false} PrefixOfPrefix(s: seq<nat>, batch: nat, n: nat)
    requires n <= batch <= |s|
    ensures s[..batch][..n] == Upto(s, n)
  {
  }

  /** From l0, the kernel took the first n staged reads, and refused the next one if refused says so;
      counted is all of these. */
  ghost predicate Flushed(l0: Ledger, l: Ledger, counted: nat, n: nat, refused: seq<int>) {
    && n <= |l0.pending|
    && (refused == [] ==> l == Issue(l0, n) && counted == n)
    && (refused != [] ==> |refused| == 1 && n < |l0.pending| && l == Refuse(Issue(l0, n), refused[0]) && counted == n + 1)
  }

  /** The next `counted` reads of the stage order left the queue; the rest wait on, in that order. */
  ghost predicate InOrder(l0: Ledger, l: Ledger, counted: nat) {
    && l.Balanced() && l.Log() == l0.Log() && l.answered == l0.answered
    && counted <= |l0.pending| && l.issued == l0.issued + Upto(l0.pending, counted)
    && l.Outstanding() == l0.Outstanding() + counted
  }

  /** A flush keeps the stage order, and counts exactly the reads that left the queue. */
  lemma {:induction false} FlushedInOrder(l0: Ledger, l: Ledger, counted: nat, n: nat, refused: seq<int>)
    requires l0.Balanced() && Flushed(l0, l, counted, n, refused)
    ensures InOrder(l0, l, counted)
  {
    hide InOrder, Ledger.Balanced;
    if refused == [] { IssuedInOrder(l0, n); } else { RefusedInOrder(l0, n, refused[0]); }
  }

  lemma {:induction false} IssuedInOrder(l: Ledger, n: nat)
    requires l.Balanced() && n <= |l.pending|
    ensures InOrder(l, Issue(l, n), n)
  {
    IssueBalanced(l, n);
    hide Ledger.Balanced, Ledger.Log, Upto, After;
  }

  lemma {:induction false} RefusedInOrder(l: Ledger, n: nat, res: int)
    requires l.Balanced() && n < |l.pending|
    ensures InOrder(l, Refuse(Issue(l, n), res), n + 1)
  {
    var mid := Issue(l, n);
    IssueBalanced(l, n);
    RefuseBalanced(mid, res);
    TakeOne(l.pending, n);
    hide Ledger.Balanced, Ledger.Log, Upto, After;
    OneMoreIssued(l.issued, Upto(l.pending, n), After(l.pending, n)[0]);
  }

  lemma {:induction false} OneMoreIssued(issued: seq<nat>, some: seq<nat>, next: nat)
    ensures (issued + some) + [next] == issued + (some + [next])
  {
  }

  /** Why a flush stops with reads left: the kernel took none or may be asked again later, which defers;
      or it refused the head for good. */
  predicate Stops(stops: bool, deferred: bool, refused: seq<int>, answer: int) {
    && (stops <==> answer <= 0)
    && (deferred <==> stops && (answer == 0 || CanDefer(-answer)))
    && (refused == if answer < 0 && !CanDefer(-answer) then [answer] else [])
  }

  lemma {:induction false} FlushedNothing(l: Ledger)
    ensures Flushed(l, l, 0, 0, [])
  {
    NothingMoves(l);
  }

  lemma {:induction false} FlushedPrefix(l: Ledger, n: nat)
    requires n <= |l.pending|
    ensures Flushed(l, Issue(l, n), n, n, [])
  {
  }

  lemma {:induction false} FlushedRefusal(l: Ledger, res: int)
    requires l.pending != []
    ensures Flushed(l, Refuse(l, res), 1, 0, [res])
  {
    NothingMoves(l);
  }

  lemma {:induction false} FlushedMore(l0: Ledger, l1: Ledger, l2: Ledger, c1: nat, c2: nat, n1: nat, n2: nat, refused: seq<int>)
    requires Flushed(l0, l1, c1, n1, []) && Flushed(l1, l2, c2, n2, refused)
    ensures Flushed(l0, l2, c1 + c2, n1 + n2, refused)
  {
    IssueMore(l0, n1, n2);
  }

  /* ---- the context: how large a one the node grants ---- */

  /** The sizes tried: the one wanted, halved each time. */
  function Tried(wanted: nat, k: nat): nat {
    if k == 0 then wanted else Tried(wanted, k - 1) / 2
  }

  /** setup is what io_setup answers for a size: 0, or minus an errno. */
  ghost predicate Granted(wanted: nat, setup: int -> int, depth: nat) {
    depth >= 1 && exists k: nat :: Tried(wanted, k) == depth && setup(depth) == 0 &&
                                   forall j: nat :: j < k ==> setup(Tried(wanted, j)) == -EAGAIN
  }

  datatype Depth = Depth(events: nat) | Refused

  lemma {:induction false} TriedMonotone(wanted: nat, j: nat, k: nat)
    requires j <= k
    ensures Tried(wanted, k) <= Tried(wanted, j)
    ensures j < k && Tried(wanted, j) > 0 ==> Tried(wanted, k) < Tried(wanted, j)
  {
    if j < k { TriedMonotone(wanted, j, k - 1); }
  }

  lemma {:induction false} NotGranted(wanted: nat, setup: int -> int, k: nat)
    requires forall j: nat :: j < k ==> setup(Tried(wanted, j)) == -EAGAIN
    requires Tried(wanted, k) == 0 || (setup(Tried(wanted, k)) != 0 && setup(Tried(wanted, k)) != -EAGAIN)
    ensures forall d: nat :: !Granted(wanted, setup, d)
  {
    forall d: nat | Granted(wanted, setup, d)
      ensures false
    {
      var m: nat :| Tried(wanted, m) == d && setup(d) == 0 && forall j: nat :: j < m ==> setup(Tried(wanted, j)) == -EAGAIN;
      if m >= k { TriedMonotone(wanted, k, m); }
    }
  }

  /** setup_context: the first size, halving from the wanted one, that is not turned away for want of
      room. Any other error, a size of nothing, or running out of sizes, ends it. */
  method SetupContext(wanted: nat, setup: int -> int) returns (result: Depth)
    ensures result.Depth? ==> Granted(wanted, setup, result.events) && result.events <= wanted
    ensures result.Refused? ==> forall d: nat :: !Granted(wanted, setup, d)
  {
    ghost var k: nat := 0;
    var events := wanted;
    while events >= 1
      invariant events == Tried(wanted, k) <= wanted
      invariant forall j: nat :: j < k ==> setup(Tried(wanted, j)) == -EAGAIN
    {
      var ret := setup(events);
      if ret == 0 { return Depth(events); }
      if ret != -EAGAIN {
        NotGranted(wanted, setup, k);
        return Refused;
      }
      events := events / 2;
      k := k + 1;
    }
    NotGranted(wanted, setup, k);
    result := Refused;
  }

  lemma {:induction false} NoEvents(data: seq<nat>)
    ensures BlocksOf([]) == [] && Ids([]) == Carried([], data)
  {
  }

  lemma {:induction false} CollectedOne(out: seq<Completion>, events: seq<Event>, i: nat, data: seq<nat>)
    requires i < |events| && events[i].block < |data| && Ids(out) == Carried(BlocksOf(events[..i]), data)
    ensures
      var block := events[i].block;
      && BlocksOf(events[..i + 1]) == BlocksOf(events[..i]) + [block]
      && Ids(out + [Completion(data[block], events[i].res)]) == Carried(BlocksOf(events[..i + 1]), data)
  {
    BlocksHold(events, i);
    var completion := Completion(data[events[i].block], events[i].res);
    IdsAppend(out, [completion]);
    assert Ids([completion]) == [completion.id];
    CarriedConcat(BlocksOf(events[..i]), [events[i].block], data);
    assert Carried([events[i].block], data) == [completion.id];
  }

  class LibaioEngine {
    const depth: nat
    const kernel: AioContext
    var free: seq<nat>
    var pending: seq<nat>
    var failures: seq<Completion>
    var data: seq<nat>
    ghost var ledger: Ledger

    ghost predicate Valid()
      reads this, kernel
    {
      |data| == depth && Consistent(ledger, free, pending, kernel.held, failures, data)
    }

    constructor (granted: nat)
      ensures Valid() && depth == granted && |free| == granted && ledger == EMPTY
    {
      depth := granted;
      var context := new AioContext.Empty();
      kernel := context;
      free, pending, failures, data, ledger := seq(granted, i => i), [], [], seq(granted, _ => 0), EMPTY;
      new;
      assert free == FirstBlocks(granted);
    }

    /** No block is in two places, and together they are as many as the depth. */
    lemma BlocksConserved(b: nat)
      requires Valid()
      ensures |free| + |pending| + |kernel.held| == depth
      ensures b in free ==> b < depth && b !in pending && b !in kernel.held
      ensures b in pending ==> b < depth && b !in kernel.held
    {
      PlacesApart(free, pending, kernel.held, depth, b);
    }

    /** With no more staged and outstanding than the depth, there is a block for the next read. */
    lemma WindowLeavesBlock()
      requires Valid() && |pending| + ledger.Outstanding() < depth
      ensures free != []
    {
      BlocksConserved(0);
      StagedMatch(ledger, free, pending, kernel.held, failures, data);
      CountIsExact(ledger);
    }

    /** When the caller has nothing in flight the kernel holds no block: no destination can still be written. */
    lemma ZeroMeansFree()
      requires Valid() && ledger.Outstanding() == 0
      ensures kernel.held == [] && failures == []
    {
      StagedMatch(ledger, free, pending, kernel.held, failures, data);
      CountIsExact(ledger);
    }

    /** Stages a read on a free block; refuses only when there is none. The free block's is the only id
        written: never that of a block that waits here or that the kernel holds. */
    method Stage(id: nat) returns (code: Code)
      requires Valid()
      modifies this`free, this`pending, this`data, this`ledger
      ensures Valid()
      ensures code == if old(free) == [] then UnknownError else Success
      ensures old(free) == [] ==> ledger == old(ledger) && data == old(data)
      ensures old(free) != [] ==> ledger == IoLedger.Stage(old(ledger), id)
      ensures old(free) != [] ==> Last(old(free)) < |old(data)| && data == old(data)[Last(old(free)) := id]
    {
      if free == [] { return UnknownError; }
      StagedBlock(ledger, free, pending, kernel.held, failures, data, id);
      hide Consistent, IoLedger.Stage, Last, ButLast;
      var b := Last(free);
      free := ButLast(free);
      data := data[b := id];
      pending := pending + [b];
      ledger := IoLedger.Stage(ledger, id);
      code := Success;
    }

    /** One io_submit, and dropping the accepted prefix. */
    method SubmitBatch(batch: nat) returns (issued: int)
      requires Valid() && 0 < batch <= |pending|
      modifies this`pending, this`ledger, kernel`held, kernel`answers
      ensures Valid() && issued <= batch && kernel.answers == old(kernel.answers) + [issued]
      ensures issued < 0 ==> ledger == old(ledger) && pending == old(pending)
      ensures issued >= 0 ==> issued <= |old(ledger).pending| && ledger == Issue(old(ledger), issued)
      ensures issued >= 0 ==> |pending| == |old(pending)| - issued
    {
      hide Consistent, After, Upto, Issue;
      issued := kernel.Submit(pending[..batch]);
      if issued < 0 { return; }
      PrefixOfPrefix(pending, batch, issued);
      IssuedBlocks(ledger, free, pending, old(kernel.held), failures, data, issued);
      pending := After(pending, issued);
      ledger := Issue(ledger, issued);
    }

    /** The head of the queue is taken out and answered as a failed read; its block is free again. */
    method RefuseHead(ret: int)
      requires Valid() && pending != [] && ret < 0
      modifies this`pending, this`free, this`failures, this`ledger
      ensures Valid() && old(ledger).pending != [] && ledger == Refuse(old(ledger), ret)
      ensures |pending| == |old(pending)| - 1
    {
      RefusedBlock(ledger, free, pending, kernel.held, failures, data, ret);
      AfterOne(pending);
      hide Consistent, Refuse, After;
      var head := pending[0];
      failures, pending, free := failures + [Completion(data[head], ret)], After(pending, 1), free + [head];
      ledger := Refuse(ledger, ret);
    }

    /** One pass of flush's loop. */
    method OfferBatch() returns (counted: nat, again: bool, deferred: bool, ghost n: nat, ghost refused: seq<int>)
      requires Valid() && pending != []
      modifies this`pending, this`free, this`failures, this`ledger, kernel`held, kernel`answers
      ensures Valid() && Flushed(old(ledger), ledger, counted, n, refused)
      ensures |kernel.answers| > 0 && Stops(!again, deferred, refused, kernel.answers[|kernel.answers| - 1])
      ensures again ==> !deferred && refused == [] && |pending| < |old(pending)|
      ensures !again ==> deferred == (refused == []) && (deferred ==> |pending| == |old(pending)|)
      ensures |pending| <= |old(pending)|
    {
      StagedMatch(ledger, free, pending, kernel.held, failures, data);
      var batch := if |pending| < SUBMIT_BATCH then |pending| else SUBMIT_BATCH;
      hide *;
      FlushedNothing(ledger);
      counted, again, deferred, n, refused := 0, false, false, 0, [];
      var issued := SubmitBatch(batch);
      if issued < 0 {
        if CanDefer(-issued) {
          deferred := true;
        } else {
          FlushedRefusal(ledger, issued);
          RefuseHead(issued);
          refused := [issued];
          counted := 1;
        }
        return;
      }
      FlushedPrefix(old(ledger), issued);
      n, counted := issued, issued;
      again := issued > 0;
      deferred := !again;
    }

    /** Offers the staged reads, in the order they were staged. n of them the kernel took; at most one
        more was refused. All of these, and only these, are counted and will be answered. What is left
        staged was deferred, or stands behind a refused read. */
    method Flush() returns (outIssued: nat, outDeferred: bool, ghost n: nat, ghost refused: seq<int>)
      requires Valid()
      modifies this`pending, this`free, this`failures, this`ledger, kernel`held, kernel`answers
      ensures Valid() && Flushed(old(ledger), ledger, outIssued, n, refused)
      ensures pending != [] ==>
                |kernel.answers| > 0 && Stops(true, outDeferred, refused, kernel.answers[|kernel.answers| - 1])
      ensures outDeferred ==> pending != [] && refused == []
      ensures pending != [] ==> outDeferred || refused != []
    {
      hide *;
      outIssued, outDeferred, n, refused := 0, false, 0, [];
      FlushedNothing(ledger);
      var again := true;
      while again && pending != []
        invariant Valid() && Flushed(old(ledger), ledger, outIssued, n, refused)
        invariant again ==> refused == [] && !outDeferred
        invariant !again ==> if outDeferred then pending != [] && refused == [] else refused != []
        invariant !again ==> |kernel.answers| > 0 && Stops(true, outDeferred, refused, kernel.answers[|kernel.answers| - 1])
        decreases |pending|, again
      {
        ghost var l := ledger;
        var counted;
        ghost var m;
        counted, again, outDeferred, m, refused := OfferBatch();
        FlushedMore(old(ledger), l, ledger, outIssued, counted, n, m, refused);
        outIssued := outIssued + counted;
        n := n + m;
      }
    }

    /** Gives the caller what has ended: refused reads first, without waiting, else what the kernel has. */
    method WaitForCompletions(max: nat, mode: WaitMode) returns (code: Code, out: seq<Completion>)
      requires Valid()
      modifies this`free, this`failures, this`ledger, kernel`held, kernel`waits
      ensures Valid() && |out| <= max
      ensures kernel.waits == old(kernel.waits) + if max > 0 && old(failures) == [] then 1 else 0
      ensures old(failures) != [] ==> |out| == if max < |old(failures)| then max else |old(failures)|
      ensures code != Success ==> code == FsAsyncEngineError && out == []
      ensures old(failures) != [] ==> |out| <= |old(ledger).failed| && ledger == ReapFailed(old(ledger), |out|)
      ensures old(failures) == [] ==> multiset(Ids(out)) <= old(ledger).held && ledger == Reap(old(ledger), out)
      ensures ledger.answered == old(ledger).answered + out
    {
      out, code := [], Success;
      NothingMoves(ledger);
      StagedMatch(ledger, free, pending, kernel.held, failures, data);
      hide Consistent, Reap, ReapFailed;
      if max == 0 { return; }
      if failures != [] {
        out := TakeRefused(max);
      } else {
        code, out := TakeFinished(if max < depth then max else depth);
      }
    }

    method TakeRefused(max: nat) returns (out: seq<Completion>)
      requires Valid() && failures != [] && max > 0
      modifies this`failures, this`ledger
      ensures Valid() && |out| == (if max < |old(failures)| then max else |old(failures)|) && |out| <= |old(ledger).failed|
      ensures ledger == ReapFailed(old(ledger), |out|) && ledger.answered == old(ledger).answered + out
    {
      var taken := if max < |failures| then max else |failures|;
      out := failures[..taken];
      ReapFailedBalanced(ledger, taken);
      failures := failures[taken..];
      ledger := ReapFailed(ledger, taken);
    }

    /** io_getevents, and what its answer means. */
    method TakeFinished(nr: nat) returns (code: Code, out: seq<Completion>)
      requires Valid()
      modifies this`free, this`ledger, kernel`held, kernel`waits
      ensures Valid() && |out| <= nr && kernel.waits == old(kernel.waits) + 1
      ensures code != Success ==> code == FsAsyncEngineError && out == []
      ensures multiset(Ids(out)) <= old(ledger).held && ledger == Reap(old(ledger), out)
    {
      out, code := [], Success;
      NothingMoves(ledger);
      var ret, events := kernel.GetEvents(nr);
      if ret < 0 {
        if -ret != EINTR { code := FsAsyncEngineError; }
        return;
      }
      NowReturning(ledger, free, pending, old(kernel.held), failures, data, kernel.held, BlocksOf(events));
      hide Consistent, Returning, BlocksOf, Reap;
      out := Collect(events);
    }

    /** The loop over the events: each gives its block back, and its id and result to the caller. */
    method Collect(events: seq<Event>) returns (out: seq<Completion>)
      requires |data| == depth && Returning(ledger, free, pending, kernel.held, failures, data, BlocksOf(events))
      modifies this`free, this`ledger
      ensures Valid() && |out| == |events|
      ensures multiset(Ids(out)) <= old(ledger).held && ledger == Reap(old(ledger), out)
    {
      out := [];
      hide Ids, Carried, BlocksOf, AllBlocks;
      NoEvents(data);
      assert events[..0] == [] && free + [] == free;
      for i := 0 to |events|
        invariant |out| == i && free == old(free) + BlocksOf(events[..i]) && ledger == old(ledger)
        invariant Ids(out) == Carried(BlocksOf(events[..i]), data)
      {
        var event := events[i];
        BlockOwned(events, i);
        CollectedOne(out, events, i, data);
        out := out + [Completion(data[event.block], event.res)];
        free := free + [event.block];
      }
      assert events[..|events|] == events;
      ReapBalanced(ledger, out);
      ledger := Reap(ledger, out);
    }

    /** The assertion in the source: an event's block is one of ours. */
    lemma BlockOwned(events: seq<Event>, i: nat)
      requires i < |events| && multiset(BlocksOf(events)) <= AllBlocks(depth)
      ensures events[i].block < depth
    {
      BlocksHold(events, i);
      AllBlocksOnce(depth, events[i].block);
      assert multiset(BlocksOf(events))[events[i].block] > 0;
    }
  }
}
