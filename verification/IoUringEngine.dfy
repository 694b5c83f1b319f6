/** The io_uring engine (posix_io/io_uring_engine): a submission ring it counts but cannot see into, a
    completion ring the kernel fills, and a table of registered regions. */
module IoUringEngines {
  import opened IoLedger

  const ETIME: int := 62

  const MAX_REGISTERED_REGIONS: nat := 1024

  datatype RegionState = Unknown | Registered | Refused

  /** Memory offered with a read; id -1 is none. */
  datatype Registration = Registration(id: int, base: nat, bytesize: nat) {
    predicate Offered() { id >= 0 }

    predicate Holds(buffer: nat, size: nat) { base <= buffer && buffer + size <= base + bytesize }
  }

  /** What io_uring_submit did: nothing on failure, else it took the prefix it says; unless it says more than
      there was, when all that is known is that it took no more than that. */
  ghost predicate Took(ret: int, prepared: seq<nat>, running: seq<nat>, left: seq<nat>, taken: seq<nat>) {
    && |taken| + |left| == |running| + |prepared|
    && (ret < 0 ==> left == prepared && taken == running)
    && (0 <= ret <= |prepared| ==> left == After(prepared, ret) && taken == running + Upto(prepared, ret))
  }

  /** How many reads a submit's answer is counted as, when `staged` were offered. */
  function CountedAs(ret: int, staged: nat): nat {
    if ret < 0 then 0 else if ret > staged then staged else ret
  }

  /** The ring: prepared entries, reads the kernel works on, completions not yet taken, and how many
      completions it had to drop because the completion ring, twice the submission ring, was full. */
  class Ring {
    const entries: nat
    var prepared: seq<nat>
    var running: seq<nat>
    var completed: seq<Completion>
    var dropped: nat
    var table: bool
    var slots: set<nat>
    ghost var asked: seq<nat>

    /** What io_uring_submit has answered so far. */
    ghost var answers: seq<int>

    constructor (granted: nat)
      ensures entries == granted && prepared == [] && running == [] && completed == [] && dropped == 0
      ensures !table && slots == {} && asked == [] && answers == []
    {
      entries, prepared, running, completed, dropped := granted, [], [], [], 0;
      table, slots, asked, answers := false, {}, [], [];
    }

    /** The kernel holds a read until its completion has been taken. */
    ghost function Held(): multiset<nat>
      reads this
    {
      multiset(running) + multiset(Ids(completed))
    }

    /** Reads end in any order, with any result, at any moment. */
    method Progress()
      modifies this`running, this`completed, this`dropped
      ensures |running| + |completed| + dropped == old(|running| + |completed| + dropped)
      ensures dropped >= old(dropped)
      ensures old(|running| + |completed|) <= 2 * entries ==> dropped == old(dropped) && Held() == old(Held())
      ensures old(completed) <= completed
    {
      var more: nat := *;
      while more > 0 && running != []
        invariant |running| + |completed| + dropped == old(|running| + |completed| + dropped)
        invariant dropped >= old(dropped)
        invariant old(|running| + |completed|) <= 2 * entries ==>
                    |running| + |completed| <= 2 * entries && dropped == old(dropped) && Held() == old(Held())
        invariant old(completed) <= completed
      {
        CompleteOne();
        more := more - 1;
      }
    }

    method CompleteOne()
      requires running != []
      modifies this`running, this`completed, this`dropped
      ensures |running| + |completed| + dropped == old(|running| + |completed| + dropped)
      ensures dropped >= old(dropped)
      ensures old(|running| + |completed|) <= 2 * entries ==> dropped == old(dropped) && Held() == old(Held())
      ensures old(completed) <= completed
    {
      var i: nat :| i < |running|;
      var res: int := *;
      Removed(running, i);
      IdsOne(completed, Completion(running[i], res));
      if |completed| < 2 * entries {
        completed := completed + [Completion(running[i], res)];
      } else {
        dropped := dropped + 1;
      }
      running := running[..i] + running[i + 1..];
    }

    /** io_uring_submit: takes a prefix of the prepared entries and says how many, or fails. A kernel that
        breaks its contract may say more than it was offered; it cannot have taken more. */
    method Submit() returns (ret: int)
      modifies this`prepared, this`running, this`answers
      ensures answers == old(answers) + [ret]
      ensures Took(ret, old(prepared), old(running), prepared, running)
    {
      ret :| true;
      answers := answers + [ret];
      if ret < 0 { return; }
      var n: nat := *;
      if ret <= |prepared| || n > |prepared| { n := if ret <= |prepared| then ret else |prepared|; }
      running := running + Upto(prepared, n);
      prepared := After(prepared, n);
    }

    /** Asked once whether it can have a table at all. */
    method RegisterSparse() returns (ret: int)
      requires !table
      modifies this`table
      ensures table == (ret >= 0)
    {
      ret :| true;
      table := ret >= 0;
    }

    /** io_uring_cq_advance: the first n completions have been taken. */
    method Advance(n: nat)
      requires n <= |completed|
      modifies this`completed
      ensures completed == After(old(completed), n)
    {
      completed := After(completed, n);
    }

    method RegisterRegion(id: nat) returns (ret: int)
      requires table
      modifies this`slots, this`asked
      ensures slots == if ret >= 0 then old(slots) + {id} else old(slots)
      ensures asked == old(asked) + [id]
    {
      ret :| true;
      if ret >= 0 { slots := slots + {id}; }
      asked := asked + [id];
    }
  }

  /** The first n completions are reaped from the ring; the kernel holds that much less. */
  lemma {:induction false} TakenFrom(running: seq<nat>, completed: seq<Completion>, n: nat)
    requires n <= |completed|
    ensures
      var before, after := multiset(running) + multiset(Ids(completed)), multiset(running) + multiset(Ids(After(completed, n)));
      multiset(Ids(Upto(completed, n))) <= before && after == before - multiset(Ids(Upto(completed, n)))
  {
    assert completed == Upto(completed, n) + After(completed, n);
    IdsAppend(Upto(completed, n), After(completed, n));
  }

  /** The table of regions: what the engine remembers of a region is what the kernel said, and it said so
      once. */
  ghost predicate Remembered(regions: seq<RegionState>, slots: set<nat>, asked: seq<nat>) {
    && (forall id :: 0 <= id < |regions| && regions[id].Registered? ==> id in slots)
    && (forall k :: 0 <= k < |asked| ==> asked[k] < |regions| && !regions[asked[k]].Unknown?)
    && (forall k, l :: 0 <= k < l < |asked| ==> asked[k] != asked[l])
  }

  lemma {:induction false} RememberUnknown(regions: seq<RegionState>, slots: set<nat>, asked: seq<nat>, more: nat)
    requires Remembered(regions, slots, asked)
    ensures Remembered(regions + seq(more, _ => Unknown), slots, asked)
  {
  }

  lemma {:induction false} RegisteredInTable(regions: seq<RegionState>, slots: set<nat>, asked: seq<nat>, id: nat)
    requires Remembered(regions, slots, asked) && id < |regions| && regions[id].Registered?
    ensures id in slots
  {
  }

  lemma {:induction false} RememberAnswer(regions: seq<RegionState>, slots: set<nat>, asked: seq<nat>, id: nat, granted: bool)
    requires Remembered(regions, slots, asked) && id < |regions| && regions[id].Unknown?
    ensures
      var state, after := if granted then Registered else Refused, if granted then slots + {id} else slots;
      Remembered(regions[id := state], after, asked + [id])
  {
  }

  /** The caller's count is never below what the kernel holds. With an honest kernel and the window kept
      it is exact, and no completion has been dropped. */
  ghost predicate Tracks(l: Ledger, prepared: seq<nat>, running: seq<nat>, completed: seq<Completion>, dropped: nat,
                         depth: nat, staged: nat, windowKept: bool, broken: bool)
  {
    && |running| + |completed| <= l.Outstanding() && l.failed == []
    && (!broken ==> staged == |prepared| == |l.pending| && staged <= depth && l.pending == prepared)
    && (windowKept && !broken ==>
          && |l.pending| + l.Outstanding() <= depth && dropped == 0
          && l.Balanced() && l.held == multiset(running) + multiset(Ids(completed)))
  }

  lemma {:induction false} TracksStage(l: Ledger, prepared: seq<nat>, running: seq<nat>, completed: seq<Completion>, dropped: nat,
                                       depth: nat, windowKept: bool, id: nat)
    requires Tracks(l, prepared, running, completed, dropped, depth, |prepared|, windowKept, false) && |prepared| < depth
    ensures Tracks(Stage(l, id), prepared + [id], running, completed, dropped, depth, |prepared| + 1,
                   windowKept && |l.pending| + l.Outstanding() < depth, false)
  {
    if l.Balanced() { StageBalanced(l, id); }
  }

  lemma {:induction false} TracksSubmit(l: Ledger, prepared: seq<nat>, running: seq<nat>, completed: seq<Completion>, dropped: nat,
                                        depth: nat, windowKept: bool, n: nat)
    requires Tracks(l, prepared, running, completed, dropped, depth, |prepared|, windowKept, false) && n <= |prepared|
    ensures n <= |l.pending|
    ensures Tracks(Issue(l, n), After(prepared, n), running + Upto(prepared, n), completed, dropped, depth,
                   |prepared| - n, windowKept, false)
  {
    if l.Balanced() { IssueBalanced(l, n); }
    hide Upto, After;
  }

  lemma {:induction false} TracksBroken(l: Ledger, prepared: seq<nat>, running: seq<nat>, completed: seq<Completion>, dropped: nat,
                                        depth: nat, windowKept: bool, left: seq<nat>, taken: seq<nat>)
    requires Tracks(l, prepared, running, completed, dropped, depth, |prepared|, windowKept, false)
    requires |taken| + |left| == |running| + |prepared|
    ensures |prepared| == |l.pending|
    ensures Tracks(Issue(l, |prepared|), left, taken, completed, dropped, depth, 0, windowKept, true)
  {
  }

  lemma {:induction false} TracksAnswer(l: Ledger, prepared: seq<nat>, running: seq<nat>, completed: seq<Completion>, dropped: nat,
                                        depth: nat, windowKept: bool, ret: int, left: seq<nat>, taken: seq<nat>)
    requires Tracks(l, prepared, running, completed, dropped, depth, |prepared|, windowKept, false)
    requires Took(ret, prepared, running, left, taken)
    ensures |l.pending| == |prepared|
    ensures
      var issued, over := CountedAs(ret, |prepared|), ret > |prepared|;
      && Tracks(Issue(l, issued), left, taken, completed, dropped, depth, if over then 0 else |prepared| - issued, windowKept, over)
      && |Issue(l, issued).pending| == |prepared| - issued
  {
    var issued := CountedAs(ret, |prepared|);
    assert |prepared| == |l.pending|;
    IssueCounts(l, issued);
    if ret > |prepared| {
      TracksBroken(l, prepared, running, completed, dropped, depth, windowKept, left, taken);
    } else if ret >= 0 {
      TracksSubmit(l, prepared, running, completed, dropped, depth, windowKept, ret);
    } else {
      NothingMoves(l);
    }
    hide Tracks, Issue;
  }

  lemma {:induction false} TracksProgress(l: Ledger, prepared: seq<nat>, running: seq<nat>, completed: seq<Completion>, dropped: nat,
                                          depth: nat, staged: nat, windowKept: bool, broken: bool,
                                          running': seq<nat>, completed': seq<Completion>, dropped': nat)
    requires Tracks(l, prepared, running, completed, dropped, depth, staged, windowKept, broken)
    requires |running'| + |completed'| + dropped' == |running| + |completed| + dropped && dropped' >= dropped
    requires |running| + |completed| <= 2 * depth ==>
               dropped' == dropped && multiset(running') + multiset(Ids(completed')) == multiset(running) + multiset(Ids(completed))
    ensures Tracks(l, prepared, running', completed', dropped', depth, staged, windowKept, broken)
  {
  }

  lemma {:induction false} TracksReap(l: Ledger, prepared: seq<nat>, running: seq<nat>, completed: seq<Completion>, dropped: nat,
                                      depth: nat, staged: nat, windowKept: bool, broken: bool, n: nat)
    requires Tracks(l, prepared, running, completed, dropped, depth, staged, windowKept, broken) && n <= |completed|
    ensures Tracks(Reap(l, Upto(completed, n)), prepared, running, After(completed, n), dropped, depth, staged, windowKept, broken)
    ensures windowKept && !broken ==> multiset(Ids(Upto(completed, n))) <= l.held && dropped == 0
  {
    TakenFrom(running, completed, n);
    hide Upto, After;
    if windowKept && !broken { ReapBalanced(l, Upto(completed, n)); }
  }

  lemma {:induction false} IssueCounts(l: Ledger, n: nat)
    requires n <= |l.pending|
    ensures |Issue(l, n).pending| == |l.pending| - n
  {
  }

  /** What a flush makes of io_uring_submit's answer when `staged` reads were offered. */
  predicate Reported(answer: int, staged: nat, code: Code, issued: nat, deferred: bool) {
    if answer < 0 then
      issued == 0 && deferred == CanDefer(-answer) && code == if deferred then Success else FsAsyncEngineError
    else if answer > staged then
      issued == staged && !deferred && code == FsAsyncEngineError
    else
      issued == answer && deferred == (answer < staged) && code == Success
  }

  class IoUringEngine {
    const depth: nat
    const ring: Ring
    var staged: nat
    var regions: seq<RegionState>
    var table: bool
    var fixedBuffers: bool
    var overTableReads: nat
    var overflowReported: nat

    /** The caller has never had more staged and outstanding than the depth. */
    ghost var windowKept: bool
    /** A submit said more than it was offered, and the engine has ended. */
    ghost var broken: bool
    ghost var ledger: Ledger

    ghost predicate Valid()
      reads this, ring
    {
      && ring.entries == depth && table == ring.table
      && Remembered(regions, ring.slots, ring.asked)
      && Tracks(ledger, ring.prepared, ring.running, ring.completed, ring.dropped, depth, staged, windowKept, broken)
    }

    constructor (granted: nat, registers: bool)
      ensures Valid() && depth == granted && windowKept && !broken && ledger == EMPTY
    {
      depth := granted;
      ring := new Ring(granted);
      staged, regions, table, fixedBuffers, overTableReads, overflowReported := 0, [], false, registers, 0, 0;
      windowKept, broken, ledger := true, false, EMPTY;
    }

    /** The kernel has this region. */
    predicate Holding(id: int)
      reads this
    {
      0 <= id < |regions| && id < MAX_REGISTERED_REGIONS && regions[id].Registered?
    }

    /** Room to remember this region, nothing of which is known if it is new. */
    method Remember(id: nat)
      requires Valid()
      modifies this`regions
      ensures Valid() && id < |regions| && old(regions) <= regions
      ensures old(Holding(id)) == Holding(id)
    {
      hide Remembered, Tracks;
      if |regions| > id { return; }
      RememberUnknown(regions, ring.slots, ring.asked, id + 1 - |regions|);
      regions := regions + seq(id + 1 - |regions|, _ => Unknown);
    }

    /** registered_index: the region's index if the kernel has it, else -1. A region is asked for at most
        once, whatever the answer; a ring that cannot have a table is never asked for one again. */
    method RegisteredIndex(registration: Registration) returns (index: int)
      requires Valid()
      modifies this`regions, this`table, this`fixedBuffers, this`overTableReads, ring`table, ring`slots, ring`asked
      ensures Valid()
      ensures index == -1 || (index == registration.id && registration.id in ring.slots)
      ensures index >= 0 <==> old(fixedBuffers) && Holding(registration.id)
      ensures !registration.Offered() || !old(fixedBuffers) || registration.id >= MAX_REGISTERED_REGIONS ==>
                index == -1 && regions == old(regions) && ring.asked == old(ring.asked)
      ensures overTableReads == old(overTableReads) +
                if registration.Offered() && old(fixedBuffers) && registration.id >= MAX_REGISTERED_REGIONS then 1 else 0
      ensures old(fixedBuffers) && !fixedBuffers ==> index == -1 && ring.asked == old(ring.asked)
    {
      if !registration.Offered() || !fixedBuffers { return -1; }
      if registration.id >= MAX_REGISTERED_REGIONS {
        overTableReads := overTableReads + 1;
        return -1;
      }
      hide Remembered, Tracks;
      Remember(registration.id);
      if regions[registration.id].Registered? {
        RegisteredInTable(regions, ring.slots, ring.asked, registration.id);
        return registration.id;
      }
      if regions[registration.id].Refused? { return -1; }
      index := Ask(registration.id);
    }

    /** The first request for a region: the table, if the ring has none yet, and then the region. */
    method Ask(id: nat) returns (index: int)
      requires Valid() && fixedBuffers && id < |regions| && id < MAX_REGISTERED_REGIONS && regions[id].Unknown?
      modifies this`regions, this`table, this`fixedBuffers, ring`table, ring`slots, ring`asked
      ensures Valid()
      ensures index == -1 || (index == id && id in ring.slots)
      ensures index >= 0 <==> Holding(id)
      ensures !fixedBuffers ==> index == -1 && ring.asked == old(ring.asked)
    {
      hide Remembered, Tracks;
      if !table {
        var ret := ring.RegisterSparse();
        if ret < 0 {
          fixedBuffers := false;
          return -1;
        }
        table := true;
      }
      var ret := ring.RegisterRegion(id);
      RememberAnswer(regions, old(ring.slots), old(ring.asked), id, ret >= 0);
      regions := regions[id := if ret < 0 then Refused else Registered];
      index := if ret < 0 then -1 else id;
    }

    /** Stages a read on a prepared entry; refuses only when the submission ring is full. It is a fixed
        read only into memory the kernel has registered, and then the whole read lies inside it. */
    method Stage(id: nat, buffer: nat, bytesize: nat, registration: Registration) returns (code: Code, index: int)
      requires Valid() && !broken
      modifies this`staged, this`regions, this`table, this`fixedBuffers, this`overTableReads, this`windowKept, this`ledger
      modifies ring`table, ring`slots, ring`asked, ring`prepared
      ensures Valid()
      ensures code == if old(|ledger.pending|) == depth then UnknownError else Success
      ensures ledger == if code == Success then IoLedger.Stage(old(ledger), id) else old(ledger)
      ensures windowKept == (old(windowKept) && (code == Success ==> old(|ledger.pending| + ledger.Outstanding()) < depth))
      ensures index >= 0 <==> registration.Holds(buffer, bytesize) && old(fixedBuffers) && Holding(registration.id)
      ensures index >= 0 ==> registration.id == index && registration.id in ring.slots
    {
      index := -1;
      if registration.Offered() && registration.Holds(buffer, bytesize) {
        index := RegisteredIndex(registration);
      }
      if |ring.prepared| == ring.entries { return UnknownError, index; }
      Prepare(id);
      code := Success;
    }

    method Prepare(id: nat)
      requires Valid() && !broken && |ring.prepared| < ring.entries
      modifies this`staged, this`windowKept, this`ledger, ring`prepared
      ensures Valid() && ledger == IoLedger.Stage(old(ledger), id)
      ensures windowKept == (old(windowKept) && old(|ledger.pending| + ledger.Outstanding()) < depth)
    {
      TracksStage(ledger, ring.prepared, ring.running, ring.completed, ring.dropped, depth, windowKept, id);
      PendingCounted();
      hide Remembered, Tracks, IoLedger.Stage;
      ring.prepared := ring.prepared + [id];
      staged := staged + 1;
      windowKept := windowKept && |ledger.pending| + ledger.Outstanding() < depth;
      ledger := IoLedger.Stage(ledger, id);
    }

    /** With the window kept there is always an entry for the next read the window allows. */
    lemma WindowLeavesEntry()
      requires Valid() && !broken && |ledger.pending| + ledger.Outstanding() < depth
      ensures |ring.prepared| < ring.entries
    {
    }

    /** When the caller has nothing in flight the kernel holds nothing - even if the kernel broke its word
        or dropped completions. */
    lemma ZeroMeansFree()
      requires Valid() && ledger.Outstanding() == 0
      ensures ring.running == [] && ring.completed == []
    {
    }

    lemma PendingCounted()
      requires Valid() && !broken
      ensures staged == |ring.prepared| == |ledger.pending|
    {
    }

    /** Offers everything staged, once. What it reports is what left the queue; a refusal of some or all
        of it is a deferral; an error, or a count that cannot be true, ends the engine. */
    method Flush() returns (code: Code, outIssued: nat, outDeferred: bool)
      requires Valid() && !broken
      modifies this`staged, this`ledger, this`broken, ring`prepared, ring`running, ring`answers
      ensures Valid()
      ensures |ring.answers| == |old(ring.answers)| + if old(ledger).pending == [] then 0 else 1
      ensures old(ledger).pending != [] ==>
                Reported(ring.answers[|ring.answers| - 1], |old(ledger).pending|, code, outIssued, outDeferred)
      ensures outIssued <= |old(ledger).pending| && ledger == Issue(old(ledger), outIssued)
      ensures code == Success ==> !broken && (outDeferred <==> ledger.pending != [])
      ensures code != Success ==> code == FsAsyncEngineError && !outDeferred
      ensures code != Success && !broken ==> outIssued == 0
      ensures broken ==> outIssued == |old(ledger).pending|
    {
      code, outIssued, outDeferred := Success, 0, false;
      NothingMoves(ledger);
      PendingCounted();
      hide Remembered, Tracks, Issue;
      if staged == 0 { return; }
      var ret, over;
      ret, outIssued, over := SubmitStaged();
      if ret < 0 {
        if CanDefer(-ret) {
          outDeferred := true;
        } else {
          code := FsAsyncEngineError;
        }
      } else if over {
        code := FsAsyncEngineError;
      } else {
        outDeferred := staged != 0;
      }
    }

    /** io_uring_submit, and the count that follows from it: never more than was offered. */
    method SubmitStaged() returns (ret: int, issued: nat, over: bool)
      requires Valid() && !broken
      modifies this`staged, this`ledger, this`broken, ring`prepared, ring`running, ring`answers
      ensures Valid() && ring.answers == old(ring.answers) + [ret]
      ensures issued == CountedAs(ret, |old(ledger).pending|) && ledger == Issue(old(ledger), issued)
      ensures broken == over && (over <==> ret > |old(ledger).pending|)
      ensures !broken ==> staged == |ledger.pending|
    {
      PendingCounted();
      ret := ring.Submit();
      TracksAnswer(ledger, old(ring.prepared), old(ring.running), ring.completed, ring.dropped, depth, windowKept, ret,
                   ring.prepared, ring.running);
      hide Remembered, Tracks, Issue, Took;
      issued, over := CountedAs(ret, staged), ret > staged;
      ledger := Issue(ledger, issued);
      broken := over;
      staged := if over then 0 else staged - issued;
    }

    /** Waits if asked to, then takes whatever is ready, at most max. Taking them is what lowers the
        caller's count, and nothing else does. */
    method WaitForCompletions(max: nat, mode: WaitMode) returns (code: Code, out: seq<Completion>)
      requires Valid()
      modifies this`ledger, this`overflowReported, ring`running, ring`completed, ring`dropped
      ensures Valid() && |out| <= max
      ensures code == Success || (code == FsAsyncEngineError && mode == Block && out == [])
      ensures ledger == Reap(old(ledger), out)
      ensures code == Success ==> |out| == max || ring.completed == []
      ensures windowKept && !broken ==> multiset(Ids(out)) <= old(ledger).held && overflowReported == old(overflowReported)
    {
      out, code := [], Success;
      NothingMoves(ledger);
      ring.Progress();
      TracksProgress(ledger, ring.prepared, old(ring.running), old(ring.completed), old(ring.dropped), depth, staged,
                     windowKept, broken, ring.running, ring.completed, ring.dropped);
      hide Tracks, Remembered, Reap, Ring.Held;
      if mode == Block {
        var ret: int := *;
        if ret < 0 && -ret != ETIME && -ret != EINTR && -ret != EAGAIN {
          return FsAsyncEngineError, [];
        }
      }
      out := Harvest(max);
    }

    /** Takes what is ready, at most max, from the completion ring. */
    method Harvest(max: nat) returns (out: seq<Completion>)
      requires Valid()
      modifies this`ledger, this`overflowReported, ring`completed
      ensures Valid() && |out| <= max && ledger == Reap(old(ledger), out)
      ensures |out| <= |old(ring.completed)| && out == Upto(old(ring.completed), |out|)
      ensures |out| == max || ring.completed == []
      ensures windowKept && !broken ==> multiset(Ids(out)) <= old(ledger).held && overflowReported == old(overflowReported)
    {
      hide Remembered, Tracks, Reap;
      out := [];
      var head := 0;
      while head < |ring.completed| && |out| != max
        invariant head == |out| <= max && head <= |ring.completed| && out == Upto(ring.completed, head)
      {
        out := out + [ring.completed[head]];
        head := head + 1;
      }
      TracksReap(ledger, ring.prepared, ring.running, ring.completed, ring.dropped, depth, staged, windowKept, broken, |out|);
      hide Upto, After;
      ring.Advance(|out|);
      ledger := Reap(ledger, out);
      if ring.dropped > overflowReported { overflowReported := ring.dropped; }
    }
  }
}
