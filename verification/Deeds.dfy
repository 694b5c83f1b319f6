/** What a reader of one file does that others can see, in the order it does it: it writes bytes of the file
    into memory, and tells the requests of its tasks how they ended. */
module Deeds {
  import opened ReadTypes
  import opened Responses

  /** A memory says, for an address, which byte of the file is there. */
  type Memory = map<nat, nat>

  ghost predicate Copied(memory: Memory, offset: nat, size: nat, dst: nat) {
    forall a :: dst <= a < dst + size ==> a in memory && memory[a] == offset + (a - dst)
  }

  /** Nothing changed outside [dst, dst + size). */
  ghost predicate Elsewhere(before: Memory, after: Memory, dst: nat, size: nat) {
    forall a :: !(dst <= a < dst + size) ==> (a in before <==> a in after) && (a in before ==> before[a] == after[a])
  }

  function Write(memory: Memory, offset: nat, size: nat, dst: nat): (after: Memory)
    ensures Copied(after, offset, size, dst) && Elsewhere(memory, after, dst, size)
  {
    if size == 0 then memory else Write(memory, offset, size - 1, dst)[dst + size - 1 := offset + size - 1]
  }

  datatype Deed = Wrote(dst: nat, size: nat) | Told(task: nat, code: Code)
  {
    predicate WritesTo(a: int) { Wrote? && dst <= a < dst + size }
  }

  /** Where the bytes of a batch belong: the one at `start` at `dst`, and so on in step. */
  datatype Span = Span(start: nat, dst: nat, size: nat) {
    predicate Holds(d: Deed) { d.Wrote? ==> dst <= d.dst && d.dst + d.size <= dst + size }
  }

  ghost predicate Covers(deeds: seq<Deed>, a: int) {
    exists j :: 0 <= j < |deeds| && deeds[j].WritesTo(a)
  }

  ghost predicate CoversRange(deeds: seq<Deed>, dst: nat, size: nat) {
    forall a :: dst <= a < dst + size ==> Covers(deeds, a)
  }

  /** What the deeds tell, in order. */
  function Tells(deeds: seq<Deed>): seq<Finish> {
    if deeds == [] then []
    else
      var d := deeds[|deeds| - 1];
      Tells(deeds[..|deeds| - 1]) + if d.Told? then [Finish(d.task, d.code)] else []
  }

  /** A write brings the bytes that belong where it writes. */
  function After(memory: Memory, d: Deed, span: Span): Memory {
    if d.Wrote? && span.dst <= d.dst then Write(memory, span.start + (d.dst - span.dst), d.size, d.dst) else memory
  }

  /** The memory the deeds make of one. */
  function Replay(memory: Memory, deeds: seq<Deed>, span: Span): Memory {
    if deeds == [] then memory else After(Replay(memory, deeds[..|deeds| - 1], span), deeds[|deeds| - 1], span)
  }

  /** A task is told Success only after every one of its bytes was written. */
  ghost predicate MayFollow(d: Deed, tasks: seq<Task>, span: Span, before: seq<Deed>) {
    && span.Holds(d)
    && (d.Told? && d.code.Success? ==> d.task < |tasks| && CoversRange(before, tasks[d.task].Destination(), tasks[d.task].info.size))
  }

  /** No deed writes outside the span, and none tells of bytes that were not written. */
  ghost predicate Sound(tasks: seq<Task>, span: Span, deeds: seq<Deed>) {
    deeds == [] ||
    (Sound(tasks, span, deeds[..|deeds| - 1]) && MayFollow(deeds[|deeds| - 1], tasks, span, deeds[..|deeds| - 1]))
  }

  lemma {:induction false} OneMoreDeed(tasks: seq<Task>, span: Span, deeds: seq<Deed>, d: Deed)
    requires Sound(tasks, span, deeds) && MayFollow(d, tasks, span, deeds)
    ensures Sound(tasks, span, deeds + [d])
    ensures Tells(deeds + [d]) == Tells(deeds) + if d.Told? then [Finish(d.task, d.code)] else []
  {
    assert (deeds + [d])[..|deeds|] == deeds;
  }

  lemma {:induction false} ReplayOne(memory: Memory, deeds: seq<Deed>, span: Span, d: Deed)
    ensures Replay(memory, deeds + [d], span) == After(Replay(memory, deeds, span), d, span)
  {
    assert (deeds + [d])[..|deeds|] == deeds;
    hide After;
  }

  lemma {:induction false} CoversMore(deeds: seq<Deed>, more: seq<Deed>, dst: nat, size: nat)
    requires CoversRange(deeds, dst, size)
    ensures CoversRange(deeds + more, dst, size)
  {
    forall a | dst <= a < dst + size
      ensures Covers(deeds + more, a)
    {
      CoveredStill(deeds, more, a);
    }
  }

  lemma {:induction false} CoveredStill(deeds: seq<Deed>, more: seq<Deed>, a: int)
    requires Covers(deeds, a) || Covers(more, a)
    ensures Covers(deeds + more, a)
  {
    if Covers(deeds, a) {
      var j :| 0 <= j < |deeds| && deeds[j].WritesTo(a);
      assert (deeds + more)[j].WritesTo(a);
    } else {
      var j :| 0 <= j < |more| && more[j].WritesTo(a);
      assert (deeds + more)[|deeds| + j].WritesTo(a);
    }
  }

  lemma {:induction false} CoversLess(deeds: seq<Deed>, dst: nat, size: nat, inner: nat, n: nat)
    requires CoversRange(deeds, dst, size) && dst <= inner && inner + n <= dst + size
    ensures CoversRange(deeds, inner, n)
  {
  }

  lemma {:induction false} CoversNext(deeds: seq<Deed>, dst: nat, size: nat, got: nat)
    requires CoversRange(deeds, dst, size)
    ensures CoversRange(deeds + [Wrote(dst + size, got)], dst, size + got)
  {
    var after := deeds + [Wrote(dst + size, got)];
    CoversMore(deeds, [Wrote(dst + size, got)], dst, size);
    forall a | dst <= a < dst + size + got
      ensures Covers(after, a)
    {
      if a >= dst + size { assert after[|deeds|].WritesTo(a); }
    }
  }

  lemma {:induction false} CoversAll(deeds: seq<Deed>, dst: nat, size: nat)
    ensures CoversRange(deeds + [Wrote(dst, size)], dst, size)
  {
    forall a | dst <= a < dst + size
      ensures Covers(deeds + [Wrote(dst, size)], a)
    {
      assert (deeds + [Wrote(dst, size)])[|deeds|].WritesTo(a);
    }
  }

  /** Only writes, and all within the span. */
  ghost predicate Written(deeds: seq<Deed>, span: Span) {
    forall j :: 0 <= j < |deeds| ==> deeds[j].Wrote? && span.Holds(deeds[j])
  }

  /** The memory after some writes is that of all of them. */
  lemma {:induction false} ReplayMore(memory: Memory, deeds: seq<Deed>, more: seq<Deed>, span: Span)
    ensures Replay(memory, deeds + more, span) == Replay(Replay(memory, deeds, span), more, span)
  {
    if more == [] {
      assert deeds + more == deeds;
    } else {
      hide *;
      var n := |more| - 1;
      assert deeds + more == (deeds + more[..n]) + [more[n]];
      assert more == more[..n] + [more[n]];
      ReplayMore(memory, deeds, more[..n], span);
      ReplayOne(memory, deeds + more[..n], span, more[n]);
      ReplayOne(Replay(memory, deeds, span), more[..n], span, more[n]);
    }
  }

  /** Writes within the span tell nothing, and may happen at any time. */
  lemma {:induction false} WritesAreSound(tasks: seq<Task>, span: Span, deeds: seq<Deed>, more: seq<Deed>)
    requires Sound(tasks, span, deeds) && Written(more, span)
    ensures Sound(tasks, span, deeds + more) && Tells(deeds + more) == Tells(deeds)
  {
    if more == [] {
      assert deeds + more == deeds;
    } else {
      var n := |more| - 1;
      assert deeds + more == (deeds + more[..n]) + [more[n]];
      WritesAreSound(tasks, span, deeds, more[..n]);
      OneMoreDeed(tasks, span, deeds + more[..n], more[n]);
    }
  }

  lemma {:induction false} SoundPart(tasks: seq<Task>, span: Span, deeds: seq<Deed>, n: nat)
    requires Sound(tasks, span, deeds) && n <= |deeds|
    ensures Sound(tasks, span, deeds[..n])
    ensures n < |deeds| ==> MayFollow(deeds[n], tasks, span, deeds[..n])
  {
    if n < |deeds| {
      var m := |deeds| - 1;
      if n < m {
        SoundPart(tasks, span, deeds[..m], n);
        assert deeds[..m][..n] == deeds[..n];
      }
    } else {
      assert deeds[..n] == deeds;
    }
  }

  /** What was told a task with Success has all its bytes written before. */
  lemma {:induction false} ToldIsCovered(tasks: seq<Task>, span: Span, deeds: seq<Deed>, k: nat)
    requires Sound(tasks, span, deeds) && k < |Tells(deeds)| && Tells(deeds)[k].code.Success?
    ensures
      var i := Tells(deeds)[k].task;
      i < |tasks| && CoversRange(deeds, tasks[i].Destination(), tasks[i].info.size)
  {
    var n, i := |deeds| - 1, Tells(deeds)[k].task;
    assert deeds == deeds[..n] + [deeds[n]];
    if k < |Tells(deeds[..n])| { ToldIsCovered(tasks, span, deeds[..n], k); }
    CoversMore(deeds[..n], [deeds[n]], tasks[i].Destination(), tasks[i].info.size);
  }

  /** What sound deeds make of a memory: nothing changes outside the span, and each address they write has
      the byte that belongs there. */
  lemma {:induction false} ReplayBrings(memory: Memory, tasks: seq<Task>, span: Span, deeds: seq<Deed>)
    requires Sound(tasks, span, deeds)
    ensures Elsewhere(memory, Replay(memory, deeds, span), span.dst, span.size)
    ensures forall a :: Covers(deeds, a) ==> a in Replay(memory, deeds, span) && Replay(memory, deeds, span)[a] == span.start + (a - span.dst)
  {
    if deeds != [] {
      var n := |deeds| - 1;
      ReplayBrings(memory, tasks, span, deeds[..n]);
      var after := Replay(memory, deeds, span);
      forall a | Covers(deeds, a)
        ensures a in after && after[a] == span.start + (a - span.dst)
      {
        if !deeds[n].WritesTo(a) {
          var j :| 0 <= j < |deeds| && deeds[j].WritesTo(a);
          assert deeds[..n][j].WritesTo(a);
        }
      }
    }
  }

  lemma {:induction false} TellsGrow(deeds: seq<Deed>, n: nat)
    requires n <= |deeds|
    ensures |Tells(deeds[..n])| <= |Tells(deeds)|
    ensures forall k :: 0 <= k < |Tells(deeds[..n])| ==> Tells(deeds[..n])[k] == Tells(deeds)[k]
  {
    if n < |deeds| {
      assert deeds[..|deeds| - 1][..n] == deeds[..n];
      TellsGrow(deeds[..|deeds| - 1], n);
    } else {
      assert deeds[..n] == deeds;
    }
  }

  /** The deeds so far have turned one memory into the other, and written the bytes up to here. */
  ghost predicate Traced(deeds: seq<Deed>, span: Span, memory0: Memory, memory: Memory, upTo: nat) {
    && span.start <= upTo && memory == Replay(memory0, deeds, span)
    && CoversRange(deeds, span.dst, upTo - span.start)
  }

  lemma {:induction false} TracedNothing(span: Span, memory: Memory)
    ensures Traced([], span, memory, memory, span.start)
  {
  }

  lemma {:induction false} TracedTold(deeds: seq<Deed>, span: Span, memory0: Memory, memory: Memory, upTo: nat, i: nat, code: Code)
    requires Traced(deeds, span, memory0, memory, upTo)
    ensures Traced(deeds + [Told(i, code)], span, memory0, memory, upTo)
  {
    ReplayOne(memory0, deeds, span, Told(i, code));
    CoversMore(deeds, [Told(i, code)], span.dst, upTo - span.start);
    hide Replay, CoversRange;
  }

  lemma {:induction false} TracedMore(deeds: seq<Deed>, more: seq<Deed>, span: Span, memory0: Memory, memory: Memory, upTo: nat, later: nat)
    requires Traced(deeds, span, memory0, memory, upTo)
    requires span.start <= later && CoversRange(deeds + more, span.dst, later - span.start)
    ensures Traced(deeds + more, span, memory0, Replay(memory, more, span), later)
  {
    ReplayMore(memory0, deeds, more, span);
    hide Replay, CoversRange;
  }

  lemma {:induction false} ReplayWrote(memory: Memory, span: Span, d: Deed)
    ensures Replay(memory, [d], span) == After(memory, d, span)
  {
    assert [d][..0] == [];
    hide After;
  }
}
