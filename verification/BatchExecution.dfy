/** Reading one batch and answering its tasks (impl/batch): block by block into host memory, or through
    staging buffers into a device; whatever fails and whenever the stop flag is raised. */
module BatchExecution {
  import opened Machine
  import opened ReadTypes
  import opened Responses
  import opened Deeds

  const FINISHED_ERROR: Code := Failed(1)
  const FILE_ACCESS_ERROR: Code := Failed(2)
  const EOF_ERROR: Code := Failed(3)
  const UNKNOWN_ERROR: Code := Failed(11)
  const UNSUPPORTED_DEVICE_TYPE: Code := Failed(23)

  /** The flag other threads may raise at any moment, and nobody lowers. */
  class StopFlag {
    var raised: bool

    method Poll() returns (stopped: bool)
      modifies this
      ensures stopped == raised && (old(raised) ==> raised)
    {
      var raise: bool := *;
      raised := raised || raise;
      stopped := raised;
    }
  }

  /** The open file and the memory it is read into. */
  class SourceFile {
    var position: nat
    var memory: Memory

    /** What went wrong with it, if anything did. */
    ghost var error: Code

    method Open() returns (code: Code)
      modifies this`error
      ensures error == if code.Failed? then code else old(error)
    {
      var fault: nat := *;
      code := if fault == 0 then Success else Failed(fault);
      if code.Failed? { error := code; }
    }

    method Seek(offset: nat) returns (code: Code)
      modifies this`position, this`error
      ensures code.Success? ==> position == offset
      ensures code.Failed? ==> code == EOF_ERROR
      ensures error == if code.Failed? then code else old(error)
    {
      var fails: bool := *;
      if fails {
        error := EOF_ERROR;
        return EOF_ERROR;
      }
      position := offset;
      code := Success;
    }

    /** Reads exactly `size` bytes or fails: the descriptor may fail, or end short of it. */
    method Read(size: nat, buffer: nat) returns (code: Code, ghost got: nat)
      modifies this
      ensures got <= size && memory == Write(old(memory), old(position), got, buffer)
      ensures code.Success? ==> got == size && position == old(position) + size
      ensures code.Failed? ==> code == FILE_ACCESS_ERROR || code == EOF_ERROR
      ensures error == if code.Failed? then code else old(error)
    {
      var fails: bool := *;
      var bytes: nat :| bytes <= size;
      got := bytes;
      memory := Write(memory, position, bytes, buffer);
      position := position + bytes;
      code := if fails then FILE_ACCESS_ERROR else if bytes == size then Success else EOF_ERROR;
      if code.Failed? { error := code; }
    }
  }

  datatype Copy = Copy(offset: nat, size: nat, dst: nat) {
    /** Inside the span, and in step with it. */
    predicate Within(span: Span) {
      span.dst <= dst && dst + size <= span.dst + span.size && offset == span.start + (dst - span.dst)
    }
  }

  ghost predicate AllWithin(queue: seq<Copy>, span: Span) {
    forall k :: 0 <= k < |queue| ==> queue[k].Within(span)
  }

  /** These writes made one memory of the other, and among them are all of the copies from one to another. */
  ghost predicate Carried(queue: seq<Copy>, span: Span, before: Memory, after: Memory, more: seq<Deed>, first: nat, last: nat) {
    && Written(more, span) && after == Replay(before, more, span)
    && forall k :: 0 <= k < |queue| && first <= k < last ==> CoversRange(more, queue[k].dst, queue[k].size)
  }

  lemma {:induction false} NothingCarried(queue: seq<Copy>, span: Span, memory: Memory, n: nat)
    ensures Carried(queue, span, memory, memory, [], n, n)
  {
  }

  /** One more write, by the copy that is next to land or by one that comes after a failure. */
  lemma {:induction false} CarriedNext(queue: seq<Copy>, span: Span, before: Memory, middle: Memory, after: Memory,
                                       more: seq<Deed>, first: nat, last: nat, r: nat, got: nat, now: nat)
    requires Carried(queue, span, before, middle, more, first, last) && r < |queue| && queue[r].Within(span) && got <= queue[r].size
    requires after == Write(middle, queue[r].offset, got, queue[r].dst)
    requires now == last || (last == r && now == last + 1 && got == queue[r].size)
    ensures Carried(queue, span, before, after, more + [Wrote(queue[r].dst, got)], first, now)
  {
    var d := Wrote(queue[r].dst, got);
    ReplayOne(before, more, span, d);
    assert After(middle, d, span) == after;
    hide Replay, After, CoversRange, Write;
    forall k | 0 <= k < |queue| && first <= k < now
      ensures CoversRange(more + [d], queue[k].dst, queue[k].size)
    {
      if k < last {
        CoversMore(more, [d], queue[k].dst, queue[k].size);
      } else {
        CoversAll(more, queue[r].dst, got);
      }
    }
  }

  /** The device issuer and its stream: copies complete in the order they were submitted, each with any
      code, at any moment. landed and failure are what the completions record for the reader. */
  class DeviceStream {
    /** How much one copy takes at most: what a staging buffer holds. */
    const block: nat
    var queue: seq<Copy>
    var retired: nat
    var landed: nat
    var failure: Code
    var memory: Memory
    ghost var results: seq<Code>

    ghost predicate Valid()
      reads this
    {
      Recorded(queue, retired, landed, failure, memory, results)
    }

    /** landed counts the copies before the first failure, no more, and their bytes are on the device. */
    static ghost predicate Recorded(queue: seq<Copy>, retired: nat, landed: nat, failure: Code, memory: Memory, results: seq<Code>) {
      && landed <= retired == |results| <= |queue|
      && (forall k :: 0 <= k < landed ==> results[k].Success?)
      && (failure.Success? ==> landed == retired)
      && (failure.Failed? ==> landed < retired && results[landed] == failure)
      && (forall k :: 0 <= k < landed ==> Copied(memory, queue[k].offset, queue[k].size, queue[k].dst))
      && (forall k, l :: 0 <= k < l < |queue| ==> queue[k].dst + queue[k].size <= queue[l].dst)
    }

    /** The staging buffer at `buffer` holds the bytes the copy is to bring to the device. */
    method Submit(copy: Copy, ghost host: Memory, ghost buffer: nat)
      requires Copied(host, copy.offset, copy.size, buffer)
      requires Valid() && forall k :: 0 <= k < |queue| ==> queue[k].dst + queue[k].size <= copy.dst
      modifies this`queue
      ensures Valid() && queue == old(queue) + [copy]
    {
      queue := queue + [copy];
    }

    /** The next copy ends, well or badly, and its completion runs. */
    method Retire() returns (ghost got: nat)
      requires Valid() && retired < |queue|
      modifies this`retired, this`landed, this`failure, this`memory, this`results
      ensures Valid() && retired == old(retired) + 1
      ensures got <= queue[old(retired)].size
      ensures memory == Write(old(memory), queue[old(retired)].offset, got, queue[old(retired)].dst)
      ensures landed == old(landed) ||
              (landed == old(landed) + 1 && old(landed) == old(retired) && got == queue[old(retired)].size)
    {
      hide Recorded, Write, Copied, Elsewhere;
      var copy := queue[retired];
      var ends: nat := *;
      var code := if ends == 0 then Success else Failed(ends);
      var bytes: nat :| bytes <= copy.size && (code.Success? ==> bytes == copy.size);
      got := bytes;
      RecordedNext(queue, retired, landed, failure, memory, results, code, bytes);
      memory := Write(memory, copy.offset, bytes, copy.dst);
      if code.Failed? {
        if failure.Success? { failure := code; }
      } else if failure.Success? {
        landed := landed + 1;
      }
      retired := retired + 1;
      results := results + [code];
    }

    /** What the record is after one more completion. */
    static lemma RecordedNext(queue: seq<Copy>, retired: nat, landed: nat, failure: Code, memory: Memory, results: seq<Code>,
                              code: Code, got: nat)
      requires Recorded(queue, retired, landed, failure, memory, results) && retired < |queue|
      requires got <= queue[retired].size && (code.Success? ==> got == queue[retired].size)
      ensures
        var lands := code.Success? && failure.Success?;
        && (lands ==> landed == retired)
        && Recorded(queue, retired + 1, if lands then landed + 1 else landed, if failure.Success? then code else failure,
                    Write(memory, queue[retired].offset, got, queue[retired].dst), results + [code])
    {
      LandedStay(queue, landed, memory, retired, got);
      hide Write, Copied;
    }

    /** What a copy writes leaves the blocks before it as they are, and a whole one brings its own. */
    static lemma LandedStay(queue: seq<Copy>, landed: nat, memory: Memory, r: nat, got: nat)
      requires landed <= r < |queue| && got <= queue[r].size
      requires forall k :: 0 <= k < landed ==> Copied(memory, queue[k].offset, queue[k].size, queue[k].dst)
      requires forall k, l :: 0 <= k < l < |queue| ==> queue[k].dst + queue[k].size <= queue[l].dst
      ensures
        var after := Write(memory, queue[r].offset, got, queue[r].dst);
        && (forall k :: 0 <= k < landed ==> Copied(after, queue[k].offset, queue[k].size, queue[k].dst))
        && (got == queue[r].size ==> Copied(after, queue[r].offset, queue[r].size, queue[r].dst))
    {
    }

    /** Retire, with what was written so far. */
    method RetireNext(ghost span: Span, ghost memory0: Memory, ghost more: seq<Deed>, ghost first: nat)
      returns (ghost longer: seq<Deed>)
      requires Valid() && retired < |queue| && AllWithin(queue, span)
      requires Carried(queue, span, memory0, memory, more, first, landed)
      modifies this`retired, this`landed, this`failure, this`memory, this`results
      ensures Valid() && retired == old(retired) + 1 && landed >= old(landed)
      ensures Carried(queue, span, memory0, memory, longer, first, landed)
    {
      hide Valid, Carried, Write;
      ghost var got := Retire();
      longer := more + [Wrote(queue[old(retired)].dst, got)];
      CarriedNext(queue, span, memory0, old(memory), memory, more, first, old(landed), old(retired), got, landed);
    }

    /** Other threads run: any number of completions arrive. */
    method Progress(ghost span: Span) returns (ghost more: seq<Deed>)
      requires Valid() && AllWithin(queue, span)
      modifies this`retired, this`landed, this`failure, this`memory, this`results
      ensures Valid() && landed >= old(landed) && Carried(queue, span, old(memory), memory, more, old(landed), landed)
    {
      more := [];
      NothingCarried(queue, span, memory, landed);
      var many: nat := *;
      hide Valid, Carried, AllWithin;
      while many > 0 && retired < |queue|
        invariant Valid() && landed >= old(landed) && Carried(queue, span, old(memory), memory, more, old(landed), landed)
      {
        more := RetireNext(span, old(memory), more, old(landed));
        many := many - 1;
      }
    }

    /** The scope guard: this many waits, each for a copy's end. */
    method Drain(waits: nat, ghost span: Span) returns (ghost more: seq<Deed>)
      requires Valid() && waits <= |queue| && AllWithin(queue, span)
      modifies this`retired, this`landed, this`failure, this`memory, this`results
      ensures Valid() && landed >= old(landed) && Carried(queue, span, old(memory), memory, more, old(landed), landed)
      ensures retired == if old(retired) < waits then waits else old(retired)
    {
      more := [];
      NothingCarried(queue, span, memory, landed);
      hide Valid, Carried, AllWithin;
      while retired < waits
        invariant Valid() && landed >= old(landed) && Carried(queue, span, old(memory), memory, more, old(landed), landed)
        invariant retired <= if old(retired) < waits then waits else old(retired)
        invariant retired >= old(retired)
      {
        more := RetireNext(span, old(memory), more, old(landed));
      }
    }
  }

  /** The address is in one of these buffers. */
  ghost predicate InBuffers(a: int, buffers: seq<nat>, size: nat) {
    exists k :: 0 <= k < |buffers| && buffers[k] <= a < buffers[k] + size
  }

  /** Nothing changed outside these buffers. */
  ghost predicate OnlyIn(before: Memory, after: Memory, buffers: seq<nat>, size: nat) {
    forall a :: !InBuffers(a, buffers, size) ==> (a in before <==> a in after) && (a in before ==> before[a] == after[a])
  }

  lemma {:induction false} BufferWritten(before: Memory, after: Memory, buffers: seq<nat>, size: nat, buffer: nat, got: nat)
    requires buffer in buffers && got <= size && Elsewhere(before, after, buffer, got)
    ensures OnlyIn(before, after, buffers, size)
  {
    forall a | !InBuffers(a, buffers, size)
      ensures !(buffer <= a < buffer + got)
    {
    }
  }

  lemma {:induction false} OnlyInSame(memory: Memory, buffers: seq<nat>, size: nat)
    ensures OnlyIn(memory, memory, buffers, size)
  {
  }

  lemma {:induction false} OnlyInAgain(before: Memory, middle: Memory, after: Memory, buffers: seq<nat>, size: nat)
    requires OnlyIn(before, middle, buffers, size) && OnlyIn(middle, after, buffers, size)
    ensures OnlyIn(before, after, buffers, size)
  {
    hide InBuffers;
  }

  /** The staging pool, as one reader sees it: its buffers, over all the slabs it may come to have, and how
      many of them the reader must still give back. */
  class StagingPool {
    const buffers: seq<nat>
    const bufferSize: nat
    var held: nat

    /** What it failed with, if it did, and whether it has been stopped. */
    ghost var error: Code
    ghost var closed: bool

    /** Blocks until there is a buffer; fails with the pool's own code, as a pool without buffers must, or
        gives none once it is stopped. */
    method Acquire() returns (code: Code, valid: bool, buffer: nat)
      modifies this
      ensures held == old(held) + if code.Success? && valid then 1 else 0
      ensures code.Success? && valid ==> buffer in buffers
      ensures error == (if code.Failed? then code else old(error)) && closed == (old(closed) || !valid)
    {
      var fault: nat := *;
      code := if fault == 0 then Success else Failed(fault);
      valid := *;
      buffer := 0;
      if buffers == [] {
        code := UNKNOWN_ERROR;
      } else {
        var k: nat :| k < |buffers|;
        buffer := buffers[k];
      }
      if code.Success? && valid { held := held + 1; }
      if code.Failed? { error := code; }
      closed := closed || !valid;
    }

    /** Given back by the reader, or handed to the issuer, which returns it. */
    method Release()
      requires held > 0
      modifies this`held
      ensures held == old(held) - 1
    {
      held := held - 1;
    }
  }

  /** Where a batch's bytes go, and whether the reader it was given to can put them there. */
  datatype Target = Host | Staged | Unstaged | ObjectStorage

  /** What a batch has told its tasks' requests: at most one finish a task, and one for each finished task. */
  ghost predicate Logged(log: seq<Finish>, finished: seq<bool>) {
    && (forall k :: 0 <= k < |log| ==> log[k].task < |finished| && finished[log[k].task])
    && (forall k, l :: 0 <= k < l < |log| ==> log[k].task != log[l].task)
    && (forall i :: 0 <= i < |finished| && finished[i] ==> Finishes(log, i))
  }

  ghost predicate Finishes(log: seq<Finish>, i: nat) {
    exists k :: 0 <= k < |log| && log[k].task == i
  }

  /** The later log is the earlier one and then finishes with this code, or with Success. */
  ghost predicate Continues(before: seq<Finish>, after: seq<Finish>, code: Code) {
    && |before| <= |after| && after[..|before|] == before
    && forall k :: |before| <= k < |after| ==> after[k].code == Success || after[k].code == code
  }

  lemma {:induction false} LogOne(log: seq<Finish>, finished: seq<bool>, i: nat, code: Code)
    requires Logged(log, finished) && i < |finished| && !finished[i]
    ensures Logged(log + [Finish(i, code)], finished[i := true])
  {
    var after := log + [Finish(i, code)];
    forall j | 0 <= j < |finished| && finished[i := true][j]
      ensures Finishes(after, j)
    {
      if j == i {
        assert after[|log|].task == i;
      } else {
        var k :| 0 <= k < |log| && log[k].task == j;
        assert after[k].task == j;
      }
    }
  }

  /** The task's bytes are at its destination. */
  ghost predicate TaskInPlace(tasks: seq<Task>, i: nat, memory: Memory) {
    i < |tasks| && Copied(memory, tasks[i].info.offset, tasks[i].info.size, tasks[i].Destination())
  }

  ghost predicate AllInPlace(log: seq<Finish>, tasks: seq<Task>, memory: Memory) {
    forall k :: 0 <= k < |log| && log[k].code.Success? ==> TaskInPlace(tasks, log[k].task, memory)
  }

  /** What is told goes on, with one code and then with another or the same. */
  lemma {:induction false} ContinuesOn(a: seq<Finish>, b: seq<Finish>, c: seq<Finish>, code: Code)
    requires Continues(a, b, Success) && Continues(b, c, code)
    ensures Continues(a, c, code)
  {
    assert c[..|a|] == b[..|a|];
    forall k | |a| <= k < |c|
      ensures c[k].code == Success || c[k].code == code
    {
      if k < |b| { assert c[..|b|][k] == b[k]; }
    }
  }

  lemma {:induction false} ContinuesOne(a: seq<Finish>, b: seq<Finish>, i: nat, code: Code)
    requires Continues(a, b, code)
    ensures Continues(a, b + [Finish(i, code)], code)
  {
  }

  class Batch {
    const tasks: seq<Task>
    const start: nat
    const end: nat
    var unfinished: nat
    var finished: seq<bool>
    ghost var log: seq<Finish>

    /** All it did that others can see: what it wrote and what it told. */
    ghost var deeds: seq<Deed>

    function Destination(): nat { if tasks == [] then 0 else tasks[0].Destination() }

    /** Where its bytes belong. */
    function Extent(): Span { Span(start, Destination(), if start <= end then end - start else 0) }

    ghost predicate Valid()
      reads this
    {
      && Tiles(tasks, start, end) && start <= end && InStep(tasks, start, Destination())
      && |finished| == |tasks| && unfinished <= |tasks|
      && (forall i :: 0 <= i < unfinished ==> finished[i])
      && Logged(log, finished)
      && log == Tells(deeds) && Sound(tasks, Extent(), deeds)
    }

    /** Every task answered with Success ends at or before this file offset. */
    ghost predicate Backed(upTo: nat)
      requires Valid()
      reads this
    {
      forall k :: 0 <= k < |log| && log[k].code.Success? ==> tasks[log[k].task].info.End() <= upTo
    }

    ghost predicate AllFinished()
      reads this
    {
      forall i :: 0 <= i < |finished| ==> finished[i]
    }

    constructor (batchTasks: seq<Task>, first: nat, last: nat)
      requires Tiles(batchTasks, first, last)
      requires batchTasks != [] ==> InStep(batchTasks, first, batchTasks[0].Destination())
      ensures Valid() && log == [] && deeds == [] && Backed(first) && tasks == batchTasks && start == first && end == last
    {
      TilesOrdered(batchTasks, first, last);
      tasks, start, end := batchTasks, first, last;
      unfinished, finished, log, deeds := 0, seq(|batchTasks|, _ => false), [], [];
    }

    /** A task whose end has been reached has all its bytes written to its own destination. */
    lemma TaskCovered(upTo: nat, i: nat)
      requires Valid() && i < |tasks| && tasks[i].info.End() <= upTo
      requires start <= upTo && CoversRange(deeds, Destination(), upTo - start)
      ensures CoversRange(deeds, tasks[i].Destination(), tasks[i].info.size)
    {
      CoversLess(deeds, Destination(), upTo - start, tasks[i].Destination(), tasks[i].info.size);
    }

    /** Task::finished_request: a task already finished is left alone. An answer of Success is only
        allowed with the task's bytes written. */
    method FinishTask(i: nat, code: Code, ghost upTo: nat)
      requires Valid() && Backed(upTo) && i < |tasks|
      requires code.Success? ==> tasks[i].info.End() <= upTo && CoversRange(deeds, tasks[i].Destination(), tasks[i].info.size)
      modifies this`finished, this`log, this`deeds
      ensures Valid() && Backed(upTo) && finished == old(finished)[i := true]
      ensures log == if old(finished)[i] then old(log) else old(log) + [Finish(i, code)]
      ensures deeds == if old(finished)[i] then old(deeds) else old(deeds) + [Told(i, code)]
    {
      if finished[i] { return; }
      LogOne(log, finished, i, code);
      OneMoreDeed(tasks, Extent(), deeds, Told(i, code));
      hide Logged, Sound, Tells, Extent, CoversRange, Tiles, InStep;
      finished := finished[i := true];
      log := log + [Finish(i, code)];
      deeds := deeds + [Told(i, code)];
    }

    /** The batch is Valid and nothing is answered early; its deeds, since the reader began, made of one
        memory the other, and wrote the bytes up to here. */
    ghost predicate Tracked(memory0: Memory, memory: Memory, upTo: nat)
      reads this
    {
      Valid() && Backed(upTo) && upTo <= end && Traced(deeds, Extent(), memory0, memory, upTo)
    }

    /** FinishTask for a task that ends by what was read so far, or fails. */
    method Tell(i: nat, code: Code, ghost upTo: nat, ghost memory0: Memory, ghost memory: Memory)
      requires Tracked(memory0, memory, upTo) && i < |tasks| && (code.Success? ==> tasks[i].info.End() <= upTo)
      modifies this`finished, this`log, this`deeds
      ensures Tracked(memory0, memory, upTo) && finished == old(finished)[i := true] && |old(finished)| == |tasks|
      ensures log == if old(finished)[i] then old(log) else old(log) + [Finish(i, code)]
    {
      if code.Success? { TaskCovered(upTo, i); }
      TracedTold(deeds, Extent(), memory0, memory, upTo, i, code);
      hide Traced, Backed, CoversRange, Extent, Tiles, InStep, Logged, Sound, Tells;
      FinishTask(i, code, upTo);
    }

    lemma MoreTold(before: seq<Finish>, log0: seq<Finish>, told: bool, i: nat, code: Code)
      requires Continues(before, log0, code)
      ensures Continues(before, if told then log0 else log0 + [Finish(i, code)], code)
    {
      ContinuesOne(before, log0, i, code);
    }

    lemma CursorMoves(memory0: Memory, memory: Memory, upTo: nat)
      requires Tracked(memory0, memory, upTo)
      ensures unfinished <= |tasks| == |finished| && forall j :: 0 <= j < unfinished ==> finished[j]
    {
    }

    method MoveCursor(i: nat, ghost upTo: nat, ghost memory0: Memory, ghost memory: Memory)
      requires Tracked(memory0, memory, upTo) && i <= |tasks| == |finished| && forall j :: 0 <= j < i ==> finished[j]
      modifies this`unfinished
      ensures Tracked(memory0, memory, upTo) && unfinished == i
    {
      hide Traced, Extent, Tiles, InStep, Logged, Sound, Tells;
      unfinished := i;
    }

    /** What the log has from here on is of tasks that end at or before the offset. */
    ghost predicate EndBy(later: seq<Finish>, first: nat, offset: nat) {
      forall k :: first <= k < |later| ==> later[k].task < |tasks| && tasks[later[k].task].info.End() <= offset
    }

    /** The first i tasks are finished, those answered since by Success, and each ends by the offset. */
    ghost predicate Answered(now: seq<Finish>, ended: seq<bool>, i: nat, log0: seq<Finish>, offset: nat) {
      && i <= |tasks| == |ended| && (forall j :: 0 <= j < i ==> ended[j])
      && Continues(log0, now, Success) && EndBy(now, |log0|, offset)
    }

    lemma NothingAnswered(memory0: Memory, memory: Memory, upTo: nat, offset: nat)
      requires Tracked(memory0, memory, upTo)
      ensures Answered(log, finished, unfinished, log, offset)
    {
    }

    lemma AnsweredMeans(i: nat, log0: seq<Finish>, offset: nat)
      requires Answered(log, finished, i, log0, offset)
      ensures i <= |tasks| == |finished| && (forall j :: 0 <= j < i ==> finished[j])
      ensures Continues(log0, log, Success) && EndBy(log, |log0|, offset)
    {
    }

    lemma AnsweredMore(now: seq<Finish>, ended: seq<bool>, i: nat, log0: seq<Finish>, offset: nat)
      requires Answered(now, ended, i, log0, offset) && i < |tasks| && tasks[i].info.End() <= offset
      ensures |ended| == |tasks|
      ensures Answered(if ended[i] then now else now + [Finish(i, Success)], ended[i := true], i + 1, log0, offset)
    {
      MoreTold(log0, now, ended[i], i, Success);
      hide Continues;
    }

    /** One pass of the loop of finished_until. */
    method AnswerNext(i: nat, offset: nat, ghost log0: seq<Finish>, ghost upTo: nat, ghost memory0: Memory, ghost memory: Memory)
      requires Tracked(memory0, memory, upTo) && Answered(log, finished, i, log0, offset)
      requires i < |tasks| && tasks[i].info.End() <= offset <= upTo
      modifies this`finished, this`log, this`deeds
      ensures Tracked(memory0, memory, upTo) && Answered(log, finished, i + 1, log0, offset)
    {
      hide *;
      AnsweredMore(log, finished, i, log0, offset);
      Tell(i, Success, upTo, memory0, memory);
    }

    /** finished_until: answers the tasks that end at or before the offset, and no other, from the cursor on. */
    method FinishedUntil(offset: nat, ghost upTo: nat, ghost memory0: Memory, ghost memory: Memory)
      requires Tracked(memory0, memory, upTo) && offset <= upTo
      modifies this`unfinished, this`finished, this`log, this`deeds
      ensures Tracked(memory0, memory, upTo) && Continues(old(log), log, Success) && EndBy(log, |old(log)|, offset)
      ensures unfinished < |tasks| ==> tasks[unfinished].info.End() > offset
    {
      hide *;
      NothingAnswered(memory0, memory, upTo, offset);
      var i := unfinished;
      while i < |tasks| && tasks[i].info.End() <= offset
        invariant Tracked(memory0, memory, upTo) && Answered(log, finished, i, old(log), offset)
      {
        AnswerNext(i, offset, old(log), upTo, memory0, memory);
        i := i + 1;
      }
      AnsweredMeans(i, old(log), offset);
      MoveCursor(i, upTo, memory0, memory);
    }

    /** Everything that ends inside the batch ends by its end. */
    lemma NothingLeft()
      requires Valid() && (unfinished < |tasks| ==> tasks[unfinished].info.End() > end)
      ensures AllFinished()
    {
      if unfinished < |tasks| { TilesPrefix(tasks, start, end, unfinished); }
    }

    /** handle_error: every task not finished yet fails with the batch's error. */
    method HandleError(code: Code, ghost upTo: nat, ghost memory0: Memory, ghost memory: Memory)
      requires Tracked(memory0, memory, upTo)
      modifies this`finished, this`log, this`deeds
      ensures Tracked(memory0, memory, upTo) && Continues(old(log), log, code)
      ensures code.Success? ==> finished == old(finished) && log == old(log)
      ensures code.Failed? ==> AllFinished()
    {
      if code.Success? { return; }
      CursorMoves(memory0, memory, upTo);
      hide Tracked;
      for i := 0 to |tasks|
        invariant |tasks| == |finished| && Tracked(memory0, memory, upTo) && Continues(old(log), log, code)
        invariant forall j :: 0 <= j < i ==> finished[j]
      {
        MoreTold(old(log), log, finished[i], i, code);
        hide Continues;
        Tell(i, code, upTo, memory0, memory);
      }
    }

    /** Bytes were written where they belong: more of the range is there, or as much as before. */
    ghost method Land(more: seq<Deed>, upTo: nat, later: nat, memory0: Memory, before: Memory)
      requires Reading(memory0, before, upTo) && upTo <= later <= end
      requires Written(more, Extent()) && CoversRange(deeds + more, Destination(), later - start)
      modifies this`deeds
      ensures Reading(memory0, Replay(before, more, Extent()), later)
    {
      WritesAreSound(tasks, Extent(), deeds, more);
      TracedMore(deeds, more, Extent(), memory0, before, upTo, later);
      hide Traced, Tiles, InStep, Logged, Sound, Tells, Replay, Written, CoversRange, Continues;
      deeds := deeds + more;
    }

    /** What one read of the file, whole or cut short, has done. */
    ghost method LandRead(upTo: nat, size: nat, got: nat, whole: bool, memory0: Memory, before: Memory)
      requires Reading(memory0, before, upTo) && got <= size && upTo + size <= end && start <= upTo && (whole ==> got == size)
      modifies this`deeds
      ensures
        Reading(memory0, Write(before, upTo, got, Destination() + (upTo - start)), if whole then upTo + size else upTo)
    {
      hide *;
      var d := Wrote(Destination() + (upTo - start), got);
      ReadLands(upTo, size, got, whole, memory0, before, d);
      Land([d], upTo, if whole then upTo + size else upTo, memory0, before);
    }

    lemma ReadLands(upTo: nat, size: nat, got: nat, whole: bool, memory0: Memory, before: Memory, d: Deed)
      requires Reading(memory0, before, upTo) && got <= size && upTo + size <= end && start <= upTo && (whole ==> got == size)
      requires d == Wrote(Destination() + (upTo - start), got)
      ensures Written([d], Extent()) && Replay(before, [d], Extent()) == Write(before, upTo, got, d.dst)
      ensures CoversRange(deeds + [d], Destination(), (if whole then upTo + size else upTo) - start)
    {
      ReplayWrote(before, Extent(), d);
      CoversNext(deeds, Destination(), upTo - start, got);
      CoversMore(deeds, [d], Destination(), upTo - start);
      hide Replay, CoversRange, Write, Continues, Valid, Backed;
    }

    /** The bytes of one block. */
    method ReadInto(file: SourceFile, size: nat, offset: nat, buffer: nat, ghost memory0: Memory) returns (code: Code)
      requires Reading(memory0, file.memory, offset) && offset + size <= end
      requires file.position == offset && buffer == Destination() + (offset - start)
      modifies this`deeds, file
      ensures Reading(memory0, file.memory, if code.Success? then offset + size else offset)
      ensures file.error == if code.Failed? then code else old(file.error)
      ensures code.Success? ==> file.position == offset + size
    {
      hide *;
      ghost var before := file.memory;
      ReadsFrom(memory0, before, offset);
      ghost var got;
      code, got := file.Read(size, buffer);
      assert Reading(memory0, before, offset);
      LandRead(offset, size, got, code.Success?, memory0, before);
    }

    /** One pass of read: a block, and then whatever it completes. */
    method ReadBlock(file: SourceFile, size: nat, offset: nat, buffer: nat, ghost memory0: Memory) returns (code: Code)
      requires Reading(memory0, file.memory, offset) && offset + size <= end
      requires file.position == offset && buffer == Destination() + (offset - start)
      modifies this`unfinished, this`finished, this`log, this`deeds, file
      ensures Reading(memory0, file.memory, if code.Success? then offset + size else offset)
      ensures file.error == if code.Failed? then code else old(file.error)
      ensures code.Success? ==>
                && file.position == offset + size
                && (unfinished < |tasks| ==> tasks[unfinished].info.End() > offset + size)
    {
      hide *;
      code := ReadInto(file, size, offset, buffer, memory0);
      if code.Failed? { return; }
      AnswerUntil(offset + size, offset + size, memory0, file.memory);
    }

    /** As Tracked, and so far the log has only Success. */
    ghost predicate Reading(memory0: Memory, memory: Memory, upTo: nat)
      reads this
    {
      Tracked(memory0, memory, upTo) && Continues([], log, Success)
    }

    /** FinishedUntil, while nothing has failed. */
    method AnswerUntil(offset: nat, ghost upTo: nat, ghost memory0: Memory, ghost memory: Memory)
      requires Reading(memory0, memory, upTo) && offset <= upTo
      modifies this`unfinished, this`finished, this`log, this`deeds
      ensures Reading(memory0, memory, upTo)
      ensures unfinished < |tasks| ==> tasks[unfinished].info.End() > offset
    {
      hide Tracked, Continues;
      FinishedUntil(offset, upTo, memory0, memory);
      ContinuesOn([], old(log), log, Success);
    }

    predicate AtBlock(offset: nat, i: nat, block: nat) { offset == start + i * block }

    /** n is how many whole blocks the range has. */
    predicate WholeBlocks(n: nat, block: nat) {
      start + n * block <= end && (end - start) - n * block < block
    }

    lemma BlocksBegin(n: nat, block: nat)
      requires block > 0 && start <= end && n == (end - start) / block
      ensures WholeBlocks(n, block) && AtBlock(start, 0, block)
    {
      BlocksFit(end - start, block);
    }

    lemma BlockAfter(offset: nat, i: nat, n: nat, block: nat)
      requires AtBlock(offset, i, block) && i < n && WholeBlocks(n, block)
      ensures AtBlock(offset + block, i + 1, block) && offset + block <= end
    {
      NextBlock(i, n, block);
    }

    lemma LastBlock(offset: nat, n: nat, block: nat)
      requires AtBlock(offset, n, block) && WholeBlocks(n, block)
      ensures end - offset < block
    {
    }

    lemma NothingRead(memory: Memory)
      requires Valid() && Backed(start) && deeds == []
      ensures Reading(memory, memory, start)
    {
      TracedNothing(Extent(), memory);
    }

    /** The block loop of read. */
    method ReadBlocks(file: SourceFile, stop: StopFlag, block: nat) returns (code: Code, fileOffset: nat, buffer: nat)
      requires Reading(file.memory, file.memory, start) && block > 0 && file.position == start <= end
      modifies this`unfinished, this`finished, this`log, this`deeds, file, stop
      ensures fileOffset <= end && Reading(old(file.memory), file.memory, fileOffset)
      ensures file.error == if code.Failed? then code else old(file.error)
      ensures code.Success? ==>
                && buffer == Destination() + (fileOffset - start) && file.position == fileOffset
                && (stop.raised || end - fileOffset < block)
    {
      hide *;
      fileOffset, buffer, code := start, Destination(), Success;
      var numChunks := (end - start) / block;
      BlocksBegin(numChunks, block);
      var i := 0;
      var go := i < numChunks;
      if go {
        var stopped := stop.Poll();
        go := !stopped;
      }
      while go
        invariant i <= numChunks && AtBlock(fileOffset, i, block) && start <= fileOffset <= end
        invariant buffer == Destination() + (fileOffset - start)
        invariant go ==> i < numChunks
        invariant !go ==> i == numChunks || stop.raised
        invariant file.position == fileOffset
        invariant Reading(old(file.memory), file.memory, fileOffset)
        invariant code.Success? && file.error == old(file.error)
        decreases numChunks - i, go
      {
        BlockAfter(fileOffset, i, numChunks, block);
        code := ReadBlock(file, block, fileOffset, buffer, old(file.memory));
        if code.Failed? { return; }
        fileOffset := fileOffset + block;
        buffer := buffer + block;
        i := i + 1;
        go := i < numChunks;
        if go {
          var stopped := stop.Poll();
          go := !stopped;
        }
      }
      if i == numChunks { LastBlock(fileOffset, i, block); }
    }

    /** The whole range in blocks, then the rest of it. Whatever ends it early, what was answered so far
        is backed by bytes; only when everything was read, and the flag was never seen raised, is the
        rest of the batch answered with Success. */
    method Read(file: SourceFile, stop: StopFlag, block: nat) returns (code: Code, ghost upTo: nat)
      requires Valid() && Backed(start) && deeds == [] && block > 0
      modifies this`unfinished, this`finished, this`log, this`deeds, file, stop
      ensures Reading(old(file.memory), file.memory, upTo)
      ensures code.Success? ==> AllFinished() && (tasks == [] || upTo == end)
      ensures code.Failed? ==> code == file.error || (code == FINISHED_ERROR && stop.raised)
    {
      upTo := start;
      NothingRead(file.memory);
      if tasks == [] { return Success, upTo; }
      hide *;
      code := file.Seek(start);
      if code.Failed? { return; }
      var fileOffset, buffer;
      code, fileOffset, buffer := ReadBlocks(file, stop, block);
      upTo := fileOffset;
      if code.Failed? { return; }
      if fileOffset < end {
        var stopped := stop.Poll();
        if !stopped {
          code := ReadBlock(file, end - fileOffset, fileOffset, buffer, old(file.memory));
          if code.Failed? { return; }
          upTo := end;
        }
      }
      code := FinishReading(file.memory, stop, upTo, old(file.memory));
    }

    /** The end of both readers: answer what is left, then report whether the flag was raised. */
    method FinishReading(ghost memory: Memory, stop: StopFlag, ghost upTo: nat, ghost memory0: Memory) returns (code: Code)
      requires Reading(memory0, memory, upTo) && (upTo < end ==> stop.raised)
      modifies this`unfinished, this`finished, this`log, this`deeds, stop
      ensures Reading(memory0, memory, upTo)
      ensures code.Success? ==> AllFinished() && upTo == end
      ensures code.Failed? ==> code == FINISHED_ERROR && stop.raised
    {
      var stopped := stop.Poll();
      ReadsToEnd(memory0, memory, upTo);
      if !stopped {
        hide Reading;
        AnswerUntil(end, end, memory0, memory);
        NothingUnread(memory0, memory, upTo);
      }
      stopped := stop.Poll();
      code := if stopped then FINISHED_ERROR else Success;
    }

    lemma ReadsFrom(memory0: Memory, memory: Memory, upTo: nat)
      requires Reading(memory0, memory, upTo)
      ensures start <= upTo
    {
    }

    lemma ReadsToEnd(memory0: Memory, memory: Memory, upTo: nat)
      requires Reading(memory0, memory, upTo)
      ensures upTo <= end
    {
    }

    lemma NothingUnread(memory0: Memory, memory: Memory, upTo: nat)
      requires Reading(memory0, memory, upTo) && (unfinished < |tasks| ==> tasks[unfinished].info.End() > end)
      ensures AllFinished()
    {
      NothingLeft();
    }

    /** The file offset where the k-th block starts, or the end of the range. */
    function Offset(k: nat, block: nat): nat {
      if start + k * block < end then start + k * block else end
    }

    /** The k-th block of a device read: where in the file, how much, to which address. */
    function BlockAt(k: nat, block: nat): Copy {
      Copy(start + k * block, if end < start + k * block then 0 else Min(block, end - (start + k * block)), Destination() + k * block)
    }

    /** The first n blocks were submitted, in file order, and nothing else. */
    ghost predicate Submitted(queue: seq<Copy>, n: nat, block: nat) {
      && |queue| == n && (n > 0 ==> start + (n - 1) * block < end)
      && forall k :: 0 <= k < n ==> queue[k] == BlockAt(k, block)
    }

    /** Where a device read stands: the landed blocks are what the batch has and answers from. */
    ghost predicate Staging(device: DeviceStream, n: nat, memory0: Memory)
      reads this, device
    {
      && device.Valid() && Submitted(device.queue, n, device.block)
      && Reading(memory0, device.memory, Offset(device.landed, device.block))
    }

    lemma {:induction false} BlockApart(k: nat, l: nat, block: nat)
      requires k < l && block > 0
      ensures k * block + block <= l * block
    {
      NextBlock(k, l, block);
    }

    lemma BlockInRange(queue: seq<Copy>, n: nat, block: nat, k: nat)
      requires Submitted(queue, n, block) && k < n && block > 0 && start <= end
      ensures Destination() <= queue[k].dst && queue[k].dst + queue[k].size <= Destination() + (end - start)
      ensures start + k * block < end
      ensures k == n - 1 || queue[k].size == block
    {
      if k < n - 1 { BlockApart(k, n - 1, block); }
    }

    /** All blocks before the n-th were written, some earlier and the others now, so the range was, up to there. */
    lemma LandedPrefix(done: seq<Deed>, more: seq<Deed>, queue: seq<Copy>, n: nat, block: nat, first: nat, landed: nat)
      requires Submitted(queue, n, block) && first <= landed <= n && block > 0 && start <= end
      requires CoversRange(done, Destination(), Offset(first, block) - start)
      requires forall k :: 0 <= k < |queue| && first <= k < landed ==> CoversRange(more, queue[k].dst, queue[k].size)
      ensures CoversRange(done + more, Destination(), Offset(landed, block) - start)
    {
      hide Submitted, Offset, Covers;
      forall a: nat | Destination() <= a < Destination() + (Offset(landed, block) - start)
        ensures Covers(done + more, a)
      {
        LandedAddress(done, more, queue, n, block, first, landed, a);
      }
    }

    lemma LandedAddress(done: seq<Deed>, more: seq<Deed>, queue: seq<Copy>, n: nat, block: nat, first: nat, landed: nat, a: nat)
      requires Submitted(queue, n, block) && first <= landed <= n && block > 0 && start <= end
      requires CoversRange(done, Destination(), Offset(first, block) - start)
      requires forall k :: 0 <= k < |queue| && first <= k < landed ==> CoversRange(more, queue[k].dst, queue[k].size)
      requires Destination() <= a < Destination() + (Offset(landed, block) - start)
      ensures Covers(done + more, a)
    {
      hide Submitted, Offset, Covers;
      var k := BlockHolding(queue, n, block, first, landed, a);
      CoveredStill(done, more, a);
    }

    /** An address of the range is in a block, and the blocks before the first one are the range before it. */
    lemma BlockHolding(queue: seq<Copy>, n: nat, block: nat, first: nat, landed: nat, a: nat) returns (k: nat)
      requires Submitted(queue, n, block) && first <= landed <= n && block > 0 && start <= end
      requires Destination() <= a < Destination() + (Offset(landed, block) - start)
      ensures k < landed && k < |queue| && queue[k].dst <= a < queue[k].dst + queue[k].size
      ensures k < first ==> a < Destination() + (Offset(first, block) - start)
    {
      k := (a - Destination()) / block;
      BlocksFit(a - Destination(), block);
      if k >= landed { NextOrSame(landed, k, block); assert false; }
      BlockInRange(queue, n, block, k);
      if k < first { BlockApart(k, first, block); }
    }

    lemma {:induction false} NextOrSame(k: nat, l: nat, block: nat)
      requires k <= l
      ensures k * block <= l * block
    {
      assert l * block == k * block + (l - k) * block;
    }

    lemma OffsetsGrow(k: nat, l: nat, block: nat)
      requires k <= l && start <= end
      ensures start <= Offset(k, block) <= Offset(l, block) <= end
    {
      NextOrSame(k, l, block);
    }

    lemma BlocksInRange(queue: seq<Copy>, n: nat, block: nat)
      requires Submitted(queue, n, block) && block > 0 && start <= end
      ensures |queue| == n && AllWithin(queue, Extent())
    {
      forall k | 0 <= k < n
        ensures queue[k].Within(Extent())
      {
        BlockInRange(queue, n, block, k);
      }
    }

    lemma StagingMeans(device: DeviceStream, n: nat, memory0: Memory)
      requires Staging(device, n, memory0) && device.block > 0
      ensures device.Valid() && Submitted(device.queue, n, device.block) && start <= end
      ensures Reading(memory0, device.memory, Offset(device.landed, device.block))
      ensures |device.queue| == n && AllWithin(device.queue, Extent()) && device.landed <= n
    {
      BlocksInRange(device.queue, n, device.block);
    }

    /** More copies have landed: the batch has more bytes, and no less was answered from them. */
    ghost method LandCopies(device: DeviceStream, n: nat, more: seq<Deed>, first: nat, memory0: Memory, before: Memory)
      requires device.Valid() && Submitted(device.queue, n, device.block) && device.block > 0 && first <= device.landed <= n
      requires Reading(memory0, before, Offset(first, device.block)) && start <= end
      requires Carried(device.queue, Extent(), before, device.memory, more, first, device.landed)
      modifies this`deeds
      ensures Staging(device, n, memory0)
    {
      LandedPrefix(deeds, more, device.queue, n, device.block, first, device.landed);
      OffsetsGrow(first, device.landed, device.block);
      hide Offset, Submitted, Reading, CoversRange, Written;
      Land(more, Offset(first, device.block), Offset(device.landed, device.block), memory0, before);
    }

    /** Copies land while other threads run. */
    method Interleave(device: DeviceStream, ghost n: nat, ghost memory0: Memory)
      requires Staging(device, n, memory0) && device.block > 0
      modifies this`deeds
      modifies device`retired, device`landed, device`failure, device`memory, device`results
      ensures Staging(device, n, memory0)
    {
      StagingMeans(device, n, memory0);
      hide *;
      ghost var more := device.Progress(Extent());
      LandedBelow(device, n);
      LandCopies(device, n, more, old(device.landed), memory0, old(device.memory));
    }

    lemma LandedBelow(device: DeviceStream, n: nat)
      requires device.Valid() && Submitted(device.queue, n, device.block)
      ensures device.landed <= n
    {
    }

    lemma NextOffset(n: nat, block: nat)
      requires Offset(n, block) < end && block > 0
      ensures Offset(n, block) < Offset(n + 1, block) <= end
      ensures Offset(n + 1, block) == Offset(n, block) + Min(block, end - Offset(n, block))
      ensures Offset(n + 1, block) < end ==> Offset(n + 1, block) == start + (n + 1) * block
    {
      NextBlock(n, n + 1, block);
    }

    lemma SubmitNext(queue: seq<Copy>, n: nat, block: nat, bytes: nat)
      requires Submitted(queue, n, block) && start + n * block < end && block > 0
      requires bytes == Min(block, end - Offset(n, block))
      ensures
        var copy := Copy(Offset(n, block), bytes, Destination() + (Offset(n, block) - start));
        && Submitted(queue + [copy], n + 1, block)
        && forall k :: 0 <= k < |queue| ==> queue[k].dst + queue[k].size <= copy.dst
    {
      forall k | 0 <= k < |queue|
        ensures queue[k].dst + queue[k].size <= Destination() + n * block
      {
        BlockApart(k, n, block);
      }
    }

    /** The error is the file's or the pool's own, or the pool was stopped. */
    ghost predicate StagingFault(code: Code, file: SourceFile, pool: StagingPool)
      reads file, pool
    {
      code == file.error || code == pool.error || (code == FINISHED_ERROR && pool.closed)
    }

    /** Takes a staging buffer and reads a block into it; a read that fails gives the buffer back. */
    method FillBuffer(file: SourceFile, pool: StagingPool, bytesize: nat) returns (code: Code, buffer: nat)
      requires bytesize <= pool.bufferSize
      modifies file, pool
      ensures OnlyIn(old(file.memory), file.memory, pool.buffers, pool.bufferSize)
      ensures pool.held == old(pool.held) + if code.Success? then 1 else 0
      ensures code.Failed? ==> StagingFault(code, file, pool)
      ensures code.Success? ==> Copied(file.memory, old(file.position), bytesize, buffer)
      ensures code.Success? ==> file.position == old(file.position) + bytesize
    {
      var valid;
      code, valid, buffer := pool.Acquire();
      if code.Failed? { return; }
      if !valid { return FINISHED_ERROR, buffer; }
      ghost var got;
      code, got := file.Read(bytesize, buffer);
      BufferWritten(old(file.memory), file.memory, pool.buffers, pool.bufferSize, buffer, got);
      if code.Failed? { pool.Release(); }
    }

    /** One pass of read_to_device: a block through a staging buffer, then whatever has landed. */
    method StageBlock(file: SourceFile, device: DeviceStream, pool: StagingPool, offset: nat, ghost n: nat,
                      ghost memory0: Memory) returns (code: Code, next: nat)
      requires Staging(device, n, memory0) && 0 < device.block <= pool.bufferSize
      requires offset == Offset(n, device.block) == file.position < end
      modifies this`unfinished, this`finished, this`log, this`deeds, file, pool
      modifies device`queue, device`retired, device`landed, device`failure, device`memory, device`results
      ensures Staging(device, if code.Success? then n + 1 else n, memory0) && pool.held == old(pool.held)
      ensures code.Success? ==> next == file.position == Offset(n + 1, device.block) && offset < next <= end
      ensures code.Failed? ==> StagingFault(code, file, pool)
      ensures OnlyIn(old(file.memory), file.memory, pool.buffers, pool.bufferSize)
    {
      next := offset;
      NextOffset(n, device.block);
      hide *;
      Interleave(device, n, memory0);
      var bytesize := Min(device.block, end - offset);
      var buffer;
      code, buffer := FillBuffer(file, pool, bytesize);
      if code.Failed? { return; }
      SubmitBlock(device, offset, bytesize, file.memory, buffer, n, memory0);
      pool.Release();
      Interleave(device, n + 1, memory0);
      AnswerLanded(device, n + 1, memory0);
      next := offset + bytesize;
    }

    method SubmitBlock(device: DeviceStream, offset: nat, bytesize: nat, ghost host: Memory, ghost buffer: nat,
                       ghost n: nat, ghost memory0: Memory)
      requires Staging(device, n, memory0) && device.block > 0
      requires offset == Offset(n, device.block) < end && bytesize == Min(device.block, end - offset)
      requires Copied(host, offset, bytesize, buffer)
      modifies device`queue
      ensures Staging(device, n + 1, memory0)
    {
      SubmitNext(device.queue, n, device.block, bytesize);
      device.Submit(Copy(offset, bytesize, Destination() + (offset - start)), host, buffer);
      hide Reading, Copied;
    }

    lemma NoFurther(landed: nat, block: nat)
      requires start <= end
      ensures Offset(Narrow(landed), block) <= Offset(landed, block)
    {
      NarrowBelow(landed);
      NextOrSame(Narrow(landed), landed, block);
      hide Narrow;
    }

    /** The call of finished_until after each block: no further than what has landed, which an `unsigned`
        counts. */
    method AnswerLanded(device: DeviceStream, ghost n: nat, ghost memory0: Memory)
      requires Staging(device, n, memory0)
      modifies this`unfinished, this`finished, this`log, this`deeds
      ensures Staging(device, n, memory0)
    {
      var count := Narrow(device.landed);
      NoFurther(device.landed, device.block);
      hide Offset, Narrow, Valid, Submitted;
      AnswerUntil(Offset(count, device.block), Offset(device.landed, device.block), memory0, device.memory);
    }

    lemma CountsFrom(block: nat)
      requires start <= end
      ensures Offset(0, block) == start && Narrow(0) == 0 < UNSIGNED
      ensures forall k: nat :: Offset(k, block) <= end
    {
    }

    /** The loop of read_to_device. It counts what it submits in an `unsigned`. */
    method StageBlocks(file: SourceFile, device: DeviceStream, pool: StagingPool, stop: StopFlag)
      returns (code: Code, submitted: nat, ghost n: nat)
      requires Staging(device, 0, device.memory) && 0 < device.block <= pool.bufferSize && file.position == start <= end
      modifies this`unfinished, this`finished, this`log, this`deeds, file, pool, stop
      modifies device`queue, device`retired, device`landed, device`failure, device`memory, device`results
      ensures Staging(device, n, old(device.memory)) && pool.held == old(pool.held) && submitted == Narrow(n)
      ensures code.Success? ==> stop.raised || Offset(n, device.block) == end
      ensures code.Failed? ==> StagingFault(code, file, pool)
      ensures OnlyIn(old(file.memory), file.memory, pool.buffers, pool.bufferSize)
    {
      hide *;
      OnlyInSame(file.memory, pool.buffers, pool.bufferSize);
      CountsFrom(device.block);
      n, submitted, code := 0, 0, Success;
      var offset := start;
      var go := offset < end;
      if go {
        var stopped := stop.Poll();
        go := !stopped;
      }
      while go
        invariant Staging(device, n, old(device.memory)) && pool.held == old(pool.held)
        invariant submitted == Narrow(n)
        invariant OnlyIn(old(file.memory), file.memory, pool.buffers, pool.bufferSize)
        invariant go ==> offset < end
        invariant offset == Offset(n, device.block) == file.position
        invariant code.Success? && (go || stop.raised || offset >= end)
        decreases end - offset, go
      {
        var next;
        ghost var filled := file.memory;
        code, next := StageBlock(file, device, pool, offset, n, old(device.memory));
        OnlyInAgain(old(file.memory), filled, file.memory, pool.buffers, pool.bufferSize);
        if code.Failed? { return; }
        NarrowNext(n);
        n := n + 1;
        submitted := (submitted + 1) % UNSIGNED;
        offset := next;
        go := offset < end;
        if go {
          var stopped := stop.Poll();
          go := !stopped;
        }
      }
    }

    /** The scope guard: however the loop ended, nothing is left in flight - of copies that could be counted. */
    method DrainBlocks(device: DeviceStream, submitted: nat, ghost n: nat, ghost memory0: Memory)
      requires Staging(device, n, memory0) && device.block > 0 && submitted == Narrow(n)
      modifies this`deeds
      modifies device`retired, device`landed, device`failure, device`memory, device`results
      ensures Staging(device, n, memory0) && |device.queue| == n
      ensures n < UNSIGNED ==> device.retired == n
    {
      StagingMeans(device, n, memory0);
      DrainsAll(device, n);
      hide *;
      ghost var more := device.Drain(submitted, Extent());
      LandedBelow(device, n);
      LandCopies(device, n, more, old(device.landed), memory0, old(device.memory));
    }

    lemma DrainsAll(device: DeviceStream, n: nat)
      requires device.Valid() && |device.queue| == n
      ensures Narrow(n) <= n && device.retired <= n && (n < UNSIGNED ==> Narrow(n) == n)
    {
      NarrowBelow(n);
    }

    /** Blocks of this size that cover the range, and an `unsigned` can count. */
    predicate Countable(block: nat) { end <= start + (UNSIGNED - 1) * block }

    lemma CountedBlocks(queue: seq<Copy>, n: nat, block: nat)
      requires Submitted(queue, n, block) && block > 0 && Countable(block)
      ensures n < UNSIGNED
    {
      if n >= UNSIGNED { NextOrSame(UNSIGNED - 1, n - 1, block); }
    }

    /** The device reader. It leaves with no copy outstanding and no buffer kept; what it answered with
        Success had landed, and a failed copy anywhere is the batch's answer for all that did not. That is
        so for as many blocks as an `unsigned` counts. A batch of more is lost: the guard waits for too few
        copies, and the model ends where the code answers for bytes that may not have arrived. */
    method ReadToDevice(file: SourceFile, device: DeviceStream, pool: StagingPool, stop: StopFlag)
      returns (code: Code, ghost upTo: nat, ghost lost: bool)
      requires Valid() && Backed(start) && deeds == [] && 0 < device.block <= pool.bufferSize
      requires device.Valid() && device.queue == [] && device.failure.Success?
      modifies this`unfinished, this`finished, this`log, this`deeds, file, pool, stop
      modifies device`queue, device`retired, device`landed, device`failure, device`memory, device`results
      ensures lost ==> !Countable(device.block)
      ensures Reading(old(device.memory), device.memory, upTo)
      ensures device.Valid() && pool.held == old(pool.held) && (!lost ==> device.retired == |device.queue|)
      ensures OnlyIn(old(file.memory), file.memory, pool.buffers, pool.bufferSize)
      ensures device.failure.Failed? && !lost ==> code.Failed?
      ensures code.Failed? ==> StagingFault(code, file, pool) || code == device.failure || (code == FINISHED_ERROR && stop.raised)
      ensures code.Success? && !lost ==> AllFinished() && (tasks == [] || upTo == end)
    {
      upTo, lost := start, false;
      if tasks == [] { return Success, upTo, lost; }
      code := file.Seek(start);
      if code.Failed? { return; }
      var submitted;
      ghost var n;
      code, submitted, n := StageBlocks(file, device, pool, stop);
      DrainBlocks(device, submitted, n, old(device.memory));
      if Countable(device.block) { CountedBlocks(device.queue, n, device.block); }
      upTo := Offset(device.landed, device.block);
      lost := |device.queue| >= UNSIGNED;
      if code.Failed? || |device.queue| >= UNSIGNED { return; }
      if device.failure.Failed? { return device.failure, upTo, lost; }
      code := FinishReading(device.memory, stop, upTo, old(device.memory));
    }

    /** Every answer of Success so far has its bytes at the task's own destination. */
    ghost predicate Truthful(memory: Memory)
      reads this
    {
      AllInPlace(log, tasks, memory)
    }

    /** What was told with Success is in place, and no memory but the batch's own was touched. */
    lemma DeedsAreTruthful(memory0: Memory, memory: Memory, upTo: nat)
      requires Tracked(memory0, memory, upTo)
      ensures Truthful(memory) && Elsewhere(memory0, memory, Destination(), end - start)
    {
      ReplayBrings(memory0, tasks, Extent(), deeds);
      forall k | 0 <= k < |log| && log[k].code.Success?
        ensures TaskInPlace(tasks, log[k].task, memory)
      {
        ToldIsCovered(tasks, Extent(), deeds, k);
        hide Sound, Tells, Replay, Elsewhere, Tiles, Logged, Covers;
      }
    }

    /** handle_response, for reads whose completions come in any order: a success, whose bytes are written,
        answers its task, once; a failure answers nothing here, and ends the batch with its code. */
    method HandleResponse(ret: Code, i: nat) returns (code: Code)
      requires Valid() && Backed(end) && i < |tasks|
      requires ret.Success? ==> CoversRange(deeds, tasks[i].Destination(), tasks[i].info.size)
      modifies this`finished, this`log, this`deeds
      ensures Valid() && Backed(end) && code == ret
      ensures ret.Failed? ==> finished == old(finished) && log == old(log) && deeds == old(deeds)
      ensures ret.Success? ==> finished == old(finished)[i := true] &&
                               log == (if old(finished)[i] then old(log) else old(log) + [Finish(i, Success)]) &&
                               deeds == if old(finished)[i] then old(deeds) else old(deeds) + [Told(i, Success)]
    {
      code := ret;
      if ret.Failed? { return; }
      TilesPrefix(tasks, start, end, i);
      hide CoversRange, Valid, Backed;
      FinishTask(i, ret, end);
    }

    /** The memory the target is about. */
    static ghost function TargetMemory(target: Target, host: Memory, device: Memory): Memory {
      if target.Staged? then device else host
    }

    /** What reading for this target may do to the memory it is not about, or to all if it cannot be served. */
    static ghost predicate RestKept(target: Target, host0: Memory, host: Memory, device0: Memory, device: Memory,
                                    buffers: seq<nat>, size: nat) {
      && (target.Staged? ==> OnlyIn(host0, host, buffers, size))
      && (!target.Staged? ==> device == device0)
      && (target.Unstaged? || target.ObjectStorage? ==> host == host0)
    }

    /** The guarded part of execute: open the file and pick the reader. */
    method ReadTarget(file: SourceFile, device: DeviceStream, pool: StagingPool, stop: StopFlag, target: Target, block: nat)
      returns (code: Code, ghost upTo: nat, ghost lost: bool)
      requires Valid() && Backed(start) && deeds == [] && block > 0 && 0 < device.block <= pool.bufferSize
      requires file.error.Success? && pool.error.Success? && !pool.closed
      requires device.Valid() && device.queue == [] && device.failure.Success?
      modifies this`unfinished, this`finished, this`log, this`deeds, file, pool, stop
      modifies device`queue, device`retired, device`landed, device`failure, device`memory, device`results
      ensures lost ==> target.Staged? && !Countable(device.block)
      ensures Reading(TargetMemory(target, old(file.memory), old(device.memory)),
                      TargetMemory(target, file.memory, device.memory), upTo)
      ensures RestKept(target, old(file.memory), file.memory, old(device.memory), device.memory, pool.buffers, pool.bufferSize)
      ensures (!lost ==> device.retired == |device.queue|) && pool.held == old(pool.held)
      ensures code.Success? && !lost ==> AllFinished()
      ensures code.Failed? ==>
                || target.ObjectStorage? || target.Unstaged? || StagingFault(code, file, pool)
                || code == device.failure || (code == FINISHED_ERROR && stop.raised)
    {
      upTo, lost := start, false;
      NothingRead(file.memory);
      NothingRead(device.memory);
      OnlyInSame(file.memory, pool.buffers, pool.bufferSize);
      hide Valid, Backed, OnlyIn, Reading, Countable;
      if target.ObjectStorage? { return UNKNOWN_ERROR, upTo, lost; }
      code := file.Open();
      if code.Failed? { return; }
      if target.Host? {
        code, upTo := Read(file, stop, block);
      } else if target.Staged? {
        code, upTo, lost := ReadToDevice(file, device, pool, stop);
      } else {
        code := UNSUPPORTED_DEVICE_TYPE;
      }
    }

    lemma ReadingMeans(memory0: Memory, memory: Memory, upTo: nat)
      requires Reading(memory0, memory, upTo)
      ensures Tracked(memory0, memory, upTo) && Continues([], log, Success)
    {
    }

    lemma TrackedMeans(memory0: Memory, memory: Memory, upTo: nat)
      requires Tracked(memory0, memory, upTo)
      ensures Valid() && memory == Replay(memory0, deeds, Extent())
      ensures log == Tells(deeds) && Sound(tasks, Extent(), deeds)
    {
    }

    /** execute: pick the reader, and fail whatever it left with the error it ended with. Every task of
        the batch is finished, exactly once; those that say Success have their bytes in place; if the
        batch ends with Success all of them do, and it ends otherwise only for an error of the file, the
        pool or the device, a raised flag, or a target it cannot serve. The only memory it touches is the
        batch's own destination and, for a device, the host's staging buffers. A batch of more blocks than an
        `unsigned` counts is lost on a device; what it answers from then on is not described. */
    method Execute(file: SourceFile, device: DeviceStream, pool: StagingPool, stop: StopFlag, target: Target, block: nat)
      returns (code: Code, ghost lost: bool)
      requires Valid() && deeds == [] && block > 0 && 0 < device.block <= pool.bufferSize
      requires file.error.Success? && pool.error.Success? && !pool.closed
      requires device.Valid() && device.queue == [] && device.failure.Success?
      modifies this`unfinished, this`finished, this`log, this`deeds, file, pool, stop
      modifies device`queue, device`retired, device`landed, device`failure, device`memory, device`results
      ensures lost ==> target.Staged? && !Countable(device.block)
      ensures Valid() && Continues([], log, code) && (!lost ==> AllFinished())
      ensures log == Tells(deeds) && Sound(tasks, Extent(), deeds)
      ensures TargetMemory(target, file.memory, device.memory) ==
              Replay(TargetMemory(target, old(file.memory), old(device.memory)), deeds, Extent())
      ensures Truthful(TargetMemory(target, file.memory, device.memory))
      ensures Elsewhere(TargetMemory(target, old(file.memory), old(device.memory)), TargetMemory(target, file.memory, device.memory),
                        Destination(), end - start)
      ensures RestKept(target, old(file.memory), file.memory, old(device.memory), device.memory, pool.buffers, pool.bufferSize)
      ensures (!lost ==> device.retired == |device.queue|) && pool.held == old(pool.held)
      ensures code.Failed? ==>
                || target.ObjectStorage? || target.Unstaged? || StagingFault(code, file, pool)
                || code == device.failure || (code == FINISHED_ERROR && stop.raised)
    {
      ghost var upTo;
      code, upTo, lost := ReadTarget(file, device, pool, stop, target, block);
      ghost var memory0 := TargetMemory(target, old(file.memory), old(device.memory));
      ghost var memory := TargetMemory(target, file.memory, device.memory);
      ghost var log0 := log;
      ReadingMeans(memory0, memory, upTo);
      hide *;
      HandleError(code, upTo, memory0, memory);
      ContinuesOn([], log0, log, code);
      DeedsAreTruthful(memory0, memory, upTo);
      TrackedMeans(memory0, memory, upTo);
    }
  }

  lemma {:induction false} NarrowBelow(n: nat)
    ensures Narrow(n) <= n
  {
  }

  lemma {:induction false} NarrowNext(n: nat)
    ensures Narrow(n + 1) == (Narrow(n) + 1) % UNSIGNED
  {
  }

  lemma {:induction false} BlocksFit(size: nat, block: nat)
    requires block > 0
    ensures (size / block) * block <= size
    ensures size - (size / block) * block < block
  {
  }

  lemma {:induction false} NextBlock(i: nat, n: nat, block: nat)
    requires i < n
    ensures (i + 1) * block == i * block + block && (i + 1) * block <= n * block
  {
    assert n * block == (i + 1) * block + (n - i - 1) * block;
  }
}
