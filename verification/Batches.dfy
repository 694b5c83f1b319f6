/** Cutting one divided transfer into tasks, one batch per slice (cpp/streamer/impl/batches). */
module Batches {
  import opened Machine
  import opened Sequences
  import opened ReadTypes
  import opened ChunkSplitter

  datatype Batch = Batch(workload: nat, file: nat, tasks: seq<Task>, chunks: seq<Chunk>)

  /** A task and the batch, counted by slice, that reads it. */
  datatype Placed = Placed(batch: nat, task: Task)

  function BatchOf(p: Placed): nat { p.batch }

  function RangeOf(p: Placed): nat { p.task.request.index }

  function Tasks(placed: seq<Placed>): seq<Task> {
    if placed == [] then [] else Tasks(placed[..|placed| - 1]) + [placed[|placed| - 1].task]
  }

  lemma {:induction false} TasksAt(placed: seq<Placed>)
    ensures |Tasks(placed)| == |placed|
    ensures forall i :: 0 <= i < |placed| ==> Tasks(placed)[i] == placed[i].task
  {
    if placed != [] { TasksAt(placed[..|placed| - 1]); }
  }

  lemma TasksAppend(placed: seq<Placed>, p: Placed)
    ensures Tasks(placed + [p]) == Tasks(placed) + [p.task]
  {
    assert (placed + [p])[..|placed|] == placed;
  }

  /** Tiling by placed tasks, taken apart at the last one. */
  lemma TilesAtLast(placed: seq<Placed>, start: nat, end: nat)
    requires placed != []
    ensures
      var n := |placed| - 1;
      var last := placed[n].task.info;
      Tiles(Tasks(placed), start, end) <==> Tiles(Tasks(placed[..n]), start, last.offset) && last.End() == end
  {
    var n := |placed| - 1;
    assert placed == placed[..n] + [placed[n]];
    TasksAppend(placed[..n], placed[n]);
    assert Tasks(placed)[..|Tasks(placed)| - 1] == Tasks(placed[..n]);
  }

  lemma {:induction false} TasksConcatTile(a: seq<Placed>, b: seq<Placed>, start: nat, mid: nat, end: nat)
    requires Tiles(Tasks(a), start, mid) && Tiles(Tasks(b), mid, end)
    ensures Tiles(Tasks(a + b), start, end)
  {
    if b == [] {
      assert a + b == a;
    } else {
      var n := |b| - 1;
      TilesAtLast(b, mid, end);
      TasksConcatTile(a, b[..n], start, mid, b[n].task.info.offset);
      assert (a + b)[..|a| + n] == a + b[..n];
      TilesAtLast(a + b, start, end);
    }
  }

  function Clamp(x: nat, lo: nat, hi: nat): nat {
    if x < lo then lo else if x > hi then hi else x
  }

  ghost predicate KeyOwns(p: Placed, key: Placed -> nat, k: nat, lo: nat, hi: nat) {
    if key(p) == k then lo <= p.task.info.offset && p.task.info.End() <= hi
    else p.task.info.End() <= lo || hi <= p.task.info.offset
  }

  /** Tasks that tile a span, each lying wholly inside or wholly outside [lo, hi] by its key, still
      tile that interval once the key has selected them. */
  lemma {:induction false} KeyedTiling(placed: seq<Placed>, key: Placed -> nat, k: nat,
                                       start: nat, end: nat, lo: nat, hi: nat)
    requires Tiles(Tasks(placed), start, end) && start <= lo <= hi
    requires forall i :: 0 <= i < |placed| ==> KeyOwns(placed[i], key, k, lo, hi)
    ensures Tiles(Tasks(Select(placed, key, k)), lo, Clamp(end, lo, hi))
  {
    if placed != [] {
      var n := |placed| - 1;
      var p := placed[n];
      assert KeyOwns(p, key, k, lo, hi);
      TilesAtLast(placed, start, end);
      KeyedTiling(placed[..n], key, k, start, p.task.info.offset, lo, hi);
      if key(p) == k {
        var chosen := Select(placed[..n], key, k);
        TasksAppend(chosen, p);
        TilesAppend(Tasks(chosen), lo, p.task.info.offset, p.task);
      }
    }
  }

  /** Walks the slices of a transfer as bytes are consumed from it. */
  class BatchItr {
    const transfer: Transfer
    var current: nat
    var left: nat

    ghost predicate Valid()
      reads this
    {
      && Divided(transfer)
      && current < |transfer.tasks|
      && left <= transfer.tasks[current].size
    }

    /** The file offset of the next byte to hand out. */
    ghost function Position(): nat
      requires Valid()
      reads this
    {
      transfer.tasks[current].offset + (transfer.tasks[current].size - left)
    }

    constructor (t: Transfer)
      requires Divided(t)
      ensures Valid() && transfer == t && Position() == t.offset
    {
      transfer := t;
      current := 0;
      left := t.tasks[0].size;
      SlicesPrefix(t.tasks, t.offset, t.offset + t.size, 0);
    }

    /** Hands out at most `bytes`, never past the end of the slice it hands them out of, and never
        nothing when something was asked for. */
    method Consume(bytes: nat) returns (toRead: nat)
      requires Valid() && Position() + bytes <= transfer.offset + transfer.size
      modifies this
      ensures Valid()
      ensures toRead <= bytes && (bytes > 0 ==> toRead > 0)
      ensures Position() == old(Position()) + toRead
      ensures transfer.tasks[current].offset <= old(Position())
      ensures toRead == bytes || Position() == transfer.tasks[current].offset + transfer.tasks[current].size
      ensures bytes == 0 ==> current == old(current)
    {
      if left == 0 && bytes > 0 {
        NextSlice();
        current := current + 1;
        left := transfer.tasks[current].size;
      }
      toRead := if left < bytes then left else bytes;
      left := left - toRead;
    }

    lemma NextSlice()
      requires Valid() && left == 0 && Position() < transfer.offset + transfer.size
      ensures current + 1 < |transfer.tasks|
      ensures transfer.tasks[current + 1].offset == Position() && transfer.tasks[current + 1].size > 0
    {
      SlicesPrefix(transfer.tasks, transfer.offset, transfer.offset + transfer.size, current);
      if current + 1 < |transfer.tasks| {
        SlicesPrefix(transfer.tasks, transfer.offset, transfer.offset + transfer.size, current + 1);
      }
    }
  }

  /** One range cut into tasks: they tile it, none crosses a slice or a chunk boundary, and each
      knows its range and its own place in it. */
  ghost predicate Cut(t: Transfer, r: Request, placed: seq<Placed>, c: nat)
    requires c > 0
  {
    && placed != [] && r.tasks == Narrow(|placed|)
    && Tiles(Tasks(placed), r.offset, r.offset + r.size)
    && (r.size == 0 ==> |placed| == 1)
    && (forall i :: 0 <= i < |placed| ==> CutTask(t, r, placed[i], c))
  }

  ghost predicate CutTask(t: Transfer, r: Request, p: Placed, c: nat)
    requires c > 0
  {
    && p.task.request == r
    && r.offset <= p.task.info.offset
    && p.task.info.relative == p.task.info.offset - r.offset
    && WithinCell(p.task.info, c)
    && p.batch < |t.tasks|
    && t.tasks[p.batch].offset <= p.task.info.offset
    && p.task.info.End() <= t.tasks[p.batch].offset + t.tasks[p.batch].size
    && StopsRight(r, p.task.info, t.tasks[p.batch].offset + t.tasks[p.batch].size, c)
  }

  /** A piece is cut only where it has to be: where the range ends, at a chunk boundary, or where the
      slice ends. It is never empty unless the range is. */
  ghost predicate StopsRight(r: Request, info: Info, sliceEnd: nat, c: nat)
    requires c > 0
  {
    && (r.size > 0 ==> info.size > 0)
    && (info.End() == r.offset + r.size || info.End() % c == 0 || info.End() == sliceEnd)
  }

  lemma {:induction false} BoundaryIsMultiple(offset: nat, c: nat)
    requires c > 0
    ensures (offset + ToBoundary(offset, c)) % c == 0
  {
    var q := offset / c;
    assert offset == q * c + offset % c;
    assert offset + ToBoundary(offset, c) == (q + 1) * c;
    MultipleOf(q + 1, c);
  }

  lemma {:induction false} MultipleOf(q: nat, c: nat)
    requires c > 0
    ensures (q * c) % c == 0
  {
    var p, r := (q * c) / c, (q * c) % c;
    assert q * c == p * c + r;
    if p < q {
      MulMonotone(p + 1, q, c);
      MulMonotone(p, p, c);
    } else {
      MulMonotone(q, p, c);
    }
  }

  function ToBoundary(offset: nat, c: nat): (r: nat)
    requires c > 0
    ensures 0 < r <= c
  {
    c - offset % c
  }

  /** Taking no more than what is left of the cell keeps the task inside it. */
  lemma StaysInCell(offset: nat, size: nat, c: nat)
    requires c > 0 && size <= ToBoundary(offset, c)
    ensures WithinCell(Info(offset, size, 0), c)
  {
    if size > 0 {
      assert CellEnd(offset, c) == offset - offset % c + c by {
        assert (offset / c + 1) * c == offset / c * c + c;
      }
      CellBoundary(offset, offset + size - 1, c);
    }
  }

  ghost function Shape(infos: seq<(nat, Info)>, r: Request): (placed: seq<Placed>)
    ensures |placed| == |infos|
    ensures forall i :: 0 <= i < |infos| ==> placed[i] == Placed(infos[i].0, Task(r, infos[i].1))
  {
    if infos == [] then []
    else
      var n := |infos| - 1;
      Shape(infos[..n], r) + [Placed(infos[n].0, Task(r, infos[n].1))]
  }

  ghost predicate CutSoFar(t: Transfer, r: Request, placed: seq<Placed>, c: nat, reached: nat)
    requires c > 0
  {
    && Tiles(Tasks(placed), r.offset, reached)
    && forall i :: 0 <= i < |placed| ==> CutTask(t, r, placed[i], c)
  }

  lemma {:induction false} CutNext(t: Transfer, r: Request, infos: seq<(nat, Info)>, c: nat, reached: nat, batch: nat, size: nat)
    requires c > 0 && r.offset <= reached && CutSoFar(t, r, Shape(infos, r), c, reached)
    requires size <= ToBoundary(reached, c)
    requires batch < |t.tasks| && t.tasks[batch].offset <= reached
    requires reached + size <= t.tasks[batch].offset + t.tasks[batch].size
    requires StopsRight(r, Info(reached, size, reached - r.offset), t.tasks[batch].offset + t.tasks[batch].size, c)
    ensures CutSoFar(t, r, Shape(infos + [(batch, Info(reached, size, reached - r.offset))], r), c, reached + size)
  {
    var info := Info(reached, size, reached - r.offset);
    assert (infos + [(batch, info)])[..|infos|] == infos;
    var before, p := Shape(infos, r), Placed(batch, Task(r, info));
    StaysInCell(reached, size, c);
    TasksAppend(before, p);
    TilesAppend(Tasks(before), r.offset, reached, p.task);
  }

  /** One pass of handle_request's loop: cut at the next chunk boundary and at the slice boundary
      that Consume applies. */
  method CutOne(itr: BatchItr, infos: seq<(nat, Info)>, taskOffset: nat, dstOffset: nat, bytesToRequest: nat, c: nat,
                ghost r: Request)
    returns (more: seq<(nat, Info)>, toRead: nat)
    requires c > 0 && itr.Valid() && itr.Position() == taskOffset == r.offset + dstOffset
    requires taskOffset + bytesToRequest == r.offset + r.size <= itr.transfer.offset + itr.transfer.size
    requires r.size > 0 ==> bytesToRequest > 0
    requires CutSoFar(itr.transfer, r, Shape(infos, r), c, taskOffset)
    modifies itr
    ensures itr.Valid() && itr.Position() == taskOffset + toRead
    ensures toRead <= bytesToRequest && (bytesToRequest > 0 ==> toRead > 0)
    ensures |more| == |infos| + 1 && more[|infos|].0 == itr.current
    ensures bytesToRequest == 0 ==> itr.current == old(itr.current)
    ensures CutSoFar(itr.transfer, r, Shape(more, r), c, taskOffset + toRead)
  {
    var toChunkBoundary := ToBoundary(taskOffset, c);
    var want := if bytesToRequest < toChunkBoundary then bytesToRequest else toChunkBoundary;
    toRead := itr.Consume(want);
    BoundaryIsMultiple(taskOffset, c);
    CutNext(itr.transfer, r, infos, c, taskOffset, itr.current, toRead);
    more := infos + [(itr.current, Info(taskOffset, toRead, dstOffset))];
  }

  /** The do-while of handle_request: at least one pass, until the range is used up. */
  method CutRange(itr: BatchItr, offset: nat, size: nat, c: nat, ghost r: Request)
    returns (infos: seq<(nat, Info)>)
    requires c > 0 && itr.Valid() && itr.Position() == offset == r.offset && r.size == size
    requires offset + size <= itr.transfer.offset + itr.transfer.size
    modifies itr
    ensures itr.Valid() && itr.Position() == offset + size
    ensures infos != [] && (size == 0 ==> |infos| == 1)
    ensures infos[|infos| - 1].0 == itr.current && (size == 0 ==> itr.current == old(itr.current))
    ensures CutSoFar(itr.transfer, r, Shape(infos, r), c, offset + size)
  {
    infos := [];
    var bytesToRequest: nat, taskOffset: nat, dstOffset: nat := size, offset, 0;
    var again := true;
    while again
      invariant itr.Valid() && itr.Position() == taskOffset
      invariant taskOffset == offset + dstOffset && dstOffset + bytesToRequest == size
      invariant again ==> bytesToRequest > 0 || (size == 0 && infos == [])
      invariant !again ==> bytesToRequest == 0 && infos != [] && (size == 0 ==> |infos| == 1)
      invariant infos != [] ==> infos[|infos| - 1].0 == itr.current
      invariant size == 0 ==> itr.current == old(itr.current)
      invariant CutSoFar(itr.transfer, r, Shape(infos, r), c, taskOffset)
      decreases bytesToRequest, again
    {
      var toRead: nat;
      infos, toRead := CutOne(itr, infos, taskOffset, dstOffset, bytesToRequest, c, r);
      taskOffset := taskOffset + toRead;
      bytesToRequest := bytesToRequest - toRead;
      dstOffset := dstOffset + toRead;
      again := bytesToRequest > 0;
    }
  }

  /** The closing loop of handle_request: each info becomes a task of its slice's batch. */
  method CreateTasks(infos: seq<(nat, Info)>, request: Request, vTasks: seq<seq<Task>>) returns (result: seq<seq<Task>>)
    requires forall i :: 0 <= i < |infos| ==> infos[i].0 < |vTasks|
    ensures |result| == |vTasks|
    ensures forall k :: 0 <= k < |vTasks| ==> result[k] == vTasks[k] + Tasks(Select(Shape(infos, request), BatchOf, k))
  {
    result := vTasks;
    ghost var placed := [];
    for i := 0 to |infos|
      invariant placed == Shape(infos, request)[..i] && |result| == |vTasks|
      invariant forall k :: 0 <= k < |vTasks| ==> result[k] == vTasks[k] + Tasks(Select(placed, BatchOf, k))
    {
      var (batch, info) := infos[i];
      var task := Task(request, info);
      Distribute(vTasks, result, placed, Placed(batch, task));
      result := result[batch := result[batch] + [task]];
      placed := placed + [Placed(batch, task)];
    }
    assert Shape(infos, request)[..|infos|] == Shape(infos, request);
  }

  lemma {:induction false} CutTaskFilled(t: Transfer, p: Placed, r: Request, n: nat, c: nat)
    requires c > 0 && CutTask(t, r, p, c)
    ensures CutTask(t, r.(tasks := n), Placed(p.batch, Task(r.(tasks := n), p.task.info)), c)
    ensures p.batch < |t.tasks|
  {
  }

  lemma {:induction false} ShapeTiles(infos: seq<(nat, Info)>, draft: Request, r: Request, start: nat, end: nat)
    requires Tiles(Tasks(Shape(infos, draft)), start, end)
    ensures Tiles(Tasks(Shape(infos, r)), start, end)
  {
    SameShape(Shape(infos, draft), Shape(infos, r), start, end);
  }

  lemma {:induction false} ShapeCutTasks(t: Transfer, infos: seq<(nat, Info)>, draft: Request, n: nat, c: nat)
    requires c > 0 && forall i :: 0 <= i < |infos| ==> CutTask(t, draft, Shape(infos, draft)[i], c)
    ensures
      var r := draft.(tasks := n);
      forall i :: 0 <= i < |infos| ==> CutTask(t, r, Shape(infos, r)[i], c) && infos[i].0 < |t.tasks|
  {
    var r := draft.(tasks := n);
    var before, after := Shape(infos, draft), Shape(infos, r);
    hide Shape, CutTask;
    forall i | 0 <= i < |infos|
      ensures CutTask(t, r, after[i], c) && infos[i].0 < |t.tasks|
    {
      CutTaskFilled(t, before[i], draft, n, c);
    }
  }

  lemma {:induction false} ShapeCut(t: Transfer, infos: seq<(nat, Info)>, draft: Request, c: nat)
    requires c > 0 && CutSoFar(t, draft, Shape(infos, draft), c, draft.offset + draft.size)
    requires infos != [] && (draft.size == 0 ==> |infos| == 1)
    ensures
      var r := draft.(tasks := Narrow(|infos|));
      Cut(t, r, Shape(infos, r), c)
    ensures forall i :: 0 <= i < |infos| ==> infos[i].0 < |t.tasks|
  {
    var r := draft.(tasks := Narrow(|infos|));
    ShapeTiles(infos, draft, r, draft.offset, draft.offset + draft.size);
    ShapeCutTasks(t, infos, draft, Narrow(|infos|), c);
    hide Shape, CutTask, Tiles, Tasks;
  }

  method HandleRequest(itr: BatchItr, vTasks: seq<seq<Task>>, file: nat, index: nat,
                       offset: nat, size: nat, dst: nat, c: nat)
    returns (result: seq<seq<Task>>, ghost request: Request, ghost placed: seq<Placed>)
    requires c > 0 && itr.Valid() && itr.Position() == offset
    requires offset + size <= itr.transfer.offset + itr.transfer.size
    requires |vTasks| == |itr.transfer.tasks|
    modifies itr
    ensures itr.Valid() && itr.Position() == offset + size
    ensures request == Request(offset, file, index, Narrow(|placed|), size, dst)
    ensures Cut(itr.transfer, request, placed, c)
    ensures placed != [] && placed[|placed| - 1].batch == itr.current
    ensures size == 0 ==> placed[0].batch == old(itr.current)
    ensures |result| == |vTasks|
    ensures forall k :: 0 <= k < |vTasks| ==> result[k] == vTasks[k] + Tasks(Select(placed, BatchOf, k))
  {
    ghost var draft := Request(offset, file, index, 0, size, dst);
    var infos := CutRange(itr, offset, size, c, draft);
    var requestPtr := Request(offset, file, index, Narrow(|infos|), size, dst);
    ShapeCut(itr.transfer, infos, draft, c);
    request, placed := requestPtr, Shape(infos, requestPtr);
    result := CreateTasks(infos, requestPtr, vTasks);
  }

  lemma Distribute(vTasks: seq<seq<Task>>, before: seq<seq<Task>>, placed: seq<Placed>, p: Placed)
    requires |before| == |vTasks| && p.batch < |vTasks|
    requires forall k :: 0 <= k < |vTasks| ==> before[k] == vTasks[k] + Tasks(Select(placed, BatchOf, k))
    ensures
      var after := before[p.batch := before[p.batch] + [p.task]];
      forall k :: 0 <= k < |vTasks| ==> after[k] == vTasks[k] + Tasks(Select(placed + [p], BatchOf, k))
  {
    forall k | 0 <= k < |vTasks|
      ensures before[p.batch := before[p.batch] + [p.task]][k] == vTasks[k] + Tasks(Select(placed + [p], BatchOf, k))
    {
      SelectAppend(placed, p, BatchOf, k);
      if k == p.batch { TasksAppend(Select(placed, BatchOf, k), p); }
    }
  }

  /** Tiling looks only at offsets and sizes, so it survives the request being filled in. */
  lemma {:induction false} SameShape(a: seq<Placed>, b: seq<Placed>, start: nat, end: nat)
    requires Tiles(Tasks(a), start, end) && |a| == |b|
    requires forall i :: 0 <= i < |a| ==> a[i].task.info == b[i].task.info
    ensures Tiles(Tasks(b), start, end)
  {
    if a != [] {
      var n := |a| - 1;
      TilesAtLast(a, start, end);
      SameShape(a[..n], b[..n], start, a[n].task.info.offset);
      TilesAtLast(b, start, end);
    }
  }

  lemma {:induction false} TasksConcat(a: seq<Placed>, b: seq<Placed>)
    ensures Tasks(a + b) == Tasks(a) + Tasks(b)
  {
    if b == [] {
      assert a + b == a;
    } else {
      var n := |b| - 1;
      assert a + b == (a + b[..n]) + [b[n]];
      TasksConcat(a, b[..n]);
      TasksAppend(a + b[..n], b[n]);
    }
  }

  /** The request that answers the j-th range of t, cut into n tasks. */
  function RequestFor(t: Transfer, j: nat, n: nat): Request
    requires j < |t.rangeSizes|
  {
    Request(RangeOffset(t, j), t.file, t.firstRange + j, Narrow(n), t.rangeSizes[j], RangeDst(t, j))
  }

  /** The tasks of range j, wherever they were placed, are exactly one cut of that range. */
  ghost predicate RangeCut(t: Transfer, placed: seq<Placed>, j: nat, c: nat)
    requires c > 0 && j < |t.rangeSizes|
  {
    var own := Select(placed, RangeOf, t.firstRange + j);
    Cut(t, RequestFor(t, j, |own|), own, c)
  }

  ghost predicate CutUpTo(t: Transfer, placed: seq<Placed>, c: nat, i: nat)
    requires c > 0 && i <= |t.rangeSizes|
  {
    && Tiles(Tasks(placed), t.offset, RangeOffset(t, i))
    && (forall j :: 0 <= j < i ==> RangeCut(t, placed, j, c))
    && RangesBelow(t, placed, 0, i)
  }

  ghost predicate RangesBelow(t: Transfer, placed: seq<Placed>, lo: nat, hi: nat) {
    forall n :: 0 <= n < |placed| ==> t.firstRange + lo <= RangeOf(placed[n]) < t.firstRange + hi
  }

  lemma CutKeys(t: Transfer, r: Request, more: seq<Placed>, c: nat, i: nat)
    requires c > 0 && Cut(t, r, more, c) && r.index == t.firstRange + i
    ensures RangesBelow(t, more, i, i + 1)
  {
    forall n | 0 <= n < |more|
      ensures RangeOf(more[n]) == t.firstRange + i
    {
      assert CutTask(t, r, more[n], c);
    }
  }

  /** Ranges already cut keep their cut, and the new range's selection is exactly its own cut. */
  lemma RangeCutKept(t: Transfer, placed: seq<Placed>, more: seq<Placed>, c: nat, i: nat, j: nat)
    requires c > 0 && j <= i < |t.rangeSizes|
    requires RangesBelow(t, placed, 0, i) && RangesBelow(t, more, i, i + 1)
    requires if j < i then RangeCut(t, placed, j, c) else Cut(t, RequestFor(t, i, |more|), more, c)
    ensures RangeCut(t, placed + more, j, c)
  {
    var k := t.firstRange + j;
    assert Select(placed + more, RangeOf, k) == if j < i then Select(placed, RangeOf, k) else more by {
      SelectConcat(placed, more, RangeOf, k);
      if j < i {
        SelectNone(more, RangeOf, k);
      } else {
        SelectAll(more, RangeOf, k);
        SelectNone(placed, RangeOf, k);
      }
    }
  }

  lemma CutUpToNext(t: Transfer, placed: seq<Placed>, more: seq<Placed>, c: nat, i: nat)
    requires c > 0 && i < |t.rangeSizes| && CutUpTo(t, placed, c, i)
    requires Cut(t, RequestFor(t, i, |more|), more, c)
    ensures CutUpTo(t, placed + more, c, i + 1)
  {
    SumPrefixStep(t.rangeSizes, i);
    TasksConcatTile(placed, more, t.offset, RangeOffset(t, i), RangeOffset(t, i + 1));
    CutKeys(t, RequestFor(t, i, |more|), more, c, i);
    forall j | 0 <= j < i + 1
      ensures RangeCut(t, placed + more, j, c)
    {
      RangeCutKept(t, placed, more, c, i, j);
    }
  }

  lemma {:induction false} PlacedIsCut(t: Transfer, placed: seq<Placed>, c: nat, n: nat)
    requires c > 0 && CutUpTo(t, placed, c, |t.rangeSizes|) && n < |placed|
    ensures
      var j := RangeOf(placed[n]) - t.firstRange;
      && 0 <= j < |t.rangeSizes|
      && CutTask(t, RequestFor(t, j, |Select(placed, RangeOf, t.firstRange + j)|), placed[n], c)
  {
    var j := RangeOf(placed[n]) - t.firstRange;
    var own := Select(placed, RangeOf, t.firstRange + j);
    SelectMembers(placed, RangeOf, t.firstRange + j);
    hide CutTask, Select, RequestFor, Weight;
    assert placed[n] in placed;
    assert placed[n] in own;
    var m :| 0 <= m < |own| && own[m] == placed[n];
    assert RangeCut(t, placed, j, c);
    assert CutTask(t, RequestFor(t, j, |own|), own[m], c);
  }

  /** What one slice's batch must be: the tasks of that slice in file order, tiling it, cut on the
      grid, each landing in its own place of the transfer's buffer, and grouped into chunks. */
  ghost predicate BatchFor(t: Transfer, slice: FileReadTask, batch: Batch, c: nat)
    requires c > 0
  {
    && batch.workload == slice.workload && batch.file == t.file
    && batch.tasks != []
    && Tiles(batch.tasks, slice.offset, slice.offset + slice.size)
    && InStep(batch.tasks, t.offset, t.dst)
    && CutOnGrid(batch.tasks, c)
    && Grouping(batch.tasks, batch.chunks, c)
  }

  lemma SliceTiles(t: Transfer, placed: seq<Placed>, c: nat, k: nat)
    requires c > 0 && Divided(t) && k < |t.tasks| && Sum(t.rangeSizes) == t.size
    requires CutUpTo(t, placed, c, |t.rangeSizes|)
    ensures Tiles(Tasks(Select(placed, BatchOf, k)), t.tasks[k].offset, t.tasks[k].offset + t.tasks[k].size)
  {
    var lo, hi, end := t.tasks[k].offset, t.tasks[k].offset + t.tasks[k].size, t.offset + t.size;
    assert t.rangeSizes[..|t.rangeSizes|] == t.rangeSizes;
    SlicesPrefix(t.tasks, t.offset, end, k);
    forall n | 0 <= n < |placed|
      ensures KeyOwns(placed[n], BatchOf, k, lo, hi)
    {
      PlacedIsCut(t, placed, c, n);
      var b := placed[n].batch;
      if b < k { SlicesApart(t.tasks, t.offset, end, b, k); }
      if b > k { SlicesApart(t.tasks, t.offset, end, k, b); }
    }
    KeyedTiling(placed, BatchOf, k, t.offset, end, lo, hi);
  }

  lemma PlacedInStep(t: Transfer, placed: seq<Placed>, c: nat, n: nat)
    requires c > 0 && CutUpTo(t, placed, c, |t.rangeSizes|) && n < |placed|
    ensures WithinCell(placed[n].task.info, c)
    ensures t.offset <= placed[n].task.info.offset
    ensures placed[n].task.Destination() == t.dst + (placed[n].task.info.offset - t.offset)
  {
    PlacedIsCut(t, placed, c, n);
  }

  /** Every slice is given a task: by its bytes, or, when the transfer has none, by its first range. */
  lemma SliceNotEmpty(t: Transfer, placed: seq<Placed>, c: nat, k: nat)
    requires c > 0 && Divided(t) && k < |t.tasks| && Sum(t.rangeSizes) == t.size && t.rangeSizes != []
    requires CutUpTo(t, placed, c, |t.rangeSizes|)
    ensures Select(placed, BatchOf, k) != []
  {
    assert SliceOf(t, t.tasks[k]);
    if t.size > 0 {
      SliceTiles(t, placed, c, k);
    } else {
      var first := Select(placed, RangeOf, t.firstRange);
      assert RangeCut(t, placed, 0, c);
      SelectMembers(placed, RangeOf, t.firstRange);
      SelectMembers(placed, BatchOf, k);
      assert first[0] in first;
      var m :| 0 <= m < |placed| && placed[m] == first[0];
      PlacedIsCut(t, placed, c, m);
      assert placed[m] in Select(placed, BatchOf, k);
    }
  }

  lemma SliceTasks(t: Transfer, placed: seq<Placed>, c: nat, k: nat)
    requires c > 0 && Divided(t) && k < |t.tasks| && Sum(t.rangeSizes) == t.size && t.rangeSizes != []
    requires CutUpTo(t, placed, c, |t.rangeSizes|)
    ensures
      var tasks := Tasks(Select(placed, BatchOf, k));
      && tasks != []
      && Tiles(tasks, t.tasks[k].offset, t.tasks[k].offset + t.tasks[k].size)
      && InStep(tasks, t.offset, t.dst)
      && CutOnGrid(tasks, c)
  {
    var own := Select(placed, BatchOf, k);
    SliceTiles(t, placed, c, k);
    SliceNotEmpty(t, placed, c, k);
    TasksAt(own);
    SelectMembers(placed, BatchOf, k);
    forall n | 0 <= n < |own|
      ensures WithinCell(own[n].task.info, c)
      ensures t.offset <= own[n].task.info.offset
      ensures own[n].task.Destination() == t.dst + (own[n].task.info.offset - t.offset)
    {
      assert own[n] in own;
      var m :| 0 <= m < |placed| && placed[m] == own[n];
      PlacedInStep(t, placed, c, m);
    }
  }

  /** A transfer's plan: one batch per slice, holding that slice's share of the placed tasks. */
  ghost predicate Planned(t: Transfer, c: nat, batches: seq<Batch>, placed: seq<Placed>)
    requires c > 0
  {
    && |batches| == |t.tasks|
    && CutUpTo(t, placed, c, |t.rangeSizes|)
    && (forall k :: 0 <= k < |batches| ==>
          && BatchFor(t, t.tasks[k], batches[k], c) && |batches[k].tasks| < UNSIGNED
          && batches[k].tasks == Tasks(Select(placed, BatchOf, k)))
  }

  lemma {:induction false} SharesGrow(placed: seq<Placed>, more: seq<Placed>)
    ensures forall k: nat ::
      Tasks(Select(placed + more, BatchOf, k)) == Tasks(Select(placed, BatchOf, k)) + Tasks(Select(more, BatchOf, k))
  {
    forall k: nat
      ensures Tasks(Select(placed + more, BatchOf, k)) == Tasks(Select(placed, BatchOf, k)) + Tasks(Select(more, BatchOf, k))
    {
      SelectConcat(placed, more, BatchOf, k);
      TasksConcat(Select(placed, BatchOf, k), Select(more, BatchOf, k));
    }
  }

  /* ---- where empty tasks go ---- */

  predicate Empty(p: Placed) { p.task.info.size == 0 }

  /** The last task of its range. */
  function EndsRange(p: Placed): nat {
    if p.task.info.End() == p.task.request.offset + p.task.request.size then 1 else 0
  }

  /** An empty task never moves on to another slice. */
  ghost predicate Steady(placed: seq<Placed>) {
    forall n, m :: 0 <= n < m < |placed| && m == n + 1 && Empty(placed[m]) ==> placed[m].batch == placed[n].batch
  }

  /** The m-th task is empty, and the one before it leaves a chunk of the last cell open. */
  ghost predicate PlacedTripsAt(placed: seq<Placed>, c: nat, m: nat)
    requires c > 0
  {
    && 0 < m < |placed| && Empty(placed[m])
    && if Empty(placed[m - 1]) then m == 1 && InLastCell(placed[m].task.info.offset, c)
       else InLastCell(placed[m - 1].task.info.offset, c)
  }

  ghost predicate PlacedTrips(placed: seq<Placed>, c: nat)
    requires c > 0
  {
    exists m: nat :: PlacedTripsAt(placed, c, m)
  }

  /** The j-th range of the transfer is empty and follows either a range whose last byte is in the last cell,
      or the transfer's first, itself empty and in the last cell. */
  ghost predicate TransferTripsAt(t: Transfer, c: nat, j: nat)
    requires c > 0
  {
    && 0 < j < |t.rangeSizes| && t.rangeSizes[j] == 0
    && if t.rangeSizes[j - 1] > 0 then InLastCell(RangeOffset(t, j - 1) + t.rangeSizes[j - 1] - 1, c)
       else j == 1 && InLastCell(RangeOffset(t, j), c)
  }

  ghost predicate TransferTrips(t: Transfer, c: nat, i: nat)
    requires c > 0
  {
    exists j: nat :: j < i && TransferTripsAt(t, c, j)
  }

  /** How the tasks of the first i ranges are arranged. */
  ghost predicate Arranged(t: Transfer, placed: seq<Placed>, c: nat, i: nat)
    requires c > 0 && i <= |t.rangeSizes|
  {
    && Steady(placed) && Weight(placed, EndsRange) == i <= |placed|
    && (i == 0 ==> placed == [])
    && (i > 0 ==> LastOf(t, placed[|placed| - 1].task.info, c, i - 1))
    && (i == 1 && t.rangeSizes[0] == 0 ==> |placed| == 1)
    && (PlacedTrips(placed, c) <==> TransferTrips(t, c, i))
  }

  /** The task ends the j-th range. */
  ghost predicate LastOf(t: Transfer, info: Info, c: nat, j: nat)
    requires c > 0 && j < |t.rangeSizes|
  {
    && (info.size == 0 <==> t.rangeSizes[j] == 0) && WithinCell(info, c)
    && info.End() == RangeOffset(t, j) + t.rangeSizes[j]
  }

  lemma {:induction false} CutEnds(t: Transfer, r: Request, more: seq<Placed>, c: nat, n: nat)
    requires c > 0 && Cut(t, r, more, c) && n <= |more|
    ensures Weight(more[..n], EndsRange) == if n < |more| then 0 else 1
  {
    if n > 0 {
      CutEnds(t, r, more, c, n - 1);
      assert more[..n] == more[..n - 1] + [more[n - 1]];
      WeightAppend(more[..n - 1], more[n - 1], EndsRange);
      CutEndsAt(t, r, more, c, n - 1);
      hide Cut, EndsRange;
    }
  }

  /** Only the last task of a range ends it. */
  lemma {:induction false} CutEndsAt(t: Transfer, r: Request, more: seq<Placed>, c: nat, n: nat)
    requires c > 0 && Cut(t, r, more, c) && n < |more|
    ensures EndsRange(more[n]) == if n + 1 < |more| then 0 else 1
    ensures Empty(more[n]) <==> r.size == 0
  {
    TasksAt(more);
    assert CutTask(t, r, more[n], c);
    TilesPrefix(Tasks(more), r.offset, r.offset + r.size, n);
    if n + 1 < |more| {
      assert CutTask(t, r, more[n + 1], c);
      TilesPrefix(Tasks(more), r.offset, r.offset + r.size, n + 1);
      TilesMonotone(Tasks(more), r.offset, r.offset + r.size, n, n + 1);
      TilesAdjacent(Tasks(more), r.offset, r.offset + r.size, n + 1);
    }
  }

  /** What one more range adds: its tasks are all empty or none is, an empty one stays where the last task
      went, and only its last one ends it. */
  ghost predicate AddsRange(t: Transfer, placed: seq<Placed>, more: seq<Placed>, c: nat, i: nat)
    requires c > 0 && i < |t.rangeSizes|
  {
    && more != [] && (t.rangeSizes[i] == 0 ==> |more| == 1)
    && (forall n :: 0 <= n < |more| ==> (Empty(more[n]) <==> t.rangeSizes[i] == 0))
    && (t.rangeSizes[i] == 0 && placed != [] ==> more[0].batch == placed[|placed| - 1].batch)
    && (t.rangeSizes[i] == 0 ==> more[0].task.info.offset == RangeOffset(t, i))
    && Weight(more, EndsRange) == 1 && LastOf(t, more[|more| - 1].task.info, c, i)
  }

  lemma {:induction false} CutAddsRange(t: Transfer, placed: seq<Placed>, more: seq<Placed>, c: nat, i: nat)
    requires c > 0 && i < |t.rangeSizes| && Cut(t, RequestFor(t, i, |more|), more, c)
    requires t.rangeSizes[i] == 0 && placed != [] ==> more[0].batch == placed[|placed| - 1].batch
    ensures AddsRange(t, placed, more, c, i)
  {
    var r := RequestFor(t, i, |more|);
    forall n | 0 <= n < |more|
      ensures Empty(more[n]) <==> t.rangeSizes[i] == 0
    {
      CutEndsAt(t, r, more, c, n);
    }
    CutEnds(t, r, more, c, |more|);
    assert more[..|more|] == more;
    CutSpans(t, r, more, c);
    hide Weight, EndsRange, CutTask, Tiles;
  }

  /** A cut begins where its range does, and ends with it in a task of one cell. */
  lemma {:induction false} CutSpans(t: Transfer, r: Request, more: seq<Placed>, c: nat)
    requires c > 0 && Cut(t, r, more, c)
    ensures more != [] && (r.size == 0 ==> |more| == 1)
    ensures more[0].task.info.offset == r.offset
    ensures more[|more| - 1].task.info.End() == r.offset + r.size && WithinCell(more[|more| - 1].task.info, c)
    ensures r.offset <= more[|more| - 1].task.info.offset
  {
    TasksAt(more);
    TilesAdjacent(Tasks(more), r.offset, r.offset + r.size, 0);
    assert CutTask(t, r, more[|more| - 1], c);
    hide StopsRight;
  }

  lemma {:induction false} SteadyNext(t: Transfer, placed: seq<Placed>, more: seq<Placed>, c: nat, i: nat)
    requires c > 0 && i < |t.rangeSizes| && Steady(placed) && AddsRange(t, placed, more, c, i)
    ensures Steady(placed + more)
  {
    hide Weight, LastOf, RangeOffset, Empty;
  }

  /** A range of bytes adds nothing that trips. */
  lemma {:induction false} BytesTripNot(t: Transfer, placed: seq<Placed>, more: seq<Placed>, c: nat, i: nat)
    requires c > 0 && i < |t.rangeSizes| && AddsRange(t, placed, more, c, i) && t.rangeSizes[i] > 0
    ensures PlacedTrips(placed + more, c) <==> PlacedTrips(placed, c)
    ensures TransferTrips(t, c, i + 1) <==> TransferTrips(t, c, i)
  {
    hide Weight, LastOf, InLastCell;
    var all := placed + more;
    forall m: nat | PlacedTripsAt(all, c, m)
      ensures PlacedTripsAt(placed, c, m)
    {
    }
    forall m: nat | PlacedTripsAt(placed, c, m)
      ensures PlacedTripsAt(all, c, m)
    {
    }
    forall j: nat | j < i && TransferTripsAt(t, c, j)
      ensures TransferTrips(t, c, i + 1)
    {
    }
  }

  /** An empty range adds one task that may, and that trips exactly when the range does. */
  lemma {:induction false} EmptyTrips(t: Transfer, placed: seq<Placed>, more: seq<Placed>, c: nat, i: nat)
    requires c > 0 && i < |t.rangeSizes| && AddsRange(t, placed, more, c, i) && t.rangeSizes[i] == 0
    requires Arranged(t, placed, c, i)
    ensures PlacedTrips(placed + more, c) <==> TransferTrips(t, c, i + 1)
  {
    var all, m := placed + more, |placed|;
    EmptyTripsHere(t, placed, more, c, i);
    hide Weight, LastOf, InLastCell, Steady;
    forall n: nat | PlacedTripsAt(all, c, n) && n != m
      ensures PlacedTripsAt(placed, c, n)
    {
    }
    forall n: nat | PlacedTripsAt(placed, c, n)
      ensures PlacedTripsAt(all, c, n)
    {
    }
    hide PlacedTripsAt, TransferTripsAt, Empty, AddsRange;
    if PlacedTrips(placed, c) { assert PlacedTrips(all, c); }
  }

  lemma {:induction false} EmptyTripsHere(t: Transfer, placed: seq<Placed>, more: seq<Placed>, c: nat, i: nat)
    requires c > 0 && i < |t.rangeSizes| && AddsRange(t, placed, more, c, i) && t.rangeSizes[i] == 0
    requires Arranged(t, placed, c, i)
    ensures PlacedTripsAt(placed + more, c, |placed|) <==> TransferTripsAt(t, c, i)
  {
    var all, m := placed + more, |placed|;
    hide Weight, PlacedTrips, TransferTrips, Steady;
    if i > 0 {
      assert all[m] == more[0] && all[m - 1] == placed[m - 1];
      LastInCell(placed[m - 1].task.info, c);
    }
  }

  lemma {:induction false} LastInCell(info: Info, c: nat)
    requires c > 0 && WithinCell(info, c)
    ensures info.size > 0 ==> (InLastCell(info.offset, c) <==> InLastCell(info.End() - 1, c))
  {
  }

  lemma {:induction false} ArrangedNext(t: Transfer, placed: seq<Placed>, more: seq<Placed>, c: nat, i: nat)
    requires c > 0 && i < |t.rangeSizes| && Arranged(t, placed, c, i) && AddsRange(t, placed, more, c, i)
    ensures Arranged(t, placed + more, c, i + 1)
  {
    SteadyNext(t, placed, more, c, i);
    WeightConcat(placed, more, EndsRange);
    if t.rangeSizes[i] > 0 { BytesTripNot(t, placed, more, c, i); } else { EmptyTrips(t, placed, more, c, i); }
    hide Weight, LastOf, Steady, PlacedTrips, TransferTrips, EndsRange;
    assert (placed + more)[|placed + more| - 1] == more[|more| - 1];
  }

  /** The first loop of build_tasks: every range of the transfer, in order. */
  method CutTransfer(t: Transfer, c: nat) returns (vTasks: seq<seq<Task>>, ghost placed: seq<Placed>)
    requires c > 0 && Divided(t) && Sum(t.rangeSizes) == t.size
    ensures CutUpTo(t, placed, c, |t.rangeSizes|) && Arranged(t, placed, c, |t.rangeSizes|)
    ensures |vTasks| == |t.tasks|
    ensures forall k :: 0 <= k < |vTasks| ==> vTasks[k] == Tasks(Select(placed, BatchOf, k))
  {
    hide *;
    var itr := new BatchItr(t);
    vTasks := seq(|t.tasks|, _ => []);
    placed := [];
    CutStarts(t, c);
    var requestFileOffset, currentDestination := t.tasks[0].offset, t.tasks[0].dst;
    for i := 0 to |t.rangeSizes|
      invariant itr.Valid() && itr.transfer == t && itr.Position() == requestFileOffset
      invariant requestFileOffset == RangeOffset(t, i) && currentDestination == RangeDst(t, i)
      invariant CutUpTo(t, placed, c, i) && Arranged(t, placed, c, i)
      invariant placed != [] ==> placed[|placed| - 1].batch == itr.current
      invariant |vTasks| == |t.tasks|
      invariant forall k :: 0 <= k < |vTasks| ==> vTasks[k] == Tasks(Select(placed, BatchOf, k))
    {
      var requestSize := t.rangeSizes[i];
      RangeStep(t, i);
      ghost var request, more;
      ghost var before := placed;
      vTasks, request, more := HandleRequest(itr, vTasks, t.file, t.firstRange + i, requestFileOffset, requestSize,
                                             currentDestination, c);
      RequestIs(t, i, |more|);
      CutUpToNext(t, placed, more, c, i);
      CutAddsRange(t, placed, more, c, i);
      ArrangedNext(t, placed, more, c, i);
      LastOfBoth(placed, more);
      placed := placed + more;
      SharesGrow(before, more);
      currentDestination := currentDestination + requestSize;
      requestFileOffset := requestFileOffset + requestSize;
    }
  }

  lemma {:induction false} LastOfBoth(a: seq<Placed>, b: seq<Placed>)
    requires b != []
    ensures a + b != [] && (a + b)[|a + b| - 1] == b[|b| - 1]
  {
  }

  lemma {:induction false} RequestIs(t: Transfer, i: nat, n: nat)
    requires i < |t.rangeSizes|
    ensures RequestFor(t, i, n) == Request(RangeOffset(t, i), t.file, t.firstRange + i, Narrow(n), t.rangeSizes[i], RangeDst(t, i))
  {
  }

  lemma {:induction false} RangeStep(t: Transfer, i: nat)
    requires i < |t.rangeSizes| && Sum(t.rangeSizes) == t.size
    ensures RangeOffset(t, i + 1) == RangeOffset(t, i) + t.rangeSizes[i] <= t.offset + t.size
    ensures RangeDst(t, i + 1) == RangeDst(t, i) + t.rangeSizes[i]
  {
    SumPrefixStep(t.rangeSizes, i);
    SumPrefixMonotone(t.rangeSizes, i + 1, |t.rangeSizes|);
    assert t.rangeSizes[..|t.rangeSizes|] == t.rangeSizes;
  }

  lemma {:induction false} CutStarts(t: Transfer, c: nat)
    requires c > 0 && Divided(t)
    ensures t.tasks != [] && CutUpTo(t, [], c, 0) && Arranged(t, [], c, 0)
    ensures RangeOffset(t, 0) == t.offset == t.tasks[0].offset && RangeDst(t, 0) == t.dst == t.tasks[0].dst
    ensures forall k: nat :: Tasks(Select([], BatchOf, k)) == []
  {
    SlicesPrefix(t.tasks, t.offset, t.offset + t.size, 0);
    assert SliceOf(t, t.tasks[0]);
  }

  /** The k-th slice's share of the placed tasks. */
  ghost function Share(placed: seq<Placed>, k: nat): seq<Task> { Tasks(Select(placed, BatchOf, k)) }

  /** One of the first n shares is a batch the splitter trips over. */
  ghost predicate TripsAmong(placed: seq<Placed>, n: nat, c: nat)
    requires c > 0
  {
    exists k: nat :: k < n && Trips(Share(placed, k), c)
  }

  /** One of the first n shares has more tasks than an `unsigned` counts. */
  ghost predicate Crowded(placed: seq<Placed>, n: nat) {
    exists k: nat :: k < n && |Share(placed, k)| >= UNSIGNED
  }

  lemma {:induction false} ShareAt(placed: seq<Placed>, u: nat)
    requires u < |placed|
    ensures
      var k, p := placed[u].batch, PlaceOf(placed, BatchOf, placed[u].batch, u);
      p < |Share(placed, k)| && Share(placed, k)[p] == placed[u].task
  {
    var k := placed[u].batch;
    PlaceIs(placed, BatchOf, k, u);
    TasksAt(Select(placed, BatchOf, k));
  }

  lemma {:induction false} ShareFrom(placed: seq<Placed>, k: nat, j: nat) returns (u: nat)
    requires j < |Share(placed, k)|
    ensures u < |placed| && placed[u].batch == k && PlaceOf(placed, BatchOf, k, u) == j && Share(placed, k)[j] == placed[u].task
  {
    TasksAt(Select(placed, BatchOf, k));
    u := PlaceHasItem(placed, BatchOf, k, j);
  }

  /** The placed tasks follow each other. */
  lemma {:induction false} PlacedAdjacent(placed: seq<Placed>, start: nat, end: nat, m: nat)
    requires Tiles(Tasks(placed), start, end) && 0 < m < |placed|
    ensures placed[m].task.info.offset == placed[m - 1].task.info.End()
  {
    TasksAt(placed);
    TilesAdjacent(Tasks(placed), start, end, m);
  }

  lemma {:induction false} PlacedRise(placed: seq<Placed>, start: nat, end: nat, u: nat, v: nat)
    requires Tiles(Tasks(placed), start, end) && u <= v < |placed|
    ensures placed[u].task.info.offset <= placed[v].task.info.offset <= placed[v].task.info.End() <= end
  {
    TasksAt(placed);
    TilesMonotone(Tasks(placed), start, end, u, v);
    TilesPrefix(Tasks(placed), start, end, v);
  }

  lemma {:induction false} TripInShare(placed: seq<Placed>, c: nat, m: nat, start: nat, end: nat)
    requires c > 0 && Steady(placed) && Tiles(Tasks(placed), start, end) && PlacedTripsAt(placed, c, m)
    ensures Trips(Share(placed, placed[m].batch), c)
  {
    hide Share, PlaceOf, Tiles, Tasks, Select, Trips;
    var k := placed[m].batch;
    assert placed[m - 1].batch == k;
    var p, q := PlaceOf(placed, BatchOf, k, m - 1), PlaceOf(placed, BatchOf, k, m);
    PlaceRises(placed, BatchOf, k, m - 1, m);
    ShareAt(placed, m - 1);
    ShareAt(placed, m);
    PlacedAdjacent(placed, start, end, m);
    if m == 1 { NoneBefore(placed, k); }
    hide Steady;
    TripIs(Share(placed, k), c, p, q);
  }

  lemma {:induction false} NoneBefore(placed: seq<Placed>, k: nat)
    ensures PlaceOf(placed, BatchOf, k, 0) == 0
  {
  }

  lemma {:induction false} TripIs(tasks: seq<Task>, c: nat, p: nat, q: nat)
    requires c > 0 && TripsAt(tasks, c, p, q)
    ensures Trips(tasks, c)
  {
  }

  lemma {:induction false} FirstEmpty(placed: seq<Placed>, u: nat, v: nat) returns (m: nat)
    requires u < v < |placed| && Empty(placed[v])
    ensures u < m <= v && Empty(placed[m]) && (u + 1 < m ==> !Empty(placed[m - 1]))
  {
    m := v;
    if u + 1 < v && Empty(placed[v - 1]) { m := FirstEmpty(placed, u, v - 1); }
  }

  lemma {:induction false} StaysInLastCell(o: nat, x: nat, c: nat)
    requires c > 0 && InLastCell(o, c) && o <= x <= MAX_SIZE
    ensures InLastCell(x, c)
  {
    CellBoundary(o, x, c);
    CellBoundary(x, MAX_SIZE, c);
  }

  /** A batch that begins with an empty task is the one all tasks begin with. */
  lemma {:induction false} FirstIsFirst(placed: seq<Placed>, k: nat, u: nat)
    requires Steady(placed) && u < |placed| && Empty(placed[u]) && placed[u].batch == k
    ensures u == 0 || PlaceOf(placed, BatchOf, k, u) > 0
  {
    if u > 0 { PlaceRises(placed, BatchOf, k, u - 1, u); }
  }

  lemma {:induction false} ShareTripIsPlaced(placed: seq<Placed>, c: nat, k: nat, j: nat, i: nat, start: nat, end: nat)
    requires c > 0 && Steady(placed) && Tiles(Tasks(placed), start, end) && end <= MAX_SIZE
    requires TripsAt(Share(placed, k), c, j, i)
    ensures PlacedTrips(placed, c)
  {
    var u := ShareFrom(placed, k, j);
    var v := ShareFrom(placed, k, i);
    if v <= u { PlaceRises(placed, BatchOf, k, v, u); }
    var m := FirstEmpty(placed, u, v);
    if m == u + 1 && Empty(placed[u]) {
      FirstIsFirst(placed, k, u);
      PlacedAdjacent(placed, start, end, m);
    } else {
      PlacedRise(placed, start, end, u, m - 1);
      StaysInLastCell(placed[u].task.info.offset, placed[m - 1].task.info.offset, c);
    }
    assert PlacedTripsAt(placed, c, m);
  }

  /** A batch of a transfer trips the splitter exactly when the transfer's ranges do, however it is divided. */
  lemma {:induction false} TripsAsRanges(t: Transfer, placed: seq<Placed>, c: nat)
    requires c > 0 && CutUpTo(t, placed, c, |t.rangeSizes|) && Arranged(t, placed, c, |t.rangeSizes|)
    requires RangeOffset(t, |t.rangeSizes|) <= MAX_SIZE
    ensures TripsAmong(placed, |t.tasks|, c) <==> TransferTrips(t, c, |t.rangeSizes|)
  {
    var start, end := t.offset, RangeOffset(t, |t.rangeSizes|);
    if m: nat :| PlacedTripsAt(placed, c, m) {
      TripInShare(placed, c, m, start, end);
      PlacedIsCut(t, placed, c, m);
    }
    if TripsAmong(placed, |t.tasks|, c) {
      var k: nat :| k < |t.tasks| && Trips(Share(placed, k), c);
      var j: nat, i: nat :| TripsAt(Share(placed, k), c, j, i);
      ShareTripIsPlaced(placed, c, k, j, i, start, end);
    }
  }

  /* ---- how many tasks a slice can have ---- */

  lemma {:induction false} EmptyBelowWeighs(own: seq<Placed>, n: nat)
    requires n <= |own| && forall m :: 0 <= m < n ==> EndsRange(own[m]) == 1
    ensures Weight(own, EndsRange) >= n
  {
    if own != [] {
      var last := |own| - 1;
      assert own == own[..last] + [own[last]];
      EmptyBelowWeighs(own[..last], if n <= last then n else last);
    }
  }

  /** A batch cannot be all empty for 2^32 tasks: each of these is a range of its own. */
  lemma {:induction false} NeverCircles(t: Transfer, placed: seq<Placed>, c: nat, k: nat)
    requires c > 0 && CutUpTo(t, placed, c, |t.rangeSizes|) && Arranged(t, placed, c, |t.rangeSizes|)
    requires |t.rangeSizes| < UNSIGNED
    ensures !Circles(Share(placed, k))
  {
    var own := Select(placed, BatchOf, k);
    TasksAt(own);
    SelectedWeighsLess(placed, BatchOf, k, EndsRange);
    if Circles(Share(placed, k)) {
      forall m | 0 <= m < UNSIGNED
        ensures EndsRange(own[m]) == 1
      {
        EmptyEnds(t, placed, c, k, m);
      }
      EmptyBelowWeighs(own, UNSIGNED);
    }
  }

  lemma {:induction false} EmptyEnds(t: Transfer, placed: seq<Placed>, c: nat, k: nat, m: nat)
    requires c > 0 && CutUpTo(t, placed, c, |t.rangeSizes|) && m < |Select(placed, BatchOf, k)|
    requires Empty(Select(placed, BatchOf, k)[m])
    ensures EndsRange(Select(placed, BatchOf, k)[m]) == 1
  {
    var u := PlaceHasItem(placed, BatchOf, k, m);
    PlacedIsCut(t, placed, c, u);
    EmptyIsRange(t, placed, c, u);
  }

  lemma {:induction false} EmptyIsRange(t: Transfer, placed: seq<Placed>, c: nat, u: nat)
    requires c > 0 && CutUpTo(t, placed, c, |t.rangeSizes|) && u < |placed| && Empty(placed[u])
    ensures EndsRange(placed[u]) == 1
  {
    PlacedIsCut(t, placed, c, u);
    var j := RangeOf(placed[u]) - t.firstRange;
    var own := Select(placed, RangeOf, t.firstRange + j);
    SelectMembers(placed, RangeOf, t.firstRange + j);
    assert placed[u] in placed && placed[u] in own;
    var n: nat :| n < |own| && own[n] == placed[u];
    assert RangeCut(t, placed, j, c);
    CutEndsAt(t, RequestFor(t, j, |own|), own, c, n);
  }

  /** The task ends its range, or has bytes and was cut at a chunk boundary or at the slice's end. */
  ghost predicate CutForCause(p: Placed, end: nat, c: nat)
    requires c > 0
  {
    EndsRange(p) == 1 || (!Empty(p) && (p.task.info.End() % c == 0 || p.task.info.End() == end))
  }

  lemma {:induction false} NextMultiple(a: nat, b: nat, c: nat)
    requires c > 0 && a < b && b % c == 0
    ensures a / c + 1 <= b / c
  {
    DivMod(a, c);
    DivMod(b, c);
    if b / c <= a / c { Gap(b / c, a / c, c); }
  }

  /** Tasks end ranges, or fill cells, or end the slice. */
  lemma {:induction false} TasksForCause(own: seq<Placed>, start: nat, at: nat, end: nat, c: nat)
    requires c > 0 && Tiles(Tasks(own), start, at) && start <= at <= end
    requires forall m :: 0 <= m < |own| ==> CutForCause(own[m], end, c)
    ensures |own| + start / c <= Weight(own, EndsRange) + at / c + if at == end then 1 else 0
  {
    if own != [] {
      var n := |own| - 1;
      var info := own[n].task.info;
      TilesAtLast(own, start, at);
      TilesOrdered(Tasks(own[..n]), start, info.offset);
      TasksForCause(own[..n], start, info.offset, end, c);
      CellBoundary(info.offset, at, c);
      assert CutForCause(own[n], end, c);
      if info.size > 0 && at % c == 0 { NextMultiple(info.offset, at, c); }
    }
  }

  lemma {:induction false} OwnCutForCause(t: Transfer, placed: seq<Placed>, c: nat, k: nat, m: nat)
    requires c > 0 && k < |t.tasks| && CutUpTo(t, placed, c, |t.rangeSizes|) && m < |Select(placed, BatchOf, k)|
    ensures CutForCause(Select(placed, BatchOf, k)[m], t.tasks[k].offset + t.tasks[k].size, c)
  {
    var u := PlaceHasItem(placed, BatchOf, k, m);
    PlacedIsCut(t, placed, c, u);
    if Empty(placed[u]) { EmptyIsRange(t, placed, c, u); }
    hide CutUpTo, Select;
  }

  /** A slice has no more tasks than ranges end and cells begin in it, and one. */
  lemma {:induction false} FewTasks(t: Transfer, placed: seq<Placed>, c: nat, k: nat)
    requires c > 0 && Divided(t) && k < |t.tasks| && Sum(t.rangeSizes) == t.size && t.rangeSizes != []
    requires CutUpTo(t, placed, c, |t.rangeSizes|) && Arranged(t, placed, c, |t.rangeSizes|)
    ensures |Share(placed, k)| <= |t.rangeSizes| + t.tasks[k].size / c + 2
  {
    var own := Select(placed, BatchOf, k);
    var start, end := t.tasks[k].offset, t.tasks[k].offset + t.tasks[k].size;
    SliceTiles(t, placed, c, k);
    forall m | 0 <= m < |own|
      ensures CutForCause(own[m], end, c)
    {
      OwnCutForCause(t, placed, c, k, m);
    }
    hide CutUpTo, Tiles, CutForCause;
    TasksForCause(own, start, end, end, c);
    SelectedWeighsLess(placed, BatchOf, k, EndsRange);
    TasksAt(own);
    DivSpan(start, end, c);
  }

  lemma {:induction false} SizeInCell(info: Info, c: nat)
    requires c > 0 && WithinCell(info, c)
    ensures info.size <= c
  {
    if info.size > 0 {
      CellBoundary(info.offset, info.End() - 1, c);
    }
  }

  /** A batch has a task for every cell of the grid its bytes fill. */
  lemma {:induction false} ManyTasks(tasks: seq<Task>, start: nat, end: nat, c: nat)
    requires c > 0 && Tiles(tasks, start, end) && CutOnGrid(tasks, c)
    ensures end <= start + |tasks| * c
  {
    if tasks != [] {
      var n := |tasks| - 1;
      ManyTasks(tasks[..n], start, tasks[n].info.offset, c);
      SizeInCell(tasks[n].info, c);
      Machine.Distribute(n, 1, c);
    }
  }

  /** So a slice of 2^32 cells or more is always too long. */
  lemma {:induction false} LongSliceCrowds(t: Transfer, placed: seq<Placed>, c: nat, k: nat)
    requires c > 0 && Divided(t) && k < |t.tasks| && Sum(t.rangeSizes) == t.size && t.rangeSizes != []
    requires CutUpTo(t, placed, c, |t.rangeSizes|) && t.tasks[k].size >= UNSIGNED * c
    ensures |Share(placed, k)| >= UNSIGNED
  {
    SliceTasks(t, placed, c, k);
    ManyTasks(Share(placed, k), t.tasks[k].offset, t.tasks[k].offset + t.tasks[k].size, c);
    hide *;
    Gap(|Share(placed, k)|, UNSIGNED, c);
  }

  /** The transfer ends by the largest offset. */
  ghost predicate Reachable(t: Transfer) { t.offset + t.size <= MAX_SIZE }

  ghost predicate BatchesUpTo(t: Transfer, c: nat, batches: seq<Batch>, placed: seq<Placed>, n: nat)
    requires c > 0
  {
    && |batches| == n <= |t.tasks|
    && forall m :: 0 <= m < n ==> BatchFor(t, t.tasks[m], batches[m], c) && batches[m].tasks == Share(placed, m)
  }

  /** build_tasks. It throws exactly if the transfer's ranges trip the splitter, whatever the slices, or
      some slice has more tasks than an `unsigned` counts. Otherwise there is one batch a slice, and
      together they are the plan. */
  method BuildTasks(t: Transfer, c: nat) returns (thrown: bool, batches: seq<Batch>, ghost placed: seq<Placed>)
    requires 0 < c <= MAX_SIZE && Divided(t) && t.rangeSizes != [] && Sum(t.rangeSizes) == t.size
    requires |t.rangeSizes| < UNSIGNED
    ensures CutUpTo(t, placed, c, |t.rangeSizes|) && Arranged(t, placed, c, |t.rangeSizes|)
    ensures Reachable(t) ==> (thrown <==> TransferTrips(t, c, |t.rangeSizes|) || Crowded(placed, |t.tasks|))
    ensures Reachable(t) && !thrown ==> Planned(t, c, batches, placed)
    ensures !thrown ==> |batches| == |t.tasks| && forall k :: 0 <= k < |batches| ==> batches[k].workload == t.tasks[k].workload
  {
    hide *;
    var vTasks: seq<seq<Task>>;
    vTasks, placed := CutTransfer(t, c);
    thrown, batches := false, [];
    NothingBuilt(t, c, placed);
    for k := 0 to |t.tasks|
      invariant Building(t, c, batches, placed, k)
    {
      ShareIs(placed, k);
      ShareFits(t, placed, c, k);
      NeverCircles(t, placed, c, k);
      var split := SplitIntoChunks(vTasks[k], c);
      if split.AssertFails? {
        if Reachable(t) { BuildingStops(t, c, placed, k); }
        return true, batches, placed;
      }
      BuildingNext(t, c, batches, placed, k, split.chunks);
      batches := batches + [Batch(t.tasks[k].workload, t.file, vTasks[k], split.chunks)];
    }
    BuildingEnds(t, c, batches, placed);
  }

  /** The first k slices have their batches, and the splitter has rejected none. */
  ghost predicate Building(t: Transfer, c: nat, batches: seq<Batch>, placed: seq<Placed>, k: nat)
    requires c > 0
  {
    && k == |batches| <= |t.tasks| && (forall m :: 0 <= m < k ==> batches[m].workload == t.tasks[m].workload)
    && (Reachable(t) ==> BatchesUpTo(t, c, batches, placed, k) && !RejectsAmong(placed, k, c))
  }

  lemma {:induction false} NothingBuilt(t: Transfer, c: nat, placed: seq<Placed>)
    requires c > 0
    ensures Building(t, c, [], placed, 0)
  {
  }

  lemma {:induction false} BuildingNext(t: Transfer, c: nat, batches: seq<Batch>, placed: seq<Placed>, k: nat, chunks: seq<Chunk>)
    requires c > 0 && Building(t, c, batches, placed, k) && k < |t.tasks|
    requires Divided(t) && t.rangeSizes != [] && Sum(t.rangeSizes) == t.size && CutUpTo(t, placed, c, |t.rangeSizes|)
    requires Reachable(t) ==> Grouping(Share(placed, k), chunks, c) && !Rejects(Share(placed, k), c)
    ensures Building(t, c, batches + [Batch(t.tasks[k].workload, t.file, Share(placed, k), chunks)], placed, k + 1)
  {
    hide Reachable, BatchesUpTo, RejectsAmong, Divided, CutUpTo, Grouping, Rejects, Share;
    if Reachable(t) { NextBatch(t, c, batches, placed, chunks); }
  }

  lemma {:induction false} BuildingStops(t: Transfer, c: nat, placed: seq<Placed>, k: nat)
    requires c > 0 && k < |t.tasks| && Reachable(t) && Sum(t.rangeSizes) == t.size
    requires CutUpTo(t, placed, c, |t.rangeSizes|) && Arranged(t, placed, c, |t.rangeSizes|)
    requires Rejects(Share(placed, k), c)
    ensures TransferTrips(t, c, |t.rangeSizes|) || Crowded(placed, |t.tasks|)
  {
    hide *;
    RejectsHere(placed, |t.tasks|, c, k);
    RejectsAsRanges(t, placed, c);
  }

  lemma {:induction false} BuildingEnds(t: Transfer, c: nat, batches: seq<Batch>, placed: seq<Placed>)
    requires c > 0 && Building(t, c, batches, placed, |t.tasks|) && Sum(t.rangeSizes) == t.size
    requires CutUpTo(t, placed, c, |t.rangeSizes|) && Arranged(t, placed, c, |t.rangeSizes|)
    ensures Reachable(t) ==> Planned(t, c, batches, placed)
    ensures Reachable(t) ==> !TransferTrips(t, c, |t.rangeSizes|) && !Crowded(placed, |t.tasks|)
    ensures |batches| == |t.tasks| && forall k :: 0 <= k < |batches| ==> batches[k].workload == t.tasks[k].workload
  {
    hide Reachable, BatchesUpTo, RejectsAmong, CutUpTo, Arranged, TransferTrips, Crowded, Planned;
    if Reachable(t) {
      RejectsAsRanges(t, placed, c);
      AllBuilt(t, c, batches, placed);
    }
  }

  lemma {:induction false} AllBuilt(t: Transfer, c: nat, batches: seq<Batch>, placed: seq<Placed>)
    requires c > 0 && CutUpTo(t, placed, c, |t.rangeSizes|) && BatchesUpTo(t, c, batches, placed, |t.tasks|)
    requires !Crowded(placed, |t.tasks|)
    ensures Planned(t, c, batches, placed)
  {
    hide CutUpTo, BatchFor;
    forall k | 0 <= k < |batches|
      ensures BatchFor(t, t.tasks[k], batches[k], c) && batches[k].tasks == Tasks(Select(placed, BatchOf, k))
      ensures |batches[k].tasks| < UNSIGNED
    {
    }
  }

  /** One of the first n shares is a batch the splitter rejects. */
  ghost predicate RejectsAmong(placed: seq<Placed>, n: nat, c: nat)
    requires c > 0
  {
    TripsAmong(placed, n, c) || Crowded(placed, n)
  }

  lemma {:induction false} RejectsAsRanges(t: Transfer, placed: seq<Placed>, c: nat)
    requires c > 0 && CutUpTo(t, placed, c, |t.rangeSizes|) && Arranged(t, placed, c, |t.rangeSizes|)
    requires Reachable(t) && Sum(t.rangeSizes) == t.size
    ensures RejectsAmong(placed, |t.tasks|, c) <==> TransferTrips(t, c, |t.rangeSizes|) || Crowded(placed, |t.tasks|)
  {
    assert t.rangeSizes[..|t.rangeSizes|] == t.rangeSizes;
    hide Arranged, CutUpTo, TransferTrips, TripsAmong, Crowded;
    TripsAsRanges(t, placed, c);
  }

  lemma {:induction false} RejectsHere(placed: seq<Placed>, n: nat, c: nat, k: nat)
    requires c > 0 && k < n && Rejects(Share(placed, k), c)
    ensures RejectsAmong(placed, n, c)
  {
    hide Share, Trips;
  }

  lemma {:induction false} NextBatch(t: Transfer, c: nat, batches: seq<Batch>, placed: seq<Placed>, chunks: seq<Chunk>)
    requires c > 0 && |batches| < |t.tasks| && Divided(t) && t.rangeSizes != [] && Sum(t.rangeSizes) == t.size
    requires CutUpTo(t, placed, c, |t.rangeSizes|)
    requires BatchesUpTo(t, c, batches, placed, |batches|) && !RejectsAmong(placed, |batches|, c)
    requires Grouping(Share(placed, |batches|), chunks, c) && !Rejects(Share(placed, |batches|), c)
    ensures
      var k := |batches|;
      && BatchesUpTo(t, c, batches + [Batch(t.tasks[k].workload, t.file, Share(placed, k), chunks)], placed, k + 1)
      && !RejectsAmong(placed, k + 1, c)
  {
    hide *;
    var k := |batches|;
    SliceTasks(t, placed, c, k);
    ShareIs(placed, k);
    SlicedBatch(t, c, k, Share(placed, k), chunks);
    OneMoreBatch(t, c, batches, placed, Batch(t.tasks[k].workload, t.file, Share(placed, k), chunks));
    RejectsNoMore(placed, c, k);
  }

  lemma {:induction false} ShareIs(placed: seq<Placed>, k: nat)
    ensures Share(placed, k) == Tasks(Select(placed, BatchOf, k))
  {
  }

  lemma {:induction false} SlicedBatch(t: Transfer, c: nat, k: nat, tasks: seq<Task>, chunks: seq<Chunk>)
    requires c > 0 && k < |t.tasks| && tasks != []
    requires Tiles(tasks, t.tasks[k].offset, t.tasks[k].offset + t.tasks[k].size) && InStep(tasks, t.offset, t.dst)
    requires CutOnGrid(tasks, c) && Grouping(tasks, chunks, c)
    ensures BatchFor(t, t.tasks[k], Batch(t.tasks[k].workload, t.file, tasks, chunks), c)
  {
    hide Tiles, InStep, CutOnGrid, Grouping;
  }

  lemma {:induction false} OneMoreBatch(t: Transfer, c: nat, batches: seq<Batch>, placed: seq<Placed>, batch: Batch)
    requires c > 0 && |batches| < |t.tasks| && BatchesUpTo(t, c, batches, placed, |batches|)
    requires BatchFor(t, t.tasks[|batches|], batch, c) && batch.tasks == Share(placed, |batches|)
    ensures BatchesUpTo(t, c, batches + [batch], placed, |batches| + 1)
  {
    hide BatchFor, Share;
  }

  lemma {:induction false} RejectsNoMore(placed: seq<Placed>, c: nat, k: nat)
    requires c > 0 && !RejectsAmong(placed, k, c) && !Rejects(Share(placed, k), c)
    ensures !RejectsAmong(placed, k + 1, c)
  {
    hide Trips, Share;
  }

  /** A slice's share is contiguous and on the grid, and runs no further than its transfer. */
  lemma {:induction false} ShareFits(t: Transfer, placed: seq<Placed>, c: nat, k: nat)
    requires c > 0 && k < |t.tasks| && Divided(t) && t.rangeSizes != [] && Sum(t.rangeSizes) == t.size
    requires CutUpTo(t, placed, c, |t.rangeSizes|)
    ensures Contiguous(Share(placed, k)) && CutOnGrid(Share(placed, k), c)
    ensures Reachable(t) ==> Representable(Share(placed, k))
  {
    var tasks := Share(placed, k);
    SliceTasks(t, placed, c, k);
    SlicesPrefix(t.tasks, t.offset, t.offset + t.size, k);
    TilesAdjacent(tasks, t.tasks[k].offset, t.tasks[k].offset + t.tasks[k].size, 0);
  }
}
