/** Grouping a batch's tasks into backend reads (cpp/streamer/impl/chunk_splitter). */
module ChunkSplitter {
  import opened Machine
  import opened ReadTypes

  /** The task does not cross a multiple of c: its first and last byte share a grid cell. */
  ghost predicate WithinCell(t: Info, c: nat)
    requires c > 0
  {
    t.size > 0 ==> t.offset / c == (t.End() - 1) / c
  }

  ghost predicate CutOnGrid(tasks: seq<Task>, c: nat)
    requires c > 0
  {
    forall i :: 0 <= i < |tasks| ==> WithinCell(tasks[i].info, c)
  }

  /** The cell of the grid that holds the largest offset. It ends past it, so the end the machine computes
      for it has wrapped. */
  predicate InLastCell(o: nat, c: nat)
    requires c > 0
  {
    o / c == MAX_SIZE / c
  }

  /** One chunk covers whole tasks, starts where its first one does and stays inside one cell. It has bytes,
      unless it was opened by an empty first task in the last cell. */
  ghost predicate ChunkOf(tasks: seq<Task>, chunk: Chunk, c: nat)
    requires c > 0
  {
    && chunk.taskCount > 0
    && chunk.firstTask + chunk.taskCount <= |tasks|
    && chunk.offset == tasks[chunk.firstTask].info.offset
    && chunk.buffer == tasks[chunk.firstTask].Destination()
    && chunk.End() == tasks[chunk.firstTask + chunk.taskCount - 1].info.End()
    && (chunk.size > 0 ==> chunk.offset / c == (chunk.End() - 1) / c)
    && (chunk.size == 0 ==> chunk.firstTask == 0 && InLastCell(chunk.offset, c))
    && (InLastCell(chunk.offset, c) ==> chunk.taskCount == 1)
  }

  /** The chunks' task spans follow each other from task 0 up to (not including) task n. */
  ghost predicate SpansTile(chunks: seq<Chunk>, n: nat) {
    if chunks == [] then n == 0
    else
      var last := chunks[|chunks| - 1];
      SpansTile(chunks[..|chunks| - 1], last.firstTask) && last.firstTask + last.taskCount == n
  }

  /** Later chunks start where earlier ones end or after, and in a later cell - except in the last cell,
      where every task with bytes gets a chunk of its own. */
  ghost predicate InCells(chunks: seq<Chunk>, c: nat)
    requires c > 0
  {
    forall k, l :: 0 <= k < l < |chunks| ==>
      && chunks[k].End() <= chunks[l].offset
      && (chunks[k].offset / c < chunks[l].offset / c || InLastCell(chunks[k].offset, c))
  }

  /** What a correct grouping is, said without the loop that computes it. */
  ghost predicate Grouping(tasks: seq<Task>, chunks: seq<Chunk>, c: nat)
    requires c > 0
  {
    && (forall k :: 0 <= k < |chunks| ==> ChunkOf(tasks, chunks[k], c))
    && InCells(chunks, c)
    && (chunks != [] ==> SpansTile(chunks, |tasks|))
    && (chunks == [] ==> forall i :: 0 <= i < |tasks| ==> tasks[i].info.size == 0)
  }

  /** The i-th task is empty and comes after the j-th, which opened a chunk in the last cell. */
  ghost predicate TripsAt(tasks: seq<Task>, c: nat, j: nat, i: nat)
    requires c > 0
  {
    && j < i < |tasks| && tasks[i].info.size == 0
    && (tasks[j].info.size > 0 || j == 0) && InLastCell(tasks[j].info.offset, c)
  }

  ghost predicate TripsBelow(tasks: seq<Task>, c: nat, n: nat)
    requires c > 0
  {
    exists j: nat, i: nat :: i < n && TripsAt(tasks, c, j, i)
  }

  /** The batches whose tasks the splitter's second assert rejects. */
  ghost predicate Trips(tasks: seq<Task>, c: nat)
    requires c > 0
  {
    TripsBelow(tasks, c, |tasks|)
  }

  /** The batches that one of the two asserts rejects. An `unsigned` cannot get past 2^32 tasks: it comes
      back to the first one, whose offset is no longer the one expected. */
  ghost predicate Rejects(tasks: seq<Task>, c: nat)
    requires c > 0
  {
    Trips(tasks, c) || |tasks| >= UNSIGNED
  }

  /** 2^32 empty tasks before any with bytes: the index would come round unnoticed. A request whose ranges
      an `unsigned` can count has no such batch. */
  ghost predicate Circles(tasks: seq<Task>) {
    |tasks| >= UNSIGNED && EmptyBelow(tasks, UNSIGNED)
  }

  ghost predicate EmptyBelow(tasks: seq<Task>, n: nat)
    requires n <= |tasks|
  {
    forall i :: 0 <= i < n ==> tasks[i].info.size == 0
  }

  datatype SplitResult = Chunks(chunks: seq<Chunk>) | AssertFails

  function CellEnd(o: nat, c: nat): nat
    requires c > 0
  {
    (o / c + 1) * c
  }

  lemma CellBoundary(o: nat, x: nat, c: nat)
    requires c > 0 && o <= x
    ensures o / c <= x / c
    ensures x < CellEnd(o, c) <==> x / c == o / c
    ensures o < CellEnd(o, c) <= o + c
  {
    var q, p := o / c, x / c;
    assert o == q * c + o % c && x == p * c + x % c;
    assert (q + 1) * c == q * c + c;
    assert q <= p by { if p + 1 <= q { MulMonotone(p + 1, q, c); assert false; } }
    if p > q { MulMonotone(q + 1, p, c); }
  }

  lemma MulMonotone(a: nat, b: nat, c: nat)
    requires a <= b
    ensures a * c <= b * c
    ensures (a + 1) * c == a * c + c
  {
    assert b * c == a * c + (b - a) * c;
  }

  /** The end of a cell as the machine computes it: right in every cell but the last, where it comes out
      below every offset of the cell. */
  lemma {:induction false} WrappedEnd(o: nat, c: nat)
    requires 0 < c <= MAX_SIZE && o <= MAX_SIZE
    ensures InLastCell(o, c) ==> Wrap64(CellEnd(o, c)) < c <= o
    ensures !InLastCell(o, c) ==> Wrap64(CellEnd(o, c)) == CellEnd(o, c) <= MAX_SIZE
  {
    var q, m := o / c, MAX_SIZE / c;
    DivMod(o, c);
    DivMod(MAX_SIZE, c);
    Gap(q, m, c);
    Gap(m, q, c);
    Gap(1, m, c);
    Distribute(q, 1, c);
    if InLastCell(o, c) { RemainderUnique(CellEnd(o, c), MAX_SIZE + 1, 1, CellEnd(o, c) - MAX_SIZE - 1); }
    else { RemainderUnique(CellEnd(o, c), MAX_SIZE + 1, 0, CellEnd(o, c)); }
  }

  /** The chunk being filled when i tasks have been seen. */
  ghost predicate LastOpen(tasks: seq<Task>, chunks: seq<Chunk>, c: nat, i: nat)
    requires c > 0 && i <= |tasks|
  {
    chunks != [] ==>
      var last := chunks[|chunks| - 1];
      && last.taskCount > 0 && last.firstTask < i
      && last.offset == tasks[last.firstTask].info.offset
      && last.buffer == tasks[last.firstTask].Destination()
      && last.End() == tasks[i - 1].info.End()
      && (last.firstTask == 0 || tasks[last.firstTask].info.size > 0)
      && (last.size > 0 ==> last.offset / c == (last.End() - 1) / c)
      && (last.size == 0 ==> |chunks| == 1 && forall j :: 0 <= j < i ==> tasks[j].info.size == 0)
      && (InLastCell(last.offset, c) ==> last.taskCount == 1)
  }

  ghost predicate SplitSoFar(tasks: seq<Task>, chunks: seq<Chunk>, c: nat, i: nat)
    requires c > 0 && i <= |tasks|
  {
    && (i == 0 <==> chunks == [])
    && SpansTile(chunks, i)
    && (forall k :: 0 <= k < |chunks| - 1 ==> ChunkOf(tasks, chunks[k], c))
    && InCells(chunks, c)
    && LastOpen(tasks, chunks, c, i)
    && !TripsBelow(tasks, c, i)
  }

  ghost predicate Contiguous(tasks: seq<Task>) {
    tasks != [] ==> Tiles(tasks, tasks[0].info.offset, tasks[|tasks| - 1].info.End())
  }

  /** No task runs past the largest offset. */
  ghost predicate Representable(tasks: seq<Task>) {
    tasks != [] ==> tasks[|tasks| - 1].info.End() <= MAX_SIZE
  }

  /** split_into_chunks, with its two asserts as branches and its index as wide as the machine's. For tasks
      that are contiguous and cut on the grid the first assert fires when the index has come round, the
      second for the batches that trip it; for all others the chunks are a correct grouping. */
  method SplitIntoChunks(tasks: seq<Task>, c: nat) returns (result: SplitResult)
    requires 0 < c <= MAX_SIZE
    requires Contiguous(tasks) && CutOnGrid(tasks, c) && !Circles(tasks)
    ensures Representable(tasks) ==> (result.AssertFails? <==> Rejects(tasks, c))
    ensures Representable(tasks) && result.Chunks? ==> Grouping(tasks, result.chunks, c)
  {
    var chunks: seq<Chunk> := [];
    if tasks == [] { return Chunks(chunks); }
    ghost var fits := Representable(tasks);
    var chunkEnd := 0;
    var expectedOffset := tasks[0].info.offset;
    var i: nat := 0;
    ghost var passes: nat := 0;
    while i < |tasks|
      invariant passes <= UNSIGNED && passes <= |tasks|
      invariant i == if passes == UNSIGNED then 0 else passes
      invariant passes == 0 <==> chunks == []
      invariant fits ==> SplitSoFar(tasks, chunks, c, passes)
      invariant chunks != [] ==> chunkEnd == Wrap64(CellEnd(chunks[|chunks| - 1].offset, c))
      invariant expectedOffset == if passes == 0 then tasks[0].info.offset else tasks[passes - 1].info.End()
      decreases UNSIGNED + 1 - passes
    {
      hide SplitSoFar, CutOnGrid, Wrap64, CellEnd, Circles, Rejects;
      if passes == UNSIGNED { ComesRound(tasks); }
      var info := tasks[i].info;
      TilesAdjacent(tasks, tasks[0].info.offset, tasks[|tasks| - 1].info.End(), i);
      if info.offset != expectedOffset {
        LongIsRejected(tasks, c);
        return AssertFails;
      }
      expectedOffset := info.End();
      if chunks == [] || (info.size > 0 && info.offset >= chunkEnd) {
        if fits { OpensChunk(tasks, chunks, c, i); }
        chunkEnd := Wrap64(CellEnd(info.offset, c));
        chunks := chunks + [Chunk(info.offset, info.size, tasks[i].Destination(), i, 1)];
      } else {
        var chunk := chunks[|chunks| - 1];
        if fits { ExtendsChunk(tasks, chunks, c, i); }
        chunk := chunk.(size := chunk.size + info.size, taskCount := chunk.taskCount + 1);
        chunks := chunks[|chunks| - 1 := chunk];
        if Add64(chunk.offset, chunk.size) > chunkEnd {
          if fits { TripIsRejected(tasks, c); }
          return AssertFails;
        }
      }
      i := (i + 1) % UNSIGNED;
      passes := passes + 1;
    }
    if fits { AllSplit(tasks, chunks, c); }
    if |chunks| == 1 && chunks[0].size == 0 { chunks := []; }
    result := Chunks(chunks);
  }

  /** After 2^32 tasks with any bytes among them the expected offset is past the first task's. */
  lemma {:induction false} ComesRound(tasks: seq<Task>)
    requires Contiguous(tasks) && |tasks| >= UNSIGNED && !Circles(tasks)
    ensures tasks[0].info.offset < tasks[UNSIGNED - 1].info.End()
  {
    var i: nat :| i < UNSIGNED && tasks[i].info.size > 0;
    var start, end := tasks[0].info.offset, tasks[|tasks| - 1].info.End();
    TilesMonotone(tasks, start, end, 0, i);
    TilesMonotone(tasks, start, end, i, UNSIGNED - 1);
  }

  lemma {:induction false} LongIsRejected(tasks: seq<Task>, c: nat)
    requires c > 0
    ensures |tasks| >= UNSIGNED ==> Rejects(tasks, c)
  {
  }

  lemma {:induction false} TripIsRejected(tasks: seq<Task>, c: nat)
    requires c > 0 && Trips(tasks, c)
    ensures Rejects(tasks, c)
  {
  }

  lemma {:induction false} AllSplit(tasks: seq<Task>, chunks: seq<Chunk>, c: nat)
    requires c > 0 && SplitSoFar(tasks, chunks, c, |tasks|) && |tasks| < UNSIGNED
    ensures Grouping(tasks, if |chunks| == 1 && chunks[0].size == 0 then [] else chunks, c) && !Rejects(tasks, c)
  {
    if chunks != [] && chunks[|chunks| - 1].size > 0 {
      assert SpansTile(chunks[..|chunks| - 1], chunks[|chunks| - 1].firstTask);
      assert ChunkOf(tasks, chunks[|chunks| - 1], c);
    }
  }

  lemma {:induction false} TilesAdjacent(tasks: seq<Task>, start: nat, end: nat, i: nat)
    requires Tiles(tasks, start, end) && i < |tasks|
    ensures tasks[i].info.offset == if i == 0 then start else tasks[i - 1].info.End()
  {
    var n := |tasks| - 1;
    if i < n {
      TilesAdjacent(tasks[..n], start, tasks[n].info.offset, i);
    }
  }

  /** All tasks up to the i-th end by the largest offset. */
  lemma {:induction false} EndsFit(tasks: seq<Task>, i: nat)
    requires Contiguous(tasks) && Representable(tasks) && i < |tasks|
    ensures tasks[i].info.End() <= MAX_SIZE
  {
    TilesMonotone(tasks, tasks[0].info.offset, tasks[|tasks| - 1].info.End(), i, |tasks| - 1);
  }

  ghost function Opened(tasks: seq<Task>, i: nat): Chunk
    requires i < |tasks|
  {
    Chunk(tasks[i].info.offset, tasks[i].info.size, tasks[i].Destination(), i, 1)
  }

  ghost function Extended(chunk: Chunk, size: nat): Chunk {
    chunk.(size := chunk.size + size, taskCount := chunk.taskCount + 1)
  }

  lemma {:induction false} OpensChunk(tasks: seq<Task>, before: seq<Chunk>, c: nat, i: nat)
    requires 0 < c <= MAX_SIZE && i < |tasks| && SplitSoFar(tasks, before, c, i) && CutOnGrid(tasks, c)
    requires Contiguous(tasks) && Representable(tasks)
    requires i > 0 ==> tasks[i].info.offset == tasks[i - 1].info.End()
    requires before != [] ==> tasks[i].info.size > 0 && tasks[i].info.offset >= Wrap64(CellEnd(before[|before| - 1].offset, c))
    ensures SplitSoFar(tasks, before + [Chunk(tasks[i].info.offset, tasks[i].info.size, tasks[i].Destination(), i, 1)], c, i + 1)
  {
    var chunks := before + [Opened(tasks, i)];
    assert chunks[..|before|] == before;
    NoTripHere(tasks, c, i);
    if before != [] {
      var last := before[|before| - 1];
      EndsFit(tasks, i);
      LaterCell(last, tasks[i].info, c);
      OpensInCells(before, Opened(tasks, i), c);
    }
    hide TripsBelow, InCells, CutOnGrid, Tiles;
  }

  /** A task that opens a chunk, being the first or having bytes, trips nothing. */
  lemma {:induction false} NoTripHere(tasks: seq<Task>, c: nat, i: nat)
    requires c > 0 && i < |tasks| && !TripsBelow(tasks, c, i) && (i == 0 || tasks[i].info.size > 0)
    ensures !TripsBelow(tasks, c, i + 1)
  {
  }

  /** A chunk is only opened in a later cell than the open one's, or in the last. */
  lemma {:induction false} LaterCell(last: Chunk, info: Info, c: nat)
    requires 0 < c <= MAX_SIZE && info.offset == last.End() && info.End() <= MAX_SIZE && info.size > 0
    requires info.offset >= Wrap64(CellEnd(last.offset, c))
    ensures last.offset / c < info.offset / c || InLastCell(last.offset, c)
    ensures last.size == 0 ==> InLastCell(last.offset, c)
  {
    WrappedEnd(last.offset, c);
    CellBoundary(last.offset, info.offset, c);
  }

  lemma {:induction false} OpensInCells(before: seq<Chunk>, next: Chunk, c: nat)
    requires c > 0 && before != [] && InCells(before, c)
    requires
      var last := before[|before| - 1];
      && last.End() <= next.offset <= MAX_SIZE
      && (last.offset / c < next.offset / c || InLastCell(last.offset, c))
    ensures InCells(before + [next], c)
  {
    var chunks, n := before + [next], |before| - 1;
    CellBoundary(before[n].offset, next.offset, c);
    forall k, l | 0 <= k < l < |chunks|
      ensures chunks[k].End() <= chunks[l].offset
      ensures chunks[k].offset / c < chunks[l].offset / c || InLastCell(chunks[k].offset, c)
    {
      if l < |before| {
        assert before[k].End() <= before[l].offset;
      } else if k < n {
        assert before[k].End() <= before[n].offset;
      }
    }
  }

  /** A task that opens nothing is empty, or inside the open chunk's cell, which is not the last. What the
      second assert sees is then right; and it fires for an empty task exactly in the last cell. */
  lemma {:induction false} ExtendsChunk(tasks: seq<Task>, before: seq<Chunk>, c: nat, i: nat)
    requires 0 < c <= MAX_SIZE && i < |tasks| && before != [] && SplitSoFar(tasks, before, c, i) && CutOnGrid(tasks, c)
    requires Contiguous(tasks) && Representable(tasks)
    requires i > 0 ==> tasks[i].info.offset == tasks[i - 1].info.End()
    requires tasks[i].info.size > 0 ==> tasks[i].info.offset < Wrap64(CellEnd(before[|before| - 1].offset, c))
    ensures
      var last := before[|before| - 1];
      var grown := last.(size := last.size + tasks[i].info.size, taskCount := last.taskCount + 1);
      if Add64(grown.offset, grown.size) <= Wrap64(CellEnd(last.offset, c))
      then SplitSoFar(tasks, before[|before| - 1 := grown], c, i + 1)
      else Trips(tasks, c)
  {
    var n := |before| - 1;
    var last, info := before[n], tasks[i].info;
    EndsFit(tasks, i);
    WrappedEnd(last.offset, c);
    RemainderUnique(last.offset + last.size + info.size, MAX_SIZE + 1, 0, last.offset + last.size + info.size);
    if InLastCell(last.offset, c) {
      assert TripsAt(tasks, c, last.firstTask, i);
    } else {
      ExtendsInCell(tasks, before, c, i);
    }
    hide SplitSoFar, CutOnGrid, Tiles;
  }

  lemma {:induction false} ExtendsInCell(tasks: seq<Task>, before: seq<Chunk>, c: nat, i: nat)
    requires c > 0 && i < |tasks| && before != [] && SplitSoFar(tasks, before, c, i) && CutOnGrid(tasks, c)
    requires Contiguous(tasks) && Representable(tasks)
    requires i > 0 ==> tasks[i].info.offset == tasks[i - 1].info.End()
    requires
      var last := before[|before| - 1];
      !InLastCell(last.offset, c) && (tasks[i].info.size > 0 ==> tasks[i].info.offset < CellEnd(last.offset, c))
    ensures
      var last := before[|before| - 1];
      var grown := last.(size := last.size + tasks[i].info.size, taskCount := last.taskCount + 1);
      && SplitSoFar(tasks, before[|before| - 1 := grown], c, i + 1)
      && grown.End() <= CellEnd(last.offset, c)
  {
    var n := |before| - 1;
    var last, info := before[n], tasks[i].info;
    var chunks := before[n := Extended(last, info.size)];
    assert chunks[..n] == before[..n];
    OneCell(last, info, c);
    NoTripOutside(tasks, before, c, i);
    ExtendsCells(before, info.size, c);
    hide TripsBelow, InCells, CutOnGrid, Tiles;
  }

  lemma {:induction false} OneCell(last: Chunk, info: Info, c: nat)
    requires c > 0 && WithinCell(info, c) && info.offset == last.End()
    requires last.size > 0 ==> last.offset / c == (last.End() - 1) / c
    requires info.size > 0 ==> info.offset < CellEnd(last.offset, c)
    ensures last.size + info.size > 0 ==> last.offset / c == (last.End() + info.size - 1) / c
    ensures last.End() + info.size <= CellEnd(last.offset, c)
  {
    CellBoundary(last.offset, last.offset, c);
    if info.size > 0 {
      CellBoundary(last.offset, info.offset, c);
      CellBoundary(last.offset, info.End() - 1, c);
    } else if last.size > 0 {
      CellBoundary(last.offset, last.End() - 1, c);
    }
  }

  /** Nothing before the open chunk's end lies in the last cell unless the open chunk does. */
  lemma {:induction false} NoTripOutside(tasks: seq<Task>, before: seq<Chunk>, c: nat, i: nat)
    requires c > 0 && i < |tasks| && before != [] && SplitSoFar(tasks, before, c, i)
    requires Contiguous(tasks) && Representable(tasks)
    requires !InLastCell(before[|before| - 1].offset, c)
    ensures !TripsBelow(tasks, c, i + 1)
  {
    forall j: nat
      ensures !TripsAt(tasks, c, j, i)
    {
      if j < i && (tasks[j].info.size > 0 || j == 0) { OutsideLastCell(tasks, before, c, i, j); }
    }
  }

  lemma {:induction false} OutsideLastCell(tasks: seq<Task>, before: seq<Chunk>, c: nat, i: nat, j: nat)
    requires c > 0 && j < i < |tasks| && before != [] && SplitSoFar(tasks, before, c, i)
    requires Contiguous(tasks) && Representable(tasks)
    requires !InLastCell(before[|before| - 1].offset, c) && (tasks[j].info.size > 0 || j == 0)
    ensures !InLastCell(tasks[j].info.offset, c)
  {
    var last := before[|before| - 1];
    var start, end := tasks[0].info.offset, tasks[|tasks| - 1].info.End();
    EndsFit(tasks, i - 1);
    TilesMonotone(tasks, start, end, j, i - 1);
    TilesMonotone(tasks, start, end, 0, last.firstTask);
    if last.size > 0 {
      CellBoundary(tasks[j].info.offset, last.End() - 1, c);
      CellBoundary(last.End() - 1, MAX_SIZE, c);
    } else {
      assert SpansTile(before[..|before| - 1], last.firstTask);
    }
  }

  lemma {:induction false} ExtendsCells(before: seq<Chunk>, size: nat, c: nat)
    requires c > 0 && before != [] && InCells(before, c)
    ensures InCells(before[|before| - 1 := Extended(before[|before| - 1], size)], c)
  {
    var chunks := before[|before| - 1 := Extended(before[|before| - 1], size)];
    forall k, l | 0 <= k < l < |chunks|
      ensures chunks[k].End() <= chunks[l].offset
      ensures chunks[k].offset / c < chunks[l].offset / c || InLastCell(chunks[k].offset, c)
    {
      assert before[k].End() <= before[l].offset;
    }
  }

  lemma {:induction false} SpanHolding(chunks: seq<Chunk>, n: nat, i: nat) returns (k: nat)
    requires SpansTile(chunks, n) && i < n
    ensures k < |chunks| && chunks[k].firstTask <= i < chunks[k].firstTask + chunks[k].taskCount
  {
    k := |chunks| - 1;
    if i < chunks[k].firstTask {
      k := SpanHolding(chunks[..k], chunks[k].firstTask, i);
    }
  }

  ghost predicate Holds(chunk: Chunk, o: nat) {
    chunk.offset <= o < chunk.End()
  }

  /** Chunks never overlap. */
  lemma {:induction false} ChunksApart(tasks: seq<Task>, chunks: seq<Chunk>, c: nat, k: nat, l: nat)
    requires c > 0 && Grouping(tasks, chunks, c) && k < l < |chunks|
    ensures chunks[k].End() <= chunks[l].offset
  {
    assert InCells(chunks, c);
  }

  /** Every byte of the batch is in exactly one chunk, and no chunk holds any other byte. */
  lemma ChunksCoverBatch(tasks: seq<Task>, chunks: seq<Chunk>, c: nat, start: nat, end: nat, o: nat)
    requires c > 0 && Grouping(tasks, chunks, c) && Tiles(tasks, start, end)
    ensures start <= o < end <==> exists k :: 0 <= k < |chunks| && Holds(chunks[k], o)
    ensures forall k, l :: 0 <= k < |chunks| && 0 <= l < |chunks| && Holds(chunks[k], o) && Holds(chunks[l], o) ==> k == l
  {
    if start <= o < end {
      var i := TaskHolding(tasks, start, end, o);
      assert tasks[i].info.size > 0;
      var k := SpanHolding(chunks, |tasks|, i);
      assert ChunkOf(tasks, chunks[k], c);
      TilesMonotone(tasks, start, end, chunks[k].firstTask, i);
      TilesMonotone(tasks, start, end, i, chunks[k].firstTask + chunks[k].taskCount - 1);
      assert Holds(chunks[k], o);
    }
    forall k | 0 <= k < |chunks| && Holds(chunks[k], o)
      ensures start <= o < end
    {
      assert ChunkOf(tasks, chunks[k], c);
      TilesPrefix(tasks, start, end, chunks[k].firstTask);
      TilesPrefix(tasks, start, end, chunks[k].firstTask + chunks[k].taskCount - 1);
    }
    forall k, l | 0 <= k < l < |chunks|
      ensures !(Holds(chunks[k], o) && Holds(chunks[l], o))
    {
      ChunksApart(tasks, chunks, c, k, l);
    }
  }

  ghost predicate SpansTask(chunk: Chunk, i: nat) {
    chunk.firstTask <= i < chunk.firstTask + chunk.taskCount
  }

  /** A task with bytes belongs to exactly one chunk, and all its bytes are that chunk's bytes. */
  lemma TaskInOneChunk(tasks: seq<Task>, chunks: seq<Chunk>, c: nat, i: nat)
    requires c > 0 && Grouping(tasks, chunks, c) && Contiguous(tasks)
    requires i < |tasks| && tasks[i].info.size > 0
    ensures exists k :: 0 <= k < |chunks| && SpansTask(chunks[k], i)
    ensures forall k :: 0 <= k < |chunks| && SpansTask(chunks[k], i) ==>
                          chunks[k].offset <= tasks[i].info.offset && tasks[i].info.End() <= chunks[k].End()
    ensures forall k, l :: 0 <= k < |chunks| && 0 <= l < |chunks| && SpansTask(chunks[k], i) && SpansTask(chunks[l], i) ==> k == l
  {
    var start, end := tasks[0].info.offset, tasks[|tasks| - 1].info.End();
    var h := SpanHolding(chunks, |tasks|, i);
    assert SpansTask(chunks[h], i);
    forall k | 0 <= k < |chunks| && SpansTask(chunks[k], i)
      ensures chunks[k].offset <= tasks[i].info.offset && tasks[i].info.End() <= chunks[k].End()
    {
      assert ChunkOf(tasks, chunks[k], c);
      TilesMonotone(tasks, start, end, chunks[k].firstTask, i);
      TilesMonotone(tasks, start, end, i, chunks[k].firstTask + chunks[k].taskCount - 1);
    }
    forall k, l | 0 <= k < l < |chunks|
      ensures !(SpansTask(chunks[k], i) && SpansTask(chunks[l], i))
    {
      ChunksApart(tasks, chunks, c, k, l);
    }
  }

  lemma {:induction false} CellsGrow(tasks: seq<Task>, chunks: seq<Chunk>, c: nat, k: nat)
    requires c > 0 && Grouping(tasks, chunks, c) && k < |chunks|
    requires forall l :: 0 <= l < k ==> !InLastCell(chunks[l].offset, c)
    ensures chunks[0].offset / c + k <= chunks[k].offset / c
  {
    if k > 0 { CellsGrow(tasks, chunks, c, k - 1); }
  }

  /** There are no more chunks than tasks. */
  lemma {:induction false} ChunksPerTask(tasks: seq<Task>, chunks: seq<Chunk>, n: nat, c: nat)
    requires c > 0 && SpansTile(chunks, n) && forall k :: 0 <= k < |chunks| ==> ChunkOf(tasks, chunks[k], c)
    ensures |chunks| <= n
  {
    if chunks != [] {
      var last := chunks[|chunks| - 1];
      assert ChunkOf(tasks, last, c);
      ChunksPerTask(tasks, chunks[..|chunks| - 1], last.firstTask, c);
    }
  }

  /** The reservation made before the loop is not exceeded by a batch that ends before the last cell. */
  lemma {:induction false} ChunkCount(tasks: seq<Task>, chunks: seq<Chunk>, c: nat, start: nat, end: nat)
    requires c > 0 && Grouping(tasks, chunks, c) && Tiles(tasks, start, end)
    requires end <= MAX_SIZE && !InLastCell(end, c)
    ensures |chunks| <= (end - start) / c + 2
  {
    TilesOrdered(tasks, start, end);
    if chunks != [] {
      var n := |chunks| - 1;
      forall k | 0 <= k <= n
        ensures start <= chunks[k].offset <= end && !InLastCell(chunks[k].offset, c)
      {
        assert ChunkOf(tasks, chunks[k], c);
        TilesPrefix(tasks, start, end, chunks[k].firstTask);
        CellBoundary(chunks[k].offset, end, c);
        CellBoundary(end, MAX_SIZE, c);
      }
      CellsGrow(tasks, chunks, c, n);
      CellBoundary(chunks[0].offset, chunks[n].offset, c);
      if n > 0 { assert chunks[0].End() <= chunks[n].offset; }
      DivSpan(chunks[0].offset, chunks[n].offset, c);
      CellBoundary(chunks[n].offset - chunks[0].offset, end - start, c);
    }
  }

  lemma DivSpan(a: nat, b: nat, c: nat)
    requires c > 0 && a <= b
    ensures b / c <= a / c + (b - a) / c + 1
  {
    var p, q := a / c, (b - a) / c;
    assert (p + q + 2) * c == p * c + q * c + 2 * c;
    assert b < (p + q + 2) * c;
    if b / c >= p + q + 2 { MulMonotone(p + q + 2, b / c, c); }
  }
}
