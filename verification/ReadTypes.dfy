/** The values the read planner passes between its stages. */
module ReadTypes {
  import opened Machine
  import opened Sequences

  /** One range as the caller supplies it: file offset, size, destination address. */
  datatype Range = Range(offset: nat, size: nat, dst: nat)

  datatype FileRanges = FileRanges(path: string, ranges: seq<Range>)

  /** One workload's slice of a transfer. */
  datatype FileReadTask = FileReadTask(workload: nat, file: nat, offset: nat, size: nat, dst: nat)

  /** A run of ranges adjacent in both the file and the destination. */
  datatype Transfer = Transfer(file: nat, offset: nat, size: nat, dst: nat,
                               firstRange: nat, rangeSizes: seq<nat>, tasks: seq<FileReadTask>)

  /** A range that owes one response; `tasks` is how many tasks it was cut into, kept in an `unsigned`. */
  datatype Request = Request(offset: nat, file: nat, index: nat, tasks: nat, size: nat, dst: nat)

  /** A count of tasks as the request keeps it. */
  function Narrow(count: nat): nat { count % UNSIGNED }

  datatype Info = Info(offset: nat, size: nat, relative: nat) {
    function End(): nat { offset + size }
  }

  datatype Task = Task(request: Request, info: Info) {
    function Destination(): nat { request.dst + info.relative }
  }

  /** One backend read and the tasks [firstTask, firstTask + taskCount) it completes. */
  datatype Chunk = Chunk(offset: nat, size: nat, buffer: nat, firstTask: nat, taskCount: nat) {
    function End(): nat { offset + size }
  }

  /** The tasks follow each other in the file without gap or overlap, from start to end. */
  ghost predicate Tiles(tasks: seq<Task>, start: nat, end: nat) {
    if tasks == [] then start == end
    else
      var last := tasks[|tasks| - 1].info;
      Tiles(tasks[..|tasks| - 1], start, last.offset) && last.End() == end
  }

  lemma {:induction false} TilesPrefix(tasks: seq<Task>, start: nat, end: nat, i: nat)
    requires Tiles(tasks, start, end) && i < |tasks|
    ensures Tiles(tasks[..i], start, tasks[i].info.offset)
    ensures start <= tasks[i].info.offset && tasks[i].info.End() <= end
  {
    var n := |tasks| - 1;
    TilesOrdered(tasks[..n], start, tasks[n].info.offset);
    if i < n {
      assert tasks[..n][..i] == tasks[..i];
      TilesPrefix(tasks[..n], start, tasks[n].info.offset, i);
    }
  }

  lemma {:induction false} TilesOrdered(tasks: seq<Task>, start: nat, end: nat)
    requires Tiles(tasks, start, end)
    ensures start <= end
  {
    if tasks != [] { TilesOrdered(tasks[..|tasks| - 1], start, tasks[|tasks| - 1].info.offset); }
  }

  lemma TilesMonotone(tasks: seq<Task>, start: nat, end: nat, i: nat, j: nat)
    requires Tiles(tasks, start, end) && i <= j < |tasks|
    ensures tasks[i].info.offset <= tasks[j].info.offset
    ensures tasks[i].info.End() <= tasks[j].info.End()
  {
    if i < j {
      TilesPrefix(tasks, start, end, j);
      TilesPrefix(tasks[..j], start, tasks[j].info.offset, i);
    }
  }

  lemma {:induction false} TaskHolding(tasks: seq<Task>, start: nat, end: nat, o: nat) returns (i: nat)
    requires Tiles(tasks, start, end) && start <= o < end
    ensures i < |tasks| && tasks[i].info.offset <= o < tasks[i].info.End()
  {
    i := |tasks| - 1;
    if o < tasks[i].info.offset {
      i := TaskHolding(tasks[..i], start, tasks[i].info.offset, o);
    }
  }

  lemma TilesAppend(tasks: seq<Task>, start: nat, end: nat, t: Task)
    requires Tiles(tasks, start, end) && t.info.offset == end
    ensures Tiles(tasks + [t], start, t.info.End())
  {
    assert (tasks + [t])[..|tasks|] == tasks;
  }

  /** Tasks of one contiguous buffer: every destination advances in step with its file offset. */
  ghost predicate InStep(tasks: seq<Task>, offset: nat, dst: nat) {
    forall i :: 0 <= i < |tasks| ==>
      offset <= tasks[i].info.offset && tasks[i].Destination() == dst + (tasks[i].info.offset - offset)
  }

  /** The slices of a transfer follow each other in the file, from start to end. */
  ghost predicate SlicesTile(slices: seq<FileReadTask>, start: nat, end: nat) {
    if slices == [] then start == end
    else
      var last := slices[|slices| - 1];
      SlicesTile(slices[..|slices| - 1], start, last.offset) && last.offset + last.size == end
  }

  lemma {:induction false} SlicesPrefix(slices: seq<FileReadTask>, start: nat, end: nat, i: nat)
    requires SlicesTile(slices, start, end) && i < |slices|
    ensures start <= slices[i].offset && slices[i].offset + slices[i].size <= end
    ensures slices[i].offset == if i == 0 then start else slices[i - 1].offset + slices[i - 1].size
    ensures i == |slices| - 1 ==> slices[i].offset + slices[i].size == end
  {
    var n := |slices| - 1;
    if n > 0 { SlicesPrefix(slices[..n], start, slices[n].offset, 0); }
    if i < n {
      SlicesPrefix(slices[..n], start, slices[n].offset, i);
    } else if n > 0 {
      SlicesPrefix(slices[..n], start, slices[n].offset, n - 1);
    }
  }

  lemma {:induction false} SlicesApart(slices: seq<FileReadTask>, start: nat, end: nat, i: nat, j: nat)
    requires SlicesTile(slices, start, end) && i < j < |slices|
    ensures slices[i].offset + slices[i].size <= slices[j].offset
  {
    var n := |slices| - 1;
    if j < n {
      SlicesApart(slices[..n], start, slices[n].offset, i, j);
    } else {
      SlicesPrefix(slices[..n], start, slices[n].offset, i);
    }
  }

  function RangeOffset(t: Transfer, j: nat): nat
    requires j <= |t.rangeSizes|
  {
    t.offset + Sum(t.rangeSizes[..j])
  }

  function RangeDst(t: Transfer, j: nat): nat
    requires j <= |t.rangeSizes|
  {
    t.dst + Sum(t.rangeSizes[..j])
  }

  /** The transfer is divided: its slices tile it, in the file and in the buffer, none of them empty
      unless the transfer is. */
  ghost predicate Divided(t: Transfer) {
    && t.tasks != []
    && SlicesTile(t.tasks, t.offset, t.offset + t.size)
    && (forall k :: 0 <= k < |t.tasks| ==> SliceOf(t, t.tasks[k]))
    && (t.size == 0 ==> |t.tasks| == 1)
  }

  ghost predicate SliceOf(t: Transfer, slice: FileReadTask) {
    && slice.file == t.file
    && t.offset <= slice.offset
    && slice.dst == t.dst + (slice.offset - t.offset)
    && (t.size > 0 ==> slice.size > 0)
  }
}
