/** From plan to answers: the batches of a plan, each run to its end by a reader, are a well formed system
    of Responses - so a planned submission answers every range exactly once. */
module Answering {
  import opened Machine
  import opened Sequences
  import opened ReadTypes
  import opened Batches
  import opened Coalescing
  import opened ReadPlan
  import opened Deeds
  import Responses
  import BatchExecution

  /** A range's place among all ranges of the request. */
  function Number(files: seq<FileRanges>, file: nat, index: nat): nat
    requires file < |files|
  {
    |Flatten(files, file)| + index
  }

  function NumberOf(files: seq<FileRanges>, r: Request): nat {
    if r.file < |files| then Number(files, r.file, r.index) else 0
  }

  function OwnersOf(files: seq<FileRanges>, tasks: seq<Task>): seq<nat> {
    if tasks == [] then []
    else OwnersOf(files, tasks[..|tasks| - 1]) + [NumberOf(files, tasks[|tasks| - 1].request)]
  }

  /** The range of every task, batch after batch. */
  function Owners(files: seq<FileRanges>, batches: seq<Batch>): seq<nat> {
    if batches == [] then []
    else Owners(files, batches[..|batches| - 1]) + OwnersOf(files, batches[|batches| - 1].tasks)
  }

  /** The number of the first task of batch b. */
  function Base(files: seq<FileRanges>, batches: seq<Batch>, b: nat): nat
    requires b <= |batches|
  {
    |Owners(files, batches[..b])|
  }

  function Shifted(log: seq<Responses.Finish>, base: nat): seq<Responses.Finish> {
    if log == [] then []
    else Shifted(log[..|log| - 1], base) + [Responses.Finish(base + log[|log| - 1].task, log[|log| - 1].code)]
  }

  lemma {:induction false} ShiftedAt(log: seq<Responses.Finish>, base: nat)
    ensures |Shifted(log, base)| == |log|
    ensures forall k :: 0 <= k < |log| ==> Shifted(log, base)[k] == Responses.Finish(base + log[k].task, log[k].code)
  {
    if log != [] { ShiftedAt(log[..|log| - 1], base); }
  }

  lemma {:induction false} OwnersAt(files: seq<FileRanges>, tasks: seq<Task>)
    ensures |OwnersOf(files, tasks)| == |tasks|
    ensures forall i :: 0 <= i < |tasks| ==> OwnersOf(files, tasks)[i] == NumberOf(files, tasks[i].request)
  {
    if tasks != [] { OwnersAt(files, tasks[..|tasks| - 1]); }
  }

  /** Batches occupy their own stretches of the numbering, one after another. */
  lemma {:induction false} BaseNext(files: seq<FileRanges>, batches: seq<Batch>, b: nat)
    requires b < |batches|
    ensures Base(files, batches, b + 1) == Base(files, batches, b) + |batches[b].tasks|
  {
    assert batches[..b + 1][..b] == batches[..b];
    OwnersAt(files, batches[b].tasks);
  }

  lemma {:induction false} BaseMonotone(files: seq<FileRanges>, batches: seq<Batch>, b: nat, c: nat)
    requires b <= c <= |batches|
    ensures Base(files, batches, b) <= Base(files, batches, c)
  {
    if b < c {
      BaseMonotone(files, batches, b, c - 1);
      BaseNext(files, batches, c - 1);
    }
  }

  lemma {:induction false} OwnerAt(files: seq<FileRanges>, batches: seq<Batch>, b: nat, i: nat)
    requires b < |batches| && i < |batches[b].tasks|
    ensures Base(files, batches, b) + i < |Owners(files, batches)|
    ensures Owners(files, batches)[Base(files, batches, b) + i] == NumberOf(files, batches[b].tasks[i].request)
  {
    var n := |batches| - 1;
    OwnersAt(files, batches[n].tasks);
    if b < n {
      assert batches[..n][..b] == batches[..b];
      OwnerAt(files, batches[..n], b, i);
    }
  }

  /** Every task number is some batch's. */
  lemma {:induction false} TaskAt(files: seq<FileRanges>, batches: seq<Batch>, t: nat) returns (b: nat, i: nat)
    requires t < |Owners(files, batches)|
    ensures b < |batches| && i < |batches[b].tasks| && t == Base(files, batches, b) + i
  {
    var n := |batches| - 1;
    OwnersAt(files, batches[n].tasks);
    if t < |Owners(files, batches[..n])| {
      b, i := TaskAt(files, batches[..n], t);
      assert batches[..n][..b] == batches[..b];
    } else {
      b, i := n, t - |Owners(files, batches[..n])|;
    }
  }

  lemma {:induction false} OneBatchEach(files: seq<FileRanges>, batches: seq<Batch>, b: nat, i: nat, c: nat, j: nat)
    requires b < |batches| && i < |batches[b].tasks| && c < |batches| && j < |batches[c].tasks|
    requires Base(files, batches, b) + i == Base(files, batches, c) + j
    ensures b == c && i == j
  {
    BaseNext(files, batches, b);
    BaseNext(files, batches, c);
    if b < c { BaseMonotone(files, batches, b + 1, c); }
    if c < b { BaseMonotone(files, batches, c + 1, b); }
  }

  /** What each batch's reader leaves behind: every task of the batch finished, once. */
  ghost predicate RunToEnd(batches: seq<Batch>, logs: seq<seq<Responses.Finish>>) {
    |logs| == |batches| && forall b :: 0 <= b < |batches| ==> Complete(batches[b], logs[b])
  }

  ghost predicate Complete(batch: Batch, log: seq<Responses.Finish>) {
    && (forall k :: 0 <= k < |log| ==> log[k].task < |batch.tasks|)
    && (forall k, l :: 0 <= k < l < |log| ==> log[k].task != log[l].task)
    && (forall i :: 0 <= i < |batch.tasks| ==> BatchExecution.Finishes(log, i))
  }

  /** Execute's postcondition is that. */
  lemma {:induction false} ExecutedIsComplete(batch: Batch, log: seq<Responses.Finish>, finished: seq<bool>)
    requires BatchExecution.Logged(log, finished) && |finished| == |batch.tasks|
    requires forall i :: 0 <= i < |finished| ==> finished[i]
    ensures Complete(batch, log)
  {
  }

  function Programs(files: seq<FileRanges>, batches: seq<Batch>, logs: seq<seq<Responses.Finish>>): seq<seq<Responses.Finish>>
    requires |logs| == |batches|
  {
    seq(|logs|, b requires 0 <= b < |logs| => Shifted(logs[b], Base(files, batches, b)))
  }

  function SystemOf(files: seq<FileRanges>, batches: seq<Batch>, logs: seq<seq<Responses.Finish>>): Responses.System
    requires |logs| == |batches|
  {
    Responses.System(Owners(files, batches), |Flatten(files, |files|)|, Programs(files, batches, logs))
  }

  lemma {:induction false} ProgramAt(files: seq<FileRanges>, batches: seq<Batch>, logs: seq<seq<Responses.Finish>>, b: nat, k: nat)
    requires RunToEnd(batches, logs) && b < |batches| && k < |logs[b]|
    ensures
      var program := Programs(files, batches, logs)[b];
      && |program| == |logs[b]| && logs[b][k].task < |batches[b].tasks|
      && program[k] == Responses.Finish(Base(files, batches, b) + logs[b][k].task, logs[b][k].code)
      && program[k].task < |Owners(files, batches)|
  {
    ShiftedAt(logs[b], Base(files, batches, b));
    assert Complete(batches[b], logs[b]);
    OwnerAt(files, batches, b, logs[b][k].task);
  }

  lemma {:induction false} EachTaskAppears(files: seq<FileRanges>, batches: seq<Batch>, logs: seq<seq<Responses.Finish>>, t: nat)
    requires RunToEnd(batches, logs) && t < |Owners(files, batches)|
    ensures Responses.Appears(SystemOf(files, batches, logs), t)
  {
    var b, i := TaskAt(files, batches, t);
    assert Complete(batches[b], logs[b]);
    assert BatchExecution.Finishes(logs[b], i);
    var k: nat :| k < |logs[b]| && logs[b][k].task == i;
    ProgramAt(files, batches, logs, b, k);
    assert Responses.AppearsAt(SystemOf(files, batches, logs), b, k, t);
  }

  lemma {:induction false} AppearsOnce(files: seq<FileRanges>, batches: seq<Batch>, logs: seq<seq<Responses.Finish>>,
                                       b: nat, i: nat, c: nat, j: nat, t: nat)
    requires RunToEnd(batches, logs)
    requires Responses.AppearsAt(SystemOf(files, batches, logs), b, i, t)
    requires Responses.AppearsAt(SystemOf(files, batches, logs), c, j, t)
    ensures b == c && i == j
  {
    ShiftedAt(logs[b], Base(files, batches, b));
    ShiftedAt(logs[c], Base(files, batches, c));
    ProgramAt(files, batches, logs, b, i);
    ProgramAt(files, batches, logs, c, j);
    OneBatchEach(files, batches, b, logs[b][i].task, c, logs[c][j].task);
    assert Complete(batches[b], logs[b]);
  }

  lemma {:induction false} NumberBelow(files: seq<FileRanges>, file: nat, index: nat)
    requires file < |files| && index < |files[file].ranges|
    ensures Number(files, file, index) < |Flatten(files, |files|)|
  {
    FlattenGrows(files, file + 1, |files|);
    FlattenFileLength(file, files[file].ranges, |files[file].ranges|);
  }

  lemma {:induction false} FlattenGrows(files: seq<FileRanges>, m: nat, n: nat)
    requires m <= n <= |files|
    ensures |Flatten(files, m)| <= |Flatten(files, n)|
  {
    if m < n { FlattenGrows(files, m, n - 1); }
  }

  /** Every number is some range's. */
  lemma {:induction false} RangeAt(files: seq<FileRanges>, n: nat, r: nat) returns (file: nat, index: nat)
    requires n <= |files| && r < |Flatten(files, n)|
    ensures file < n && index < |files[file].ranges| && r == Number(files, file, index)
  {
    FlattenFileLength(n - 1, files[n - 1].ranges, |files[n - 1].ranges|);
    if r < |Flatten(files, n - 1)| {
      file, index := RangeAt(files, n - 1, r);
    } else {
      file, index := n - 1, r - |Flatten(files, n - 1)|;
    }
  }

  /** A task's request names a range the caller gave. */
  lemma {:induction false} OwnerIsRange(files: seq<FileRanges>, byFile: seq<int>, c: nat, plans: seq<TransferPlan>,
                                        gw: seq<int>, workloads: seq<seq<Batch>>, b: nat, i: nat)
    requires c > 0 && PlanOf(files, byFile, c, plans, gw, workloads)
    requires b < |AllBatches(plans)| && i < |AllBatches(plans)[b].tasks|
    ensures
      var r := AllBatches(plans)[b].tasks[i].request;
      r.file < |files| && r.index < |files[r.file].ranges|
  {
    var all := AllBatches(plans);
    var r := all[b].tasks[i].request;
    FlattenNamed(files, |files|, r.file, r.index);
    if !(r.file < |files| && r.index < |files[r.file].ranges|) {
      PlansOweNot(plans, c, r.file, r.index);
      UnnamedTask(all, r.file, r.index, all[b], i);
    }
  }

  lemma {:induction false} RangeIsOwner(files: seq<FileRanges>, byFile: seq<int>, c: nat, plans: seq<TransferPlan>,
                                        gw: seq<int>, workloads: seq<seq<Batch>>, r: nat)
    requires c > 0 && PlanOf(files, byFile, c, plans, gw, workloads) && r < |Flatten(files, |files|)|
    ensures Responses.HasTask(Owners(files, AllBatches(plans)), r)
  {
    var all := AllBatches(plans);
    var f, i := RangeAt(files, |files|, r);
    FlattenNamed(files, |files|, f, i);
    var request := PlansOwe(plans, c, f, i);
    var b, k := NamedTask(all, f, i);
    OwnerAt(files, all, b, k);
  }

  lemma {:induction false} NamedTask(batches: seq<Batch>, file: nat, index: nat) returns (b: nat, k: nat)
    requires Weight(batches, BatchNamed(file, index)) > 0
    ensures b < |batches| && k < |batches[b].tasks| && Names(batches[b].tasks[k].request, file, index)
  {
    WeightPositive(batches, BatchNamed(file, index));
    var batch :| batch in batches && BatchNamed(file, index)(batch) > 0;
    b :| 0 <= b < |batches| && batches[b] == batch;
    WeightPositive(batch.tasks, TaskNamed(file, index));
    var task :| task in batch.tasks && TaskNamed(file, index)(task) > 0;
    k :| 0 <= k < |batch.tasks| && batch.tasks[k] == task;
  }

  /** A planned submission whose batches all run to their end is a well formed system. */
  lemma {:induction false} PlanIsSystem(files: seq<FileRanges>, byFile: seq<int>, c: nat, plans: seq<TransferPlan>,
                                        gw: seq<int>, workloads: seq<seq<Batch>>, logs: seq<seq<Responses.Finish>>)
    requires c > 0 && PlanOf(files, byFile, c, plans, gw, workloads) && RunToEnd(AllBatches(plans), logs)
    ensures Responses.WellFormed(SystemOf(files, AllBatches(plans), logs))
  {
    var all := AllBatches(plans);
    var sys := SystemOf(files, all, logs);
    forall t | 0 <= t < |sys.owner|
      ensures sys.owner[t] < sys.ranges && Responses.Appears(sys, t)
    {
      var b, i := TaskAt(files, all, t);
      OwnerAt(files, all, b, i);
      OwnerIsRange(files, byFile, c, plans, gw, workloads, b, i);
      NumberBelow(files, all[b].tasks[i].request.file, all[b].tasks[i].request.index);
      EachTaskAppears(files, all, logs, t);
    }
    forall r | 0 <= r < sys.ranges
      ensures Responses.HasTask(sys.owner, r)
    {
      RangeIsOwner(files, byFile, c, plans, gw, workloads, r);
    }
    forall b, k | 0 <= b < |sys.programs| && 0 <= k < |sys.programs[b]|
      ensures sys.programs[b][k].task < |sys.owner|
    {
      ShiftedAt(logs[b], Base(files, all, b));
      ProgramAt(files, all, logs, b, k);
    }
    forall b, i, d, j, t | Responses.AppearsAt(sys, b, i, t) && Responses.AppearsAt(sys, d, j, t)
      ensures b == d && i == j
    {
      AppearsOnce(files, all, logs, b, i, d, j, t);
    }
  }

  /* ---- how many tasks answer for a range ---- */

  lemma {:induction false} CountConcat(a: seq<nat>, b: seq<nat>, r: nat)
    ensures Responses.Count(a + b, r) == Responses.Count(a, r) + Responses.Count(b, r)
  {
    if b == [] {
      assert a + b == a;
    } else {
      var n := |b| - 1;
      assert (a + b)[..|a + b| - 1] == a + b[..n];
      CountConcat(a, b[..n], r);
    }
  }

  /** The request names a range the caller gave. */
  ghost predicate Given(files: seq<FileRanges>, r: Request) {
    r.file < |files| && r.index < |files[r.file].ranges|
  }

  ghost predicate AllGiven(files: seq<FileRanges>, tasks: seq<Task>) {
    forall k :: 0 <= k < |tasks| ==> Given(files, tasks[k].request)
  }

  /** No two ranges have one number. */
  lemma {:induction false} NumberUnique(files: seq<FileRanges>, f: nat, i: nat, g: nat, j: nat)
    requires f < |files| && i < |files[f].ranges| && g < |files| && j < |files[g].ranges|
    requires Number(files, f, i) == Number(files, g, j)
    ensures f == g && i == j
  {
    FlattenFileLength(f, files[f].ranges, |files[f].ranges|);
    FlattenFileLength(g, files[g].ranges, |files[g].ranges|);
    if f < g { FlattenGrows(files, f + 1, g); }
    if g < f { FlattenGrows(files, g + 1, f); }
  }

  lemma {:induction false} CountTasks(files: seq<FileRanges>, tasks: seq<Task>, f: nat, i: nat)
    requires AllGiven(files, tasks) && f < |files| && i < |files[f].ranges|
    ensures Responses.Count(OwnersOf(files, tasks), Number(files, f, i)) == Weight(tasks, TaskNamed(f, i))
  {
    if tasks != [] {
      var n := |tasks| - 1;
      CountTasks(files, tasks[..n], f, i);
      var r := tasks[n].request;
      assert Given(files, r);
      if NumberOf(files, r) == Number(files, f, i) { NumberUnique(files, r.file, r.index, f, i); }
      CountConcat(OwnersOf(files, tasks[..n]), [NumberOf(files, r)], Number(files, f, i));
    }
  }

  lemma {:induction false} CountBatches(files: seq<FileRanges>, batches: seq<Batch>, f: nat, i: nat)
    requires (forall b :: 0 <= b < |batches| ==> AllGiven(files, batches[b].tasks)) && f < |files| && i < |files[f].ranges|
    ensures Responses.Count(Owners(files, batches), Number(files, f, i)) == Weight(batches, BatchNamed(f, i))
  {
    if batches != [] {
      var n := |batches| - 1;
      CountBatches(files, batches[..n], f, i);
      CountTasks(files, batches[n].tasks, f, i);
      CountConcat(Owners(files, batches[..n]), OwnersOf(files, batches[n].tasks), Number(files, f, i));
    }
  }

  /** The tasks that answer for a range, over all batches, are those its request was made to count. */
  lemma {:induction false} CountIsOwed(files: seq<FileRanges>, byFile: seq<int>, c: nat, plans: seq<TransferPlan>,
                                       gw: seq<int>, workloads: seq<seq<Batch>>, f: nat, i: nat)
    requires c > 0 && PlanOf(files, byFile, c, plans, gw, workloads)
    requires f < |files| && i < |files[f].ranges|
    ensures Responses.Count(Owners(files, AllBatches(plans)), Number(files, f, i)) == TasksOwed(workloads, f, i)
  {
    var all := AllBatches(plans);
    forall b | 0 <= b < |all|
      ensures AllGiven(files, all[b].tasks)
    {
      forall k | 0 <= k < |all[b].tasks|
        ensures Given(files, all[b].tasks[k].request)
      {
        OwnerIsRange(files, byFile, c, plans, gw, workloads, b, k);
      }
    }
    CountBatches(files, all, f, i);
    DistributedTotal(plans, workloads, BatchNamed(f, i), WorkloadNamed(f, i));
  }

  /** Plan a submission, run its batches on any threads in any interleaving, each to whatever end it comes
      to. When all are through, every range the caller gave has a response, and exactly one if and only if
      its tasks are no more than its request can count; that one is Success exactly when no batch failed a
      task of the range. */
  lemma {:induction false} EveryRangeAnsweredOnce(files: seq<FileRanges>, byFile: seq<int>, c: nat, plans: seq<TransferPlan>,
                                                  gw: seq<int>, workloads: seq<seq<Batch>>, logs: seq<seq<Responses.Finish>>,
                                                  run: seq<Responses.State>, f: nat, i: nat)
    requires c > 0 && PlanOf(files, byFile, c, plans, gw, workloads) && RunToEnd(AllBatches(plans), logs)
    requires Responses.Run(SystemOf(files, AllBatches(plans), logs), run)
    requires Responses.AllDone(SystemOf(files, AllBatches(plans), logs), run[|run| - 1])
    requires f < |files| && i < |files[f].ranges|
    ensures
      var sys, s, r := SystemOf(files, AllBatches(plans), logs), run[|run| - 1], Number(files, f, i);
      && Responses.Answers(s.responses, r) >= 1
      && (Responses.Answers(s.responses, r) == 1 <==> TasksOwed(workloads, f, i) <= UNSIGNED)
      && (TasksOwed(workloads, f, i) <= UNSIGNED ==>
            (Responses.Response(r, Responses.Success) in s.responses <==> forall e: nat :: !Responses.CodeFor(sys, r, Responses.Failed(e))))
  {
    var sys, r := SystemOf(files, AllBatches(plans), logs), Number(files, f, i);
    hide *;
    PlanIsSystem(files, byFile, c, plans, gw, workloads, logs);
    NumberInSystem(files, plans, logs, f, i);
    CountIsOwed(files, byFile, c, plans, gw, workloads, f, i);
    Responses.ExactlyOneResponse(sys, run, r);
    var request := EveryRangeOwed(files, byFile, c, plans, gw, workloads, f, i);
    Responses.OnesOf(TasksOwed(workloads, f, i));
  }

  lemma {:induction false} NumberInSystem(files: seq<FileRanges>, plans: seq<TransferPlan>, logs: seq<seq<Responses.Finish>>, f: nat, i: nat)
    requires |logs| == |AllBatches(plans)| && f < |files| && i < |files[f].ranges|
    ensures
      var sys := SystemOf(files, AllBatches(plans), logs);
      Number(files, f, i) < sys.ranges && sys.owner == Owners(files, AllBatches(plans))
  {
    NumberBelow(files, f, i);
  }

  /* ---- an answer means bytes ---- */

  /** Where a batch's bytes belong: its tasks lie side by side in the file and in memory. */
  function SpanOf(batch: Batch): Span {
    if batch.tasks == [] || batch.tasks[|batch.tasks| - 1].info.End() < batch.tasks[0].info.offset then Span(0, 0, 0)
    else
      var first, last := batch.tasks[0], batch.tasks[|batch.tasks| - 1];
      Span(first.info.offset, first.Destination(), last.info.End() - first.info.offset)
  }

  lemma {:induction false} StartsInStep(t: Transfer, slice: FileReadTask, batch: Batch, c: nat)
    requires c > 0 && BatchFor(t, slice, batch, c) && SliceOf(t, slice)
    ensures batch.tasks != [] && Tiles(batch.tasks, slice.offset, slice.offset + slice.size)
    ensures batch.tasks[0].Destination() == slice.dst && InStep(batch.tasks, slice.offset, slice.dst)
  {
    TilesPrefix(batch.tasks, slice.offset, slice.offset + slice.size, 0);
    assert batch.tasks[..0] == [];
    forall k | 0 <= k < |batch.tasks|
      ensures slice.offset <= batch.tasks[k].info.offset
    {
      TilesPrefix(batch.tasks, slice.offset, slice.offset + slice.size, k);
    }
  }

  lemma {:induction false} SpanIsSlice(t: Transfer, slice: FileReadTask, batch: Batch, c: nat)
    requires c > 0 && BatchFor(t, slice, batch, c) && SliceOf(t, slice)
    ensures SpanOf(batch) == Span(slice.offset, slice.dst, slice.size)
  {
    StartsInStep(t, slice, batch, c);
    TilesPrefix(batch.tasks, slice.offset, slice.offset + slice.size, 0);
    assert batch.tasks[..0] == [];
  }

  /** A batch of a plan can be read: the reader's own conditions are what the plan gives, for a target of
      any kind. What it does is a sound trail of deeds in the batch's span: they make the memory after of
      the one before, and tell each task of the batch once. */
  method ReadPlanned(t: Transfer, slice: FileReadTask, batch: Batch, c: nat,
                     file: BatchExecution.SourceFile, device: BatchExecution.DeviceStream, pool: BatchExecution.StagingPool,
                     stop: BatchExecution.StopFlag, target: BatchExecution.Target, block: nat)
    returns (code: Responses.Code, ghost deeds: seq<Deed>, ghost lost: bool)
    requires c > 0 && BatchFor(t, slice, batch, c) && SliceOf(t, slice)
    requires block > 0 && 0 < device.block <= pool.bufferSize
    requires file.error.Success? && pool.error.Success? && !pool.closed
    requires device.Valid() && device.queue == [] && device.failure.Success?
    modifies file, pool, stop, device
    ensures lost ==> target.Staged? && slice.size > (UNSIGNED - 1) * device.block
    ensures Sound(batch.tasks, SpanOf(batch), deeds) && (!lost ==> Complete(batch, Tells(deeds)))
    ensures BatchExecution.Batch.TargetMemory(target, file.memory, device.memory) ==
            Replay(BatchExecution.Batch.TargetMemory(target, old(file.memory), old(device.memory)), deeds, SpanOf(batch))
    ensures BatchExecution.AllInPlace(Tells(deeds), batch.tasks, BatchExecution.Batch.TargetMemory(target, file.memory, device.memory))
    ensures code.Success? ==> forall k :: 0 <= k < |Tells(deeds)| ==> Tells(deeds)[k].code.Success?
  {
    StartsInStep(t, slice, batch, c);
    SpanIsSlice(t, slice, batch, c);
    hide BatchFor, InStep, Tiles, SliceOf, SpanOf, Complete, Sound, Replay, Tells, BatchExecution.AllInPlace, Elsewhere;
    var reader := new BatchExecution.Batch(batch.tasks, slice.offset, slice.offset + slice.size);
    code, lost := reader.Execute(file, device, pool, stop, target, block);
    deeds := reader.deeds;
    if !lost { ExecutedIsComplete(batch, Tells(deeds), reader.finished); }
  }

  /** Memory shared by all batches: which byte of which file an address has. */
  datatype Origin = Origin(file: nat, offset: nat)

  type Contents = map<nat, Origin>

  /** The byte that belongs at an address of the batch. */
  function Belongs(batch: Batch, a: nat): Origin {
    var span := SpanOf(batch);
    Origin(batch.file, if span.dst <= a then span.start + (a - span.dst) else 0)
  }

  /** A deed, done to the shared memory: what Replay does with it to the memory of one reader. */
  function Done(contents: Contents, batch: Batch, d: Deed): (after: Contents)
    ensures forall a: nat :: d.WritesTo(a) ==> a in after && after[a] == Belongs(batch, a)
    ensures forall a: nat :: !d.WritesTo(a) ==> (a in contents <==> a in after) && (a in contents ==> after[a] == contents[a])
  {
    if d.Wrote? then contents + map a: nat | d.dst <= a < d.dst + d.size :: Belongs(batch, a) else contents
  }

  /** All batches being read at once: how far each is in its deeds, how far its answers are, and the memory. */
  datatype Moment = Moment(state: Responses.State, done: seq<nat>, contents: Contents)

  ghost function Logs(trails: seq<seq<Deed>>): (logs: seq<seq<Responses.Finish>>)
    ensures |logs| == |trails| && forall b :: 0 <= b < |trails| ==> logs[b] == Tells(trails[b])
  {
    seq(|trails|, b requires 0 <= b < |trails| => Tells(trails[b]))
  }

  /** What each reader leaves behind: a sound trail of deeds that tells every task of its batch. */
  ghost predicate Read(batches: seq<Batch>, trails: seq<seq<Deed>>) {
    && RunToEnd(batches, Logs(trails))
    && forall b :: 0 <= b < |batches| ==> Sound(batches[b].tasks, SpanOf(batches[b]), trails[b])
  }

  /** Batch w does its next deed: bytes arrive, or it sets about telling a task's end. */
  ghost predicate Does(batches: seq<Batch>, trails: seq<seq<Deed>>, m: Moment, m': Moment, w: nat) {
    && w < |batches| == |trails| == |m.done| && m.done[w] < |trails[w]|
    && m' == m.(done := m.done[w := m.done[w] + 1], contents := Done(m.contents, batches[w], trails[w][m.done[w]]))
  }

  /** One atomic step of telling what batch w has set about to tell. */
  ghost predicate Answers(files: seq<FileRanges>, batches: seq<Batch>, trails: seq<seq<Deed>>, m: Moment, m': Moment, w: nat) {
    && w < |batches| == |trails| == |m.done| && m.done[w] <= |trails[w]|
    && w < |m.state.pc| && m.state.pc[w] < |Tells(trails[w][..m.done[w]])|
    && Responses.ThreadStep(SystemOf(files, batches, Logs(trails)), m.state, m'.state, w)
    && m' == m.(state := m'.state)
  }

  ghost predicate Moves(files: seq<FileRanges>, batches: seq<Batch>, trails: seq<seq<Deed>>, m: Moment, m': Moment, w: nat) {
    Does(batches, trails, m, m', w) || Answers(files, batches, trails, m, m', w)
  }

  ghost predicate Begins(files: seq<FileRanges>, batches: seq<Batch>, trails: seq<seq<Deed>>, m: Moment) {
    && |trails| == |batches| == |m.done| && (forall b :: 0 <= b < |batches| ==> m.done[b] == 0)
    && Responses.Init(SystemOf(files, batches, Logs(trails)), m.state)
  }

  /** Any interleaving of the readers' deeds and of the atomic steps of their answers. */
  ghost predicate ReadingRun(files: seq<FileRanges>, batches: seq<Batch>, trails: seq<seq<Deed>>, run: seq<Moment>) {
    && run != [] && Begins(files, batches, trails, run[0])
    && forall n, m :: 0 <= n < m < |run| && m == n + 1 ==> exists w: nat :: Moves(files, batches, trails, run[n], run[m], w)
  }

  ghost predicate Reported(files: seq<FileRanges>, batches: seq<Batch>, logs: seq<seq<Responses.Finish>>,
                           s: Responses.State, b: nat, k: nat)
    requires b < |batches| == |logs| && k < |logs[b]|
  {
    var t := Base(files, batches, b) + logs[b][k].task;
    t < |s.phase| && !s.phase[t].Open?
  }

  /** What a batch has written so far is in the shared memory, whatever the others have done. */
  ghost predicate BytesKept(batches: seq<Batch>, trails: seq<seq<Deed>>, m: Moment) {
    && |trails| == |batches| == |m.done| && (forall b :: 0 <= b < |batches| ==> m.done[b] <= |trails[b]|)
    && forall b, a: nat :: 0 <= b < |batches| && Covers(trails[b][..m.done[b]], a) ==> a in m.contents && m.contents[a] == Belongs(batches[b], a)
  }

  /** Nothing is reported before its reader told it. */
  ghost predicate ToldFirst(files: seq<FileRanges>, batches: seq<Batch>, trails: seq<seq<Deed>>, m: Moment) {
    && |trails| == |batches| == |m.done|
    && forall b, k :: 0 <= b < |batches| && 0 <= k < |Logs(trails)[b]| && Reported(files, batches, Logs(trails), m.state, b, k) ==>
         m.done[b] <= |trails[b]| && k < |Tells(trails[b][..m.done[b]])|
  }

  /** A batch of a plan: its tasks are in step with its span, and every address of the span is some task's. */
  ghost predicate Spanned(batch: Batch) {
    && InStep(batch.tasks, SpanOf(batch).start, SpanOf(batch).dst)
    && forall a: nat :: SpanOf(batch).dst <= a < SpanOf(batch).dst + SpanOf(batch).size ==> BatchWrites(batch, a)
  }

  lemma {:induction false} PlannedIsSpanned(t: Transfer, slice: FileReadTask, batch: Batch, c: nat)
    requires c > 0 && BatchFor(t, slice, batch, c) && SliceOf(t, slice)
    ensures Spanned(batch)
  {
    StartsInStep(t, slice, batch, c);
    SpanIsSlice(t, slice, batch, c);
    hide BatchFor, SpanOf, SliceOf, InStep, Tiles;
    forall a: nat | slice.dst <= a < slice.dst + slice.size
      ensures BatchWrites(batch, a)
    {
      DestinationIsTasks(slice, batch, a);
    }
  }

  lemma {:induction false} DestinationIsTasks(slice: FileReadTask, batch: Batch, a: nat)
    requires Tiles(batch.tasks, slice.offset, slice.offset + slice.size) && InStep(batch.tasks, slice.offset, slice.dst)
    requires slice.dst <= a < slice.dst + slice.size
    ensures BatchWrites(batch, a)
  {
    var k := TaskHolding(batch.tasks, slice.offset, slice.offset + slice.size, slice.offset + (a - slice.dst));
    assert TaskWrites(batch.tasks, k, a);
  }

  lemma {:induction false} AllSpanned(files: seq<FileRanges>, byFile: seq<int>, c: nat, plans: seq<TransferPlan>,
                                      gw: seq<int>, workloads: seq<seq<Batch>>, b: nat)
    requires c > 0 && PlanOf(files, byFile, c, plans, gw, workloads) && b < |AllBatches(plans)|
    ensures Spanned(AllBatches(plans)[b])
  {
    hide Spanned, WellPlanned, Maximal, OwnGroup, Shared, Flatten, ExpandAll, AllBatches;
    var t, slice := BatchPlanned(plans, c, AllBatches(plans)[b]);
    hide PlanOf;
    PlannedIsSpanned(t, slice, AllBatches(plans)[b], c);
  }

  /** What a sound trail writes, its batch writes. */
  lemma {:induction false} CoveredIsWritten(batch: Batch, deeds: seq<Deed>, n: nat, a: nat)
    requires Sound(batch.tasks, SpanOf(batch), deeds) && Spanned(batch) && n <= |deeds|
    requires Covers(deeds[..n], a) || (n < |deeds| && deeds[n].WritesTo(a))
    ensures BatchWrites(batch, a)
  {
    hide SpanOf, Sound, Covers, InStep, BatchWrites;
    if n < |deeds| && deeds[n].WritesTo(a) {
      SoundPart(batch.tasks, SpanOf(batch), deeds, n);
    } else {
      var j := Writer(deeds, n, a);
      SoundPart(batch.tasks, SpanOf(batch), deeds, j);
    }
  }

  lemma {:induction false} Writer(deeds: seq<Deed>, n: nat, a: nat) returns (j: nat)
    requires n <= |deeds| && Covers(deeds[..n], a)
    ensures j < n && deeds[j].WritesTo(a)
  {
    j :| 0 <= j < n && deeds[..n][j].WritesTo(a);
  }

  lemma {:induction false} CoveredNext(deeds: seq<Deed>, n: nat, a: nat)
    requires n < |deeds| && Covers(deeds[..n + 1], a)
    ensures Covers(deeds[..n], a) || deeds[n].WritesTo(a)
  {
    var j := Writer(deeds, n + 1, a);
    if j < n { assert deeds[..n][j].WritesTo(a); }
  }

  /** Whatever one reader does, the bytes the others have written stay, as long as no two ranges are to go
      to the same address. */
  lemma {:induction false} DeedKeepsBytes(files: seq<FileRanges>, byFile: seq<int>, c: nat, plans: seq<TransferPlan>,
                                          gw: seq<int>, workloads: seq<seq<Batch>>, trails: seq<seq<Deed>>, m: Moment, m': Moment, w: nat)
    requires c > 0 && PlanOf(files, byFile, c, plans, gw, workloads) && Disjoint(Flatten(files, |files|))
    requires Read(AllBatches(plans), trails) && BytesKept(AllBatches(plans), trails, m) && Does(AllBatches(plans), trails, m, m', w)
    ensures BytesKept(AllBatches(plans), trails, m')
  {
    var all := AllBatches(plans);
    hide PlanOf, Disjoint, Flatten, AllBatches, Covers, RunToEnd, Sound, Belongs, Done;
    forall b, a: nat | 0 <= b < |all| && Covers(trails[b][..m'.done[b]], a)
      ensures a in m'.contents && m'.contents[a] == Belongs(all[b], a)
    {
      if b == w { CoveredNext(trails[w], m.done[w], a); }
      if b != w && trails[w][m.done[w]].WritesTo(a) {
        OthersKeepOut(files, byFile, c, plans, gw, workloads, trails, b, m.done[b], w, m.done[w], a);
        assert false;
      }
    }
  }

  lemma {:induction false} OthersKeepOut(files: seq<FileRanges>, byFile: seq<int>, c: nat, plans: seq<TransferPlan>,
                                         gw: seq<int>, workloads: seq<seq<Batch>>, trails: seq<seq<Deed>>,
                                         b: nat, n: nat, w: nat, m: nat, a: nat)
    requires c > 0 && PlanOf(files, byFile, c, plans, gw, workloads) && Disjoint(Flatten(files, |files|))
    requires Read(AllBatches(plans), trails) && b < |AllBatches(plans)| && w < |AllBatches(plans)| && b != w
    requires |trails| == |AllBatches(plans)| && n <= |trails[b]| && m < |trails[w]| && Covers(trails[b][..n], a)
    ensures !trails[w][m].WritesTo(a)
  {
    var all := AllBatches(plans);
    hide PlanOf, Disjoint, Flatten, AllBatches, Covers, RunToEnd, Sound, SpanOf, Spanned, BatchWrites;
    if trails[w][m].WritesTo(a) {
      AllSpanned(files, byFile, c, plans, gw, workloads, b);
      AllSpanned(files, byFile, c, plans, gw, workloads, w);
      CoveredIsWritten(all[b], trails[b], n, a);
      CoveredIsWritten(all[w], trails[w], m, a);
      if b < w {
        BatchesApart(files, byFile, c, plans, gw, workloads, b, w, a);
      } else {
        BatchesApart(files, byFile, c, plans, gw, workloads, w, b, a);
      }
    }
  }

  lemma {:induction false} DeedKeepsTold(files: seq<FileRanges>, batches: seq<Batch>, trails: seq<seq<Deed>>, m: Moment, m': Moment, w: nat)
    requires ToldFirst(files, batches, trails, m) && Does(batches, trails, m, m', w)
    ensures ToldFirst(files, batches, trails, m')
  {
    var n := m.done[w];
    assert trails[w][..n + 1][..n] == trails[w][..n];
    TellsGrow(trails[w][..n + 1], n);
    hide Reported, Tells, Logs, Done;
  }

  lemma {:induction false} AnswerKeepsTold(files: seq<FileRanges>, batches: seq<Batch>, trails: seq<seq<Deed>>, m: Moment, m': Moment, w: nat)
    requires Read(batches, trails) && ToldFirst(files, batches, trails, m) && Answers(files, batches, trails, m, m', w)
    ensures ToldFirst(files, batches, trails, m')
  {
    hide Reported, Tells, Sound, SystemOf, Responses.ThreadStep, Complete;
    forall b, k | 0 <= b < |batches| && 0 <= k < |Logs(trails)[b]| && Reported(files, batches, Logs(trails), m'.state, b, k)
      ensures m'.done[b] <= |trails[b]| && k < |Tells(trails[b][..m'.done[b]])|
    {
      if b != w {
        OthersNotReported(files, batches, Logs(trails), m.state, m'.state, w, b, k);
      } else if k != m.state.pc[w] {
        OwnNotReported(files, batches, Logs(trails), m.state, m'.state, w, k);
      }
    }
  }

  lemma {:induction false} OthersNotReported(files: seq<FileRanges>, batches: seq<Batch>, logs: seq<seq<Responses.Finish>>,
                                             s: Responses.State, s': Responses.State, w: nat, b: nat, k: nat)
    requires RunToEnd(batches, logs) && w < |batches| && b < |batches| && b != w && k < |logs[b]|
    requires Responses.ThreadStep(SystemOf(files, batches, logs), s, s', w) && Reported(files, batches, logs, s', b, k)
    ensures Reported(files, batches, logs, s, b, k)
  {
    var sys := SystemOf(files, batches, logs);
    var own := sys.programs[w][s.pc[w]].task;
    ShiftedAt(logs[w], Base(files, batches, w));
    ReportedInSystem(files, batches, logs, b, k);
    ReportedInSystem(files, batches, logs, w, s.pc[w]);
    if own == sys.programs[b][k].task { OneBatchEach(files, batches, w, logs[w][s.pc[w]].task, b, logs[b][k].task); }
    hide RunToEnd, SystemOf, Base, Responses.Shaped;
    OnlyOwnPhase(sys, s, s', w);
  }

  lemma {:induction false} OwnNotReported(files: seq<FileRanges>, batches: seq<Batch>, logs: seq<seq<Responses.Finish>>,
                                          s: Responses.State, s': Responses.State, w: nat, k: nat)
    requires RunToEnd(batches, logs) && w < |batches| && k < |logs[w]| && w < |s.pc| && k != s.pc[w]
    requires Responses.ThreadStep(SystemOf(files, batches, logs), s, s', w) && Reported(files, batches, logs, s', w, k)
    ensures Reported(files, batches, logs, s, w, k)
  {
    var sys := SystemOf(files, batches, logs);
    OnlyOwnPhase(sys, s, s', w);
    ShiftedAt(logs[w], Base(files, batches, w));
    ReportedInSystem(files, batches, logs, w, k);
    ReportedInSystem(files, batches, logs, w, s.pc[w]);
    assert Complete(batches[w], logs[w]);
    hide RunToEnd, SystemOf, Base, Responses.ThreadStep, Responses.Shaped;
  }

  lemma {:induction false} OnlyOwnPhase(sys: Responses.System, s: Responses.State, s': Responses.State, w: nat)
    requires Responses.ThreadStep(sys, s, s', w)
    ensures |s'.phase| == |s.phase| && w < |sys.programs| && w < |s.pc| && s.pc[w] < |sys.programs[w]|
    ensures forall t :: 0 <= t < |s.phase| && t != sys.programs[w][s.pc[w]].task ==> s'.phase[t] == s.phase[t]
  {
  }

  /** The machine of the answers is as Responses says, what was written is there, and nothing is reported early. */
  ghost predicate Sane(files: seq<FileRanges>, batches: seq<Batch>, trails: seq<seq<Deed>>, m: Moment) {
    && |trails| == |batches| && Responses.SysInv(SystemOf(files, batches, Logs(trails)), m.state)
    && BytesKept(batches, trails, m) && ToldFirst(files, batches, trails, m)
  }

  lemma {:induction false} BeginsSane(files: seq<FileRanges>, batches: seq<Batch>, trails: seq<seq<Deed>>, m: Moment)
    requires Begins(files, batches, trails, m) && Responses.WellFormed(SystemOf(files, batches, Logs(trails)))
    ensures Sane(files, batches, trails, m)
  {
    Responses.InitInv(SystemOf(files, batches, Logs(trails)), m.state);
    NothingReported(files, batches, Logs(trails), m.state);
    hide Responses.SysInv, Responses.WellFormed, Responses.Init, SystemOf, Reported;
  }

  lemma {:induction false} NothingReported(files: seq<FileRanges>, batches: seq<Batch>, logs: seq<seq<Responses.Finish>>, s: Responses.State)
    requires |logs| == |batches| && Responses.Init(SystemOf(files, batches, logs), s)
    ensures forall b, k :: 0 <= b < |batches| && 0 <= k < |logs[b]| ==> !Reported(files, batches, logs, s, b, k)
  {
  }

  /** Every step of every reader keeps all of that. */
  lemma {:induction false} MoveKeepsSane(files: seq<FileRanges>, byFile: seq<int>, c: nat, plans: seq<TransferPlan>,
                                         gw: seq<int>, workloads: seq<seq<Batch>>, trails: seq<seq<Deed>>, m: Moment, m': Moment, w: nat)
    requires c > 0 && PlanOf(files, byFile, c, plans, gw, workloads) && Disjoint(Flatten(files, |files|))
    requires Read(AllBatches(plans), trails) && Sane(files, AllBatches(plans), trails, m)
    requires Moves(files, AllBatches(plans), trails, m, m', w)
    ensures Sane(files, AllBatches(plans), trails, m')
  {
    var all := AllBatches(plans);
    hide PlanOf, Disjoint, Flatten, AllBatches, Read, SystemOf, Logs, BytesKept, ToldFirst, Does, Answers;
    if Does(all, trails, m, m', w) {
      DeedKeepsBytes(files, byFile, c, plans, gw, workloads, trails, m, m', w);
      DeedKeepsTold(files, all, trails, m, m', w);
      DeedKeepsState(all, trails, m, m', w);
    } else {
      AnswerKeepsTold(files, all, trails, m, m', w);
      AnswerKeepsRest(files, byFile, c, plans, gw, workloads, trails, m, m', w);
    }
  }

  lemma {:induction false} DeedKeepsState(batches: seq<Batch>, trails: seq<seq<Deed>>, m: Moment, m': Moment, w: nat)
    requires Does(batches, trails, m, m', w)
    ensures m'.state == m.state
  {
  }

  lemma {:induction false} AnswerKeepsRest(files: seq<FileRanges>, byFile: seq<int>, c: nat, plans: seq<TransferPlan>,
                                           gw: seq<int>, workloads: seq<seq<Batch>>, trails: seq<seq<Deed>>, m: Moment, m': Moment, w: nat)
    requires c > 0 && PlanOf(files, byFile, c, plans, gw, workloads) && Read(AllBatches(plans), trails)
    requires Sane(files, AllBatches(plans), trails, m) && Answers(files, AllBatches(plans), trails, m, m', w)
    ensures Responses.SysInv(SystemOf(files, AllBatches(plans), Logs(trails)), m'.state)
    ensures BytesKept(AllBatches(plans), trails, m')
  {
    hide *;
    var all := AllBatches(plans);
    SaneMeans(files, all, trails, m);
    ReadToEnd(all, trails);
    PlanIsSystem(files, byFile, c, plans, gw, workloads, Logs(trails));
    AnswerIsStep(files, all, trails, m, m', w);
    BytesStay(all, trails, m, m');
    Responses.ThreadKeepsInv(SystemOf(files, all, Logs(trails)), m.state, m'.state, w);
  }

  lemma {:induction false} SaneMeans(files: seq<FileRanges>, batches: seq<Batch>, trails: seq<seq<Deed>>, m: Moment)
    requires Sane(files, batches, trails, m)
    ensures |trails| == |batches| && Responses.SysInv(SystemOf(files, batches, Logs(trails)), m.state)
    ensures BytesKept(batches, trails, m) && ToldFirst(files, batches, trails, m)
  {
  }

  lemma {:induction false} AnswerIsStep(files: seq<FileRanges>, batches: seq<Batch>, trails: seq<seq<Deed>>, m: Moment, m': Moment, w: nat)
    requires Answers(files, batches, trails, m, m', w)
    ensures |trails| == |batches| && Responses.ThreadStep(SystemOf(files, batches, Logs(trails)), m.state, m'.state, w)
    ensures m'.done == m.done && m'.contents == m.contents
  {
  }

  lemma {:induction false} BytesStay(batches: seq<Batch>, trails: seq<seq<Deed>>, m: Moment, m': Moment)
    requires BytesKept(batches, trails, m) && m'.done == m.done && m'.contents == m.contents
    ensures BytesKept(batches, trails, m')
  {
    hide Covers, Belongs;
  }

  lemma {:induction false} ReadingReachable(files: seq<FileRanges>, byFile: seq<int>, c: nat, plans: seq<TransferPlan>,
                                            gw: seq<int>, workloads: seq<seq<Batch>>, trails: seq<seq<Deed>>, run: seq<Moment>, n: nat)
    requires c > 0 && PlanOf(files, byFile, c, plans, gw, workloads) && Disjoint(Flatten(files, |files|))
    requires Read(AllBatches(plans), trails) && ReadingRun(files, AllBatches(plans), trails, run) && n < |run|
    ensures Sane(files, AllBatches(plans), trails, run[n])
  {
    hide *;
    var all := AllBatches(plans);
    if n == 0 {
      ReadToEnd(all, trails);
      PlanIsSystem(files, byFile, c, plans, gw, workloads, Logs(trails));
      RunBegins(files, all, trails, run);
      BeginsSane(files, all, trails, run[0]);
    } else {
      ReadingReachable(files, byFile, c, plans, gw, workloads, trails, run, n - 1);
      var w := MoveAt(files, all, trails, run, n - 1);
      MoveKeepsSane(files, byFile, c, plans, gw, workloads, trails, run[n - 1], run[n], w);
    }
  }

  lemma {:induction false} ReadToEnd(batches: seq<Batch>, trails: seq<seq<Deed>>)
    requires Read(batches, trails)
    ensures RunToEnd(batches, Logs(trails)) && |trails| == |batches|
  {
  }

  lemma {:induction false} RunBegins(files: seq<FileRanges>, batches: seq<Batch>, trails: seq<seq<Deed>>, run: seq<Moment>)
    requires ReadingRun(files, batches, trails, run)
    ensures Begins(files, batches, trails, run[0])
  {
  }

  lemma {:induction false} MoveAt(files: seq<FileRanges>, batches: seq<Batch>, trails: seq<seq<Deed>>, run: seq<Moment>, n: nat) returns (w: nat)
    requires ReadingRun(files, batches, trails, run) && n + 1 < |run|
    ensures Moves(files, batches, trails, run[n], run[n + 1], w)
  {
    hide Moves, Begins;
    w :| Moves(files, batches, trails, run[n], run[n + 1], w);
  }

  lemma {:induction false} LogEntry(batch: Batch, log: seq<Responses.Finish>, i: nat) returns (k: nat)
    requires Complete(batch, log) && i < |batch.tasks|
    ensures k < |log| && log[k].task == i
  {
    assert BatchExecution.Finishes(log, i);
    k :| 0 <= k < |log| && log[k].task == i;
  }

  /** The task of a range answered with Success has been reported, and with Success. */
  lemma {:induction false} AnsweredIsReported(files: seq<FileRanges>, batches: seq<Batch>, logs: seq<seq<Responses.Finish>>,
                                              s: Responses.State, b: nat, k: nat)
    requires RunToEnd(batches, logs) && b < |batches| && k < |logs[b]|
    requires Responses.WellFormed(SystemOf(files, batches, logs)) && Responses.SysInv(SystemOf(files, batches, logs), s)
    requires
      var r := NumberOf(files, batches[b].tasks[logs[b][k].task].request);
      && Responses.Response(r, Responses.Success) in s.responses
      && Responses.Count(Owners(files, batches), r) <= UNSIGNED
    ensures Reported(files, batches, logs, s, b, k) && logs[b][k].code.Success?
  {
    var sys := SystemOf(files, batches, logs);
    var x := Responses.Response(NumberOf(files, batches[b].tasks[logs[b][k].task].request), Responses.Success);
    hide *;
    ReportedInSystem(files, batches, logs, b, k);
    SettledTask(sys, s, x, b, k);
    ProgramReported(files, batches, logs, s, b, k);
  }

  lemma {:induction false} ReportedInSystem(files: seq<FileRanges>, batches: seq<Batch>, logs: seq<seq<Responses.Finish>>, b: nat, k: nat)
    requires RunToEnd(batches, logs) && b < |batches| && k < |logs[b]|
    ensures
      var sys := SystemOf(files, batches, logs);
      && |sys.programs| == |batches| && |sys.programs[b]| == |logs[b]| && logs[b][k].task < |batches[b].tasks|
      && sys.programs[b][k] == Responses.Finish(Base(files, batches, b) + logs[b][k].task, logs[b][k].code)
      && sys.programs[b][k].task < |sys.owner| && sys.owner == Owners(files, batches)
      && sys.owner[sys.programs[b][k].task] == NumberOf(files, batches[b].tasks[logs[b][k].task].request)
  {
    ProgramAt(files, batches, logs, b, k);
    OwnerAt(files, batches, b, logs[b][k].task);
  }

  lemma {:induction false} SettledTask(sys: Responses.System, s: Responses.State, x: Responses.Response, b: nat, k: nat)
    requires Responses.WellFormed(sys) && Responses.SysInv(sys, s) && x in s.responses && x.code.Success?
    requires Responses.Count(sys.owner, x.range) <= UNSIGNED
    requires b < |sys.programs| && k < |sys.programs[b]| && sys.programs[b][k].task < |sys.owner|
    requires sys.owner[sys.programs[b][k].task] == x.range
    ensures sys.programs[b][k].code.Success?
    ensures sys.programs[b][k].task < |s.phase| && !s.phase[sys.programs[b][k].task].Open?
  {
    var n :| 0 <= n < |s.responses| && s.responses[n] == x;
    assert Responses.Settled(sys.owner, s, s.responses[n]);
    Responses.SettledIsHonest(sys, s, x);
    Responses.TaskCounted(sys, s, b, k);
    hide Responses.WellFormed, Responses.Tally, Responses.Count, Responses.Accounted, Responses.Truthful, Responses.InPlace;
    var f := sys.programs[b][k];
    assert f.code.Failed? ==> Responses.CodeFor(sys, x.range, Responses.Failed(f.code.error));
  }

  lemma {:induction false} ProgramReported(files: seq<FileRanges>, batches: seq<Batch>, logs: seq<seq<Responses.Finish>>,
                                           s: Responses.State, b: nat, k: nat)
    requires b < |batches| == |logs| && k < |logs[b]|
    requires
      var t := Base(files, batches, b) + logs[b][k].task;
      t < |s.phase| && !s.phase[t].Open?
    ensures Reported(files, batches, logs, s, b, k)
  {
  }

  /** A task reported with Success has all its bytes in the shared memory. */
  lemma {:induction false} ReportedIsThere(files: seq<FileRanges>, batches: seq<Batch>, trails: seq<seq<Deed>>, m: Moment, b: nat, k: nat, a: nat)
    requires Read(batches, trails) && Sane(files, batches, trails, m) && b < |batches| && |trails| == |batches| && k < |Logs(trails)[b]|
    requires Reported(files, batches, Logs(trails), m.state, b, k) && Logs(trails)[b][k].code.Success?
    requires TaskWrites(batches[b].tasks, Logs(trails)[b][k].task, a)
    ensures a in m.contents && m.contents[a] == Belongs(batches[b], a)
  {
    hide *;
    SaneMeans(files, batches, trails, m);
    ReportedWasTold(files, batches, trails, m, b, k);
    SoundTrail(batches, trails, b);
    ToldIsWritten(batches[b], trails[b], m.done[b], k, a);
    WrittenIsKept(batches, trails, m, b, a);
  }

  lemma {:induction false} ReportedWasTold(files: seq<FileRanges>, batches: seq<Batch>, trails: seq<seq<Deed>>, m: Moment, b: nat, k: nat)
    requires ToldFirst(files, batches, trails, m) && b < |batches| && |trails| == |batches| && k < |Logs(trails)[b]|
    requires Reported(files, batches, Logs(trails), m.state, b, k)
    ensures b < |m.done| && m.done[b] <= |trails[b]| && k < |Tells(trails[b][..m.done[b]])| && Logs(trails)[b] == Tells(trails[b])
  {
    hide Reported, Tells;
  }

  lemma {:induction false} SoundTrail(batches: seq<Batch>, trails: seq<seq<Deed>>, b: nat)
    requires Read(batches, trails) && b < |batches| && |trails| == |batches|
    ensures Sound(batches[b].tasks, SpanOf(batches[b]), trails[b])
  {
    hide Sound, SpanOf;
  }

  lemma {:induction false} ToldIsWritten(batch: Batch, deeds: seq<Deed>, n: nat, k: nat, a: nat)
    requires Sound(batch.tasks, SpanOf(batch), deeds) && n <= |deeds| && k < |Tells(deeds[..n])|
    requires k < |Tells(deeds)| && Tells(deeds)[k].code.Success? && TaskWrites(batch.tasks, Tells(deeds)[k].task, a)
    ensures Covers(deeds[..n], a)
  {
    hide Sound, SpanOf, Tells, Covers;
    TellsGrow(deeds, n);
    SoundPart(batch.tasks, SpanOf(batch), deeds, n);
    ToldIsCovered(batch.tasks, SpanOf(batch), deeds[..n], k);
  }

  lemma {:induction false} WrittenIsKept(batches: seq<Batch>, trails: seq<seq<Deed>>, m: Moment, b: nat, a: nat)
    requires BytesKept(batches, trails, m) && b < |batches| && m.done[b] <= |trails[b]| && Covers(trails[b][..m.done[b]], a)
    ensures a in m.contents && m.contents[a] == Belongs(batches[b], a)
  {
    hide Covers, Belongs;
  }

  /** The byte of the range at this offset is at its place in the destination. */
  ghost predicate Arrived(contents: Contents, file: nat, range: Range, o: nat)
    requires range.offset <= o
  {
    var a := range.dst + (o - range.offset);
    a in contents && contents[a] == Origin(file, o)
  }

  lemma {:induction false} ThereIsArrived(contents: Contents, file: nat, range: Range, o: nat)
    requires range.offset <= o
    requires range.dst + (o - range.offset) in contents && contents[range.dst + (o - range.offset)] == Origin(file, o)
    ensures Arrived(contents, file, range, o)
  {
  }

  lemma {:induction false} BroughtIsLogged(files: seq<FileRanges>, batches: seq<Batch>, logs: seq<seq<Responses.Finish>>,
                                           f: nat, i: nat, b: nat, k: nat, o: nat, address: nat) returns (e: nat)
    requires RunToEnd(batches, logs) && b < |batches| && f < |files| && Brings(batches[b], k, f, i, o, address)
    ensures e < |logs[b]| && logs[b][e].task == k < |batches[b].tasks|
    ensures NumberOf(files, batches[b].tasks[k].request) == Number(files, f, i)
  {
    e := LogEntry(batches[b], logs[b], k);
  }

  lemma {:induction false} BroughtBelongs(batch: Batch, k: nat, f: nat, i: nat, o: nat, address: nat)
    requires Spanned(batch) && Brings(batch, k, f, i, o, address)
    ensures TaskWrites(batch.tasks, k, address) && Belongs(batch, address) == Origin(f, o)
  {
    hide SpanOf;
  }

  lemma {:induction false} BroughtIsRead(files: seq<FileRanges>, batches: seq<Batch>, trails: seq<seq<Deed>>, m: Moment,
                                         f: nat, i: nat, b: nat, k: nat, o: nat, address: nat)
    requires Read(batches, trails) && f < |files| && b < |batches| && Spanned(batches[b]) && Brings(batches[b], k, f, i, o, address)
    requires Responses.WellFormed(SystemOf(files, batches, Logs(trails))) && Sane(files, batches, trails, m)
    requires Responses.Response(Number(files, f, i), Responses.Success) in m.state.responses
    requires Responses.Count(Owners(files, batches), Number(files, f, i)) <= UNSIGNED
    ensures address in m.contents && m.contents[address] == Origin(f, o)
  {
    ReadToEnd(batches, trails);
    hide Read, Responses.WellFormed, SystemOf, Brings, Number, NumberOf, Owners, Complete, RunToEnd, Spanned, Logs, Belongs;
    var e := BroughtIsLogged(files, batches, Logs(trails), f, i, b, k, o, address);
    AnsweredIsReported(files, batches, Logs(trails), m.state, b, e);
    BroughtBelongs(batches[b], k, f, i, o, address);
    ReportedIsThere(files, batches, trails, m, b, e, address);
  }

  /** At every moment of every interleaving, a range answered with Success has every one of its bytes at
      its place in its destination, from the range's place in the file. */
  lemma {:induction false} AnsweredMeansRead(files: seq<FileRanges>, byFile: seq<int>, c: nat, plans: seq<TransferPlan>,
                                             gw: seq<int>, workloads: seq<seq<Batch>>, trails: seq<seq<Deed>>,
                                             run: seq<Moment>, n: nat, f: nat, i: nat, o: nat)
    requires c > 0 && PlanOf(files, byFile, c, plans, gw, workloads) && Disjoint(Flatten(files, |files|))
    requires Read(AllBatches(plans), trails) && ReadingRun(files, AllBatches(plans), trails, run) && n < |run|
    requires f < |files| && i < |files[f].ranges| && TasksOwed(workloads, f, i) <= UNSIGNED
    requires Responses.Response(Number(files, f, i), Responses.Success) in run[n].state.responses
    requires files[f].ranges[i].offset <= o < files[f].ranges[i].offset + files[f].ranges[i].size
    ensures Arrived(run[n].contents, f, files[f].ranges[i], o)
  {
    hide *;
    var all := AllBatches(plans);
    var address := files[f].ranges[i].dst + (o - files[f].ranges[i].offset);
    ReadToEnd(all, trails);
    PlanIsSystem(files, byFile, c, plans, gw, workloads, Logs(trails));
    ReadingReachable(files, byFile, c, plans, gw, workloads, trails, run, n);
    CountIsOwed(files, byFile, c, plans, gw, workloads, f, i);
    var b, k := EveryByteBrought(files, byFile, c, plans, gw, workloads, f, i, o);
    AllSpanned(files, byFile, c, plans, gw, workloads, b);
    BroughtIsRead(files, all, trails, run[n], f, i, b, k, o, address);
    ThereIsArrived(run[n].contents, f, files[f].ranges[i], o);
  }
}
