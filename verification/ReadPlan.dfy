/** The whole read plan (async_request up to dispatch): coalesce, divide, cut, group, and hand every
    batch to its workload; and why running it does what copying each range on its own does. */
module ReadPlan {
  import opened Machine
  import opened Sequences
  import opened ReadTypes
  import opened ChunkSplitter
  import opened Batches
  import opened Coalescing
  import opened LastCell
  import opened WorkDivision

  /** More ranges than this cannot be counted by the responder. */
  const MAX_RANGES: nat := 0xFFFF_FFFF

  /** A transfer with the batches it was cut into. */
  datatype TransferPlan = TransferPlan(transfer: Transfer, batches: seq<Batch>, placed: seq<Placed>)

  function WorkloadOf(b: Batch): nat { b.workload }

  ghost function AllBatches(plans: seq<TransferPlan>): seq<Batch> {
    if plans == [] then [] else AllBatches(plans[..|plans| - 1]) + plans[|plans| - 1].batches
  }

  ghost function Transfers(plans: seq<TransferPlan>): seq<Transfer> {
    if plans == [] then [] else Transfers(plans[..|plans| - 1]) + [plans[|plans| - 1].transfer]
  }

  lemma {:induction false} TransfersAt(plans: seq<TransferPlan>)
    ensures |Transfers(plans)| == |plans|
    ensures forall p :: 0 <= p < |plans| ==> Transfers(plans)[p] == plans[p].transfer
  {
    if plans != [] { TransfersAt(plans[..|plans| - 1]); }
  }

  ghost predicate WellPlanned(plan: TransferPlan, c: nat)
    requires c > 0
  {
    && Divided(plan.transfer) && plan.transfer.rangeSizes != []
    && Sum(plan.transfer.rangeSizes) == plan.transfer.size
    && Planned(plan.transfer, c, plan.batches, plan.placed)
  }

  /** Every slice's workload exists and serves the group of the slice's file. */
  ghost predicate OwnGroup(plan: TransferPlan, byFile: seq<int>, gw: seq<int>) {
    forall k :: 0 <= k < |plan.transfer.tasks| ==>
      plan.transfer.tasks[k].workload < |gw| && gw[plan.transfer.tasks[k].workload] == GroupOf(byFile, plan.transfer.file)
  }

  /** Every batch is in its workload, in the order the batches were made. */
  ghost predicate Shared(all: seq<Batch>, workloads: seq<seq<Batch>>) {
    && (forall b :: b in all ==> b.workload < |workloads|)
    && forall w :: 0 <= w < |workloads| ==> workloads[w] == Select(all, WorkloadOf, w)
  }

  /** The complete plan of a request. */
  ghost predicate PlanOf(files: seq<FileRanges>, byFile: seq<int>, c: nat, plans: seq<TransferPlan>,
                         gw: seq<int>, workloads: seq<seq<Batch>>)
    requires c > 0
  {
    && ExpandAll(Transfers(plans)) == Flatten(files, |files|) && Maximal(Transfers(plans))
    && (forall p :: 0 <= p < |plans| ==> WellPlanned(plans[p], c) && OwnGroup(plans[p], byFile, gw))
    && |gw| == |workloads|
    && Shared(AllBatches(plans), workloads)
  }

  /* ---- one byte: where it is in a file and the address it must arrive at ---- */

  datatype Byte = Byte(file: nat, offset: nat, address: nat)

  predicate Carries(b: Byte, file: nat, offset: nat, size: nat, dst: nat) {
    file == b.file && offset <= b.offset < offset + size && b.address == dst + (b.offset - offset)
  }

  function Demands(b: Byte): RangeRef -> nat {
    (r: RangeRef) => if Carries(b, r.file, r.range.offset, r.range.size, r.range.dst) then 1 else 0
  }

  function ChunkDelivers(b: Byte, file: nat): Chunk -> nat {
    (c: Chunk) => if Carries(b, file, c.offset, c.size, c.buffer) then 1 else 0
  }

  function BatchDelivers(b: Byte): Batch -> nat {
    (x: Batch) => Weight(x.chunks, ChunkDelivers(b, x.file))
  }

  function WorkloadDelivers(b: Byte): seq<Batch> -> nat {
    (w: seq<Batch>) => Weight(w, BatchDelivers(b))
  }

  /** How many backend reads, over all workloads, bring this byte of the file to this address. */
  function Delivered(workloads: seq<seq<Batch>>, b: Byte): nat {
    Weight(workloads, WorkloadDelivers(b))
  }

  /** How many ranges of the request ask for it. */
  function Demanded(files: seq<FileRanges>, b: Byte): nat {
    Weight(Flatten(files, |files|), Demands(b))
  }

  lemma {:induction false} ChunkInStep(t: Transfer, slice: FileReadTask, batch: Batch, c: nat, m: nat, b: Byte)
    requires c > 0 && BatchFor(t, slice, batch, c) && m < |batch.chunks|
    ensures ChunkDelivers(b, batch.file)(batch.chunks[m]) == 1 <==>
              Holds(batch.chunks[m], b.offset) && b.file == t.file && b.address == t.dst + (b.offset - t.offset)
  {
    assert ChunkOf(batch.tasks, batch.chunks[m], c);
  }

  lemma {:induction false} BatchBytes(t: Transfer, slice: FileReadTask, batch: Batch, c: nat, b: Byte)
    requires c > 0 && BatchFor(t, slice, batch, c) && t.offset <= slice.offset
    ensures BatchDelivers(b)(batch) ==
              if Carries(b, t.file, slice.offset, slice.size, t.dst + (slice.offset - t.offset)) then 1 else 0
  {
    var f, chunks := ChunkDelivers(b, batch.file), batch.chunks;
    ChunksCoverBatch(batch.tasks, chunks, c, slice.offset, slice.offset + slice.size, b.offset);
    forall m | 0 <= m < |chunks|
      ensures f(chunks[m]) == 1 <==>
                Holds(chunks[m], b.offset) && b.file == t.file && b.address == t.dst + (b.offset - t.offset)
    {
      ChunkInStep(t, slice, batch, c, m, b);
    }
    if Carries(b, t.file, slice.offset, slice.size, t.dst + (slice.offset - t.offset)) {
      var m :| 0 <= m < |chunks| && Holds(chunks[m], b.offset);
      WeightOne(chunks, f, m);
    } else {
      WeightZero(chunks, f);
    }
  }

  lemma {:induction false} SliceHolding(slices: seq<FileReadTask>, start: nat, end: nat, o: nat) returns (k: nat)
    requires SlicesTile(slices, start, end) && start <= o < end
    ensures k < |slices| && slices[k].offset <= o < slices[k].offset + slices[k].size
  {
    k := |slices| - 1;
    if o < slices[k].offset {
      k := SliceHolding(slices[..k], start, slices[k].offset, o);
    }
  }

  /** The batches of a transfer deliver each byte of its span once, to its place in the buffer. */
  lemma {:induction false} TransferBytes(plan: TransferPlan, c: nat, b: Byte)
    requires c > 0 && WellPlanned(plan, c)
    ensures
      var t := plan.transfer;
      Weight(plan.batches, BatchDelivers(b)) == if Carries(b, t.file, t.offset, t.size, t.dst) then 1 else 0
  {
    var t, batches := plan.transfer, plan.batches;
    var end := t.offset + t.size;
    forall k | 0 <= k < |batches|
      ensures t.offset <= t.tasks[k].offset && t.tasks[k].offset + t.tasks[k].size <= end
      ensures BatchDelivers(b)(batches[k]) ==
                if Carries(b, t.file, t.tasks[k].offset, t.tasks[k].size, t.dst + (t.tasks[k].offset - t.offset)) then 1 else 0
    {
      SlicesPrefix(t.tasks, t.offset, end, k);
      BatchBytes(t, t.tasks[k], batches[k], c, b);
    }
    if Carries(b, t.file, t.offset, t.size, t.dst) {
      var k := SliceHolding(t.tasks, t.offset, end, b.offset);
      forall l | 0 <= l < |batches| && l != k
        ensures BatchDelivers(b)(batches[l]) == 0
      {
        if l < k { SlicesApart(t.tasks, t.offset, end, l, k); } else { SlicesApart(t.tasks, t.offset, end, k, l); }
      }
      WeightOne(batches, BatchDelivers(b), k);
    } else {
      WeightZero(batches, BatchDelivers(b));
    }
  }

  /** The ranges a transfer stands for ask for each byte of its span once. */
  lemma {:induction false} TransferDemands(t: Transfer, n: nat, b: Byte)
    requires n <= |t.rangeSizes|
    ensures Weight(ExpandTo(t, n), Demands(b)) ==
              if Carries(b, t.file, t.offset, Sum(t.rangeSizes[..n]), t.dst) then 1 else 0
  {
    if n > 0 {
      TransferDemands(t, n - 1, b);
      SumPrefixStep(t.rangeSizes, n - 1);
      WeightAppend(ExpandTo(t, n - 1),
                   RangeRef(t.file, t.firstRange + n - 1,
                            Range(RangeOffset(t, n - 1), t.rangeSizes[n - 1], RangeDst(t, n - 1))), Demands(b));
    }
  }

  lemma {:induction false} PlanDelivers(plan: TransferPlan, c: nat, b: Byte)
    requires c > 0 && WellPlanned(plan, c)
    ensures Weight(plan.batches, BatchDelivers(b)) == Weight(Expand(plan.transfer), Demands(b))
  {
    var t := plan.transfer;
    TransferBytes(plan, c, b);
    assert t.rangeSizes[..|t.rangeSizes|] == t.rangeSizes;
    TransferDemands(t, |t.rangeSizes|, b);
  }

  lemma {:induction false} PlansDeliver(plans: seq<TransferPlan>, c: nat, b: Byte)
    requires c > 0 && forall p :: 0 <= p < |plans| ==> WellPlanned(plans[p], c)
    ensures Weight(AllBatches(plans), BatchDelivers(b)) == Weight(ExpandAll(Transfers(plans)), Demands(b))
  {
    if plans != [] {
      var n := |plans| - 1;
      PlansDeliver(plans[..n], c, b);
      PlanDelivers(plans[n], c, b);
      LastPlan(plans);
      hide *;
      WeightConcat(AllBatches(plans[..n]), plans[n].batches, BatchDelivers(b));
      WeightConcat(ExpandAll(Transfers(plans[..n])), Expand(plans[n].transfer), Demands(b));
    }
  }

  lemma {:induction false} LastPlan(plans: seq<TransferPlan>)
    requires plans != []
    ensures
      var n := |plans| - 1;
      && AllBatches(plans) == AllBatches(plans[..n]) + plans[n].batches
      && ExpandAll(Transfers(plans)) == ExpandAll(Transfers(plans[..n])) + Expand(plans[n].transfer)
  {
    TransfersAt(plans[..|plans| - 1]);
    assert Transfers(plans)[..|plans| - 1] == Transfers(plans[..|plans| - 1]);
  }

  /** Handing batches to workloads keeps every total. */
  lemma {:induction false} DistributedTotal(plans: seq<TransferPlan>, workloads: seq<seq<Batch>>, f: Batch -> nat, g: seq<Batch> -> nat)
    requires Shared(AllBatches(plans), workloads) && (forall w: seq<Batch> :: g(w) == Weight(w, f))
    ensures Weight(workloads, g) == Weight(AllBatches(plans), f)
  {
    WeightOfShares(workloads, g, AllBatches(plans), WorkloadOf, f);
    WeightPartition(AllBatches(plans), WorkloadOf, f, |workloads|);
  }

  /** Every byte is read exactly as often as it was asked for: once per range that holds it, from that
      range's place in the file to that range's place in memory. Nothing else is read to anywhere. */
  lemma {:induction false} BytesConserved(files: seq<FileRanges>, byFile: seq<int>, c: nat, plans: seq<TransferPlan>,
                       gw: seq<int>, workloads: seq<seq<Batch>>, b: Byte)
    requires c > 0 && PlanOf(files, byFile, c, plans, gw, workloads)
    ensures Delivered(workloads, b) == Demanded(files, b)
  {
    DistributedTotal(plans, workloads, BatchDelivers(b), WorkloadDelivers(b));
    PlansDeliver(plans, c, b);
  }

  /* ---- running the plan ---- */

  type Memory = nat -> int

  /** What the files hold: file, offset. */
  type Disk = (nat, nat) -> int

  /** A read of `size` bytes of a file into memory. */
  datatype ReadOp = ReadOp(file: nat, offset: nat, size: nat, dst: nat)

  function RunOne(mem: Memory, op: ReadOp, disk: Disk): Memory {
    (a: nat) => if op.dst <= a < op.dst + op.size then disk(op.file, op.offset + (a - op.dst)) else mem(a)
  }

  function Run(mem: Memory, ops: seq<ReadOp>, disk: Disk): Memory {
    if ops == [] then mem else RunOne(Run(mem, ops[..|ops| - 1], disk), ops[|ops| - 1], disk)
  }

  /** The naive copy: each range on its own, in the order given. */
  function NaiveOps(refs: seq<RangeRef>): seq<ReadOp> {
    if refs == [] then []
    else
      var r := refs[|refs| - 1];
      NaiveOps(refs[..|refs| - 1]) + [ReadOp(r.file, r.range.offset, r.range.size, r.range.dst)]
  }

  /** The reads the plan asks for: the chunks of the batches of its workloads. */
  ghost predicate IsChunk(workloads: seq<seq<Batch>>, op: ReadOp) {
    exists w, n, m ::
      && 0 <= w < |workloads| && 0 <= n < |workloads[w]| && 0 <= m < |workloads[w][n].chunks|
      && op == ChunkOp(workloads[w][n], m)
  }

  function ChunkOp(batch: Batch, m: nat): ReadOp
    requires m < |batch.chunks|
  {
    ReadOp(batch.file, batch.chunks[m].offset, batch.chunks[m].size, batch.chunks[m].buffer)
  }

  /** No two ranges of the request are to be written to the same address. */
  ghost predicate Disjoint(refs: seq<RangeRef>) {
    forall i, j :: 0 <= i < j < |refs| ==> Apart(refs[i].range, refs[j].range)
  }

  predicate Apart(r: Range, s: Range) {
    r.size == 0 || s.size == 0 || r.dst + r.size <= s.dst || s.dst + s.size <= r.dst
  }

  predicate Writes(op: ReadOp, a: nat) { op.dst <= a < op.dst + op.size }

  function Value(op: ReadOp, a: nat, disk: Disk): int
    requires Writes(op, a)
  {
    disk(op.file, op.offset + (a - op.dst))
  }

  /** If every read that writes an address brings it the same value, order and repetition do not matter. */
  lemma {:induction false} RunAt(mem: Memory, ops: seq<ReadOp>, disk: Disk, a: nat, v: int)
    requires forall op :: op in ops && Writes(op, a) ==> Value(op, a, disk) == v
    ensures Run(mem, ops, disk)(a) == if exists op :: op in ops && Writes(op, a) then v else mem(a)
  {
    if ops != [] {
      var last := ops[|ops| - 1];
      RunAt(mem, ops[..|ops| - 1], disk, a, v);
      assert ops == ops[..|ops| - 1] + [last];
      if Writes(last, a) { assert last in ops && Value(last, a, disk) == v; }
    }
  }

  lemma {:induction false} NaiveMembers(refs: seq<RangeRef>, op: ReadOp)
    ensures op in NaiveOps(refs) <==>
              exists i :: 0 <= i < |refs| && op == ReadOp(refs[i].file, refs[i].range.offset, refs[i].range.size, refs[i].range.dst)
  {
    if refs != [] {
      var n := |refs| - 1;
      NaiveMembers(refs[..n], op);
      assert refs == refs[..n] + [refs[n]];
    }
  }

  lemma {:induction false} RangeDelivered(files: seq<FileRanges>, byFile: seq<int>, c: nat, plans: seq<TransferPlan>,
                       gw: seq<int>, workloads: seq<seq<Batch>>, i: nat, b: Byte) returns (op: ReadOp)
    requires c > 0 && PlanOf(files, byFile, c, plans, gw, workloads) && i < |Flatten(files, |files|)|
    requires Demands(b)(Flatten(files, |files|)[i]) == 1
    ensures IsChunk(workloads, op) && Carries(b, op.file, op.offset, op.size, op.dst)
  {
    BytesConserved(files, byFile, c, plans, gw, workloads, b);
    WeightAtLeast(Flatten(files, |files|), Demands(b), i);
    hide PlanOf;
    op := DeliveredByChunk(workloads, b);
  }

  lemma {:induction false} DeliveredByChunk(workloads: seq<seq<Batch>>, b: Byte) returns (op: ReadOp)
    requires Delivered(workloads, b) > 0
    ensures IsChunk(workloads, op) && Carries(b, op.file, op.offset, op.size, op.dst)
  {
    WeightPositive(workloads, WorkloadDelivers(b));
    var work :| work in workloads && WorkloadDelivers(b)(work) > 0;
    var w: nat :| w < |workloads| && workloads[w] == work;
    var n, m := BatchWithByte(work, b);
    op := ChunkOp(work[n], m);
    hide Carries;
  }

  lemma {:induction false} BatchWithByte(work: seq<Batch>, b: Byte) returns (n: nat, m: nat)
    requires Weight(work, BatchDelivers(b)) > 0
    ensures n < |work| && m < |work[n].chunks|
    ensures
      var op := ChunkOp(work[n], m);
      Carries(b, op.file, op.offset, op.size, op.dst)
  {
    WeightPositive(work, BatchDelivers(b));
    var batch :| batch in work && BatchDelivers(b)(batch) > 0;
    n :| 0 <= n < |work| && work[n] == batch;
    WeightPositive(batch.chunks, ChunkDelivers(b, batch.file));
    var chunk :| chunk in batch.chunks && ChunkDelivers(b, batch.file)(chunk) > 0;
    m :| 0 <= m < |batch.chunks| && batch.chunks[m] == chunk;
  }

  lemma {:induction false} ChunkDemanded(files: seq<FileRanges>, byFile: seq<int>, c: nat, plans: seq<TransferPlan>,
                      gw: seq<int>, workloads: seq<seq<Batch>>, op: ReadOp, b: Byte) returns (i: nat)
    requires c > 0 && PlanOf(files, byFile, c, plans, gw, workloads)
    requires IsChunk(workloads, op) && Carries(b, op.file, op.offset, op.size, op.dst)
    ensures i < |Flatten(files, |files|)| && Demands(b)(Flatten(files, |files|)[i]) == 1
  {
    var w, n, m :| 0 <= w < |workloads| && 0 <= n < |workloads[w]| && 0 <= m < |workloads[w][n].chunks| &&
                   op == ChunkOp(workloads[w][n], m);
    var batch := workloads[w][n];
    WeightAtLeast(batch.chunks, ChunkDelivers(b, batch.file), m);
    WeightAtLeast(workloads[w], BatchDelivers(b), n);
    WeightAtLeast(workloads, WorkloadDelivers(b), w);
    BytesConserved(files, byFile, c, plans, gw, workloads, b);
    WeightPositive(Flatten(files, |files|), Demands(b));
    var r :| r in Flatten(files, |files|) && Demands(b)(r) > 0;
    i :| 0 <= i < |Flatten(files, |files|)| && Flatten(files, |files|)[i] == r;
  }

  predicate InDestination(r: RangeRef, a: nat) {
    r.range.dst <= a < r.range.dst + r.range.size
  }

  function Source(r: RangeRef, a: nat, disk: Disk): int
    requires InDestination(r, a)
  {
    disk(r.file, r.range.offset + (a - r.range.dst))
  }

  /** The plan refines the naive copy. Run its chunks in any order, and any number of times each: for a
      request whose destinations do not overlap, memory ends as if every range had been copied alone,
      at every address - those inside the destinations and those outside. */
  lemma {:induction false} RunsAsNaiveCopy(files: seq<FileRanges>, byFile: seq<int>, c: nat, plans: seq<TransferPlan>,
                                           gw: seq<int>, workloads: seq<seq<Batch>>, order: seq<ReadOp>, mem: Memory, disk: Disk, a: nat)
    requires c > 0 && PlanOf(files, byFile, c, plans, gw, workloads)
    requires Disjoint(Flatten(files, |files|))
    requires forall op :: op in order <==> IsChunk(workloads, op)
    ensures Run(mem, order, disk)(a) == Run(mem, NaiveOps(Flatten(files, |files|)), disk)(a)
  {
    var refs := Flatten(files, |files|);
    if i :| 0 <= i < |refs| && InDestination(refs[i], a) {
      InsideDestination(files, byFile, c, plans, gw, workloads, order, mem, disk, a, i);
    } else {
      OutsideDestinations(files, byFile, c, plans, gw, workloads, order, mem, disk, a);
    }
  }

  lemma {:induction false} InsideDestination(files: seq<FileRanges>, byFile: seq<int>, c: nat, plans: seq<TransferPlan>,
                                             gw: seq<int>, workloads: seq<seq<Batch>>, order: seq<ReadOp>, mem: Memory, disk: Disk, a: nat, i: nat)
    requires c > 0 && PlanOf(files, byFile, c, plans, gw, workloads)
    requires Disjoint(Flatten(files, |files|))
    requires forall op :: op in order <==> IsChunk(workloads, op)
    requires i < |Flatten(files, |files|)| && InDestination(Flatten(files, |files|)[i], a)
    ensures
      var refs := Flatten(files, |files|);
      Run(mem, order, disk)(a) == Run(mem, NaiveOps(refs), disk)(a) == Source(refs[i], a, disk)
  {
    var refs := Flatten(files, |files|);
    var r := refs[i];
    var b := Byte(r.file, r.range.offset + (a - r.range.dst), a);
    var op := RangeDelivered(files, byFile, c, plans, gw, workloads, i, b);
    assert op in order && Writes(op, a);
    forall op | op in order && Writes(op, a)
      ensures Value(op, a, disk) == Source(r, a, disk)
    {
      OneSource(files, byFile, c, plans, gw, workloads, op, disk, a, i);
    }
    NaiveAt(refs, disk, a, i);
    hide PlanOf, IsChunk, Disjoint, Flatten, NaiveOps;
    RunAt(mem, order, disk, a, Source(r, a, disk));
    RunAt(mem, NaiveOps(refs), disk, a, Source(r, a, disk));
  }

  lemma {:induction false} OutsideDestinations(files: seq<FileRanges>, byFile: seq<int>, c: nat, plans: seq<TransferPlan>,
                                               gw: seq<int>, workloads: seq<seq<Batch>>, order: seq<ReadOp>, mem: Memory, disk: Disk, a: nat)
    requires c > 0 && PlanOf(files, byFile, c, plans, gw, workloads)
    requires forall op :: op in order <==> IsChunk(workloads, op)
    requires forall i :: 0 <= i < |Flatten(files, |files|)| ==> !InDestination(Flatten(files, |files|)[i], a)
    ensures Run(mem, order, disk)(a) == Run(mem, NaiveOps(Flatten(files, |files|)), disk)(a) == mem(a)
  {
    var refs := Flatten(files, |files|);
    forall op | op in order
      ensures !Writes(op, a)
    {
      if Writes(op, a) {
        var i := ChunkDemanded(files, byFile, c, plans, gw, workloads, op, Byte(op.file, op.offset + (a - op.dst), a));
        assert false;
      }
    }
    forall op | op in NaiveOps(refs)
      ensures !Writes(op, a)
    {
      NaiveMembers(refs, op);
      assert forall i :: 0 <= i < |refs| ==> !InDestination(refs[i], a);
    }
    hide PlanOf, IsChunk, Disjoint, Flatten, NaiveOps;
    RunAt(mem, order, disk, a, 0);
    RunAt(mem, NaiveOps(refs), disk, a, 0);
  }

  lemma OneDestination(refs: seq<RangeRef>, i: nat, j: nat, a: nat)
    requires Disjoint(refs) && i < |refs| && j < |refs| && InDestination(refs[i], a) && InDestination(refs[j], a)
    ensures i == j
  {
    assert !Apart(refs[i].range, refs[j].range) && !Apart(refs[j].range, refs[i].range);
  }

  lemma {:induction false} OneSource(files: seq<FileRanges>, byFile: seq<int>, c: nat, plans: seq<TransferPlan>,
                                     gw: seq<int>, workloads: seq<seq<Batch>>, op: ReadOp, disk: Disk, a: nat, i: nat)
    requires c > 0 && PlanOf(files, byFile, c, plans, gw, workloads)
    requires Disjoint(Flatten(files, |files|)) && i < |Flatten(files, |files|)|
    requires IsChunk(workloads, op) && Writes(op, a)
    requires InDestination(Flatten(files, |files|)[i], a)
    ensures Value(op, a, disk) == Source(Flatten(files, |files|)[i], a, disk)
  {
    var refs := Flatten(files, |files|);
    var j := ChunkDemanded(files, byFile, c, plans, gw, workloads, op, Byte(op.file, op.offset + (a - op.dst), a));
    OneDestination(refs, i, j, a);
  }

  lemma {:induction false} NaiveAt(refs: seq<RangeRef>, disk: Disk, a: nat, i: nat)
    requires Disjoint(refs) && i < |refs| && InDestination(refs[i], a)
    ensures exists op :: op in NaiveOps(refs) && Writes(op, a)
    ensures forall op :: op in NaiveOps(refs) && Writes(op, a) ==> Value(op, a, disk) == Source(refs[i], a, disk)
  {
    var own := ReadOp(refs[i].file, refs[i].range.offset, refs[i].range.size, refs[i].range.dst);
    NaiveMembers(refs, own);
    assert own in NaiveOps(refs) && Writes(own, a);
    forall op | op in NaiveOps(refs) && Writes(op, a)
      ensures Value(op, a, disk) == Source(refs[i], a, disk)
    {
      NaiveMembers(refs, op);
      var j :| 0 <= j < |refs| && op == ReadOp(refs[j].file, refs[j].range.offset, refs[j].range.size, refs[j].range.dst);
      OneDestination(refs, i, j, a);
    }
  }

  /* ---- building the plan ---- */

  lemma {:induction false} TransferTotals(ts: seq<Transfer>)
    requires forall k :: 0 <= k < |ts| ==> Merged(ts[k])
    ensures TotalOf(ExpandAll(ts)) == SizeTotal(ts)
    ensures ts != [] ==> ExpandAll(ts) != []
  {
    if ts != [] {
      var t := ts[|ts| - 1];
      TransferTotals(ts[..|ts| - 1]);
      TotalConcat(ExpandAll(ts[..|ts| - 1]), Expand(t));
      ExpandTotal(t, |t.rangeSizes|);
      assert t.rangeSizes[..|t.rangeSizes|] == t.rangeSizes;
    }
  }

  lemma {:induction false} ExpandTotal(t: Transfer, n: nat)
    requires n <= |t.rangeSizes|
    ensures TotalOf(ExpandTo(t, n)) == Sum(t.rangeSizes[..n]) && |ExpandTo(t, n)| == n
  {
    if n > 0 {
      ExpandTotal(t, n - 1);
      SumPrefixStep(t.rangeSizes, n - 1);
      TotalAppend(ExpandTo(t, n - 1),
                  RangeRef(t.file, t.firstRange + n - 1,
                           Range(RangeOffset(t, n - 1), t.rangeSizes[n - 1], RangeDst(t, n - 1))));
    }
  }

  /** A divided transfer, ready to be cut, whose slices go to workloads of its own group. */
  ghost predicate Cuttable(t: Transfer, byFile: seq<int>, gw: seq<int>) {
    && Divided(t) && t.rangeSizes != [] && Sum(t.rangeSizes) == t.size
    && Finished(t, GroupOf(byFile, t.file), gw, |gw|)
  }

  lemma {:induction false} SameExpansion(a: seq<Transfer>, b: seq<Transfer>)
    requires OnlyTasksChanged(a, b)
    ensures ExpandAll(a) == ExpandAll(b)
  {
    if a != [] {
      var n := |a| - 1;
      SameExpansion(a[..n], b[..n]);
      assert Bare(b[n]) == Bare(a[n]);
      SameExpand(a[n], b[n], |a[n].rangeSizes|);
    }
  }

  lemma {:induction false} SameExpand(s: Transfer, t: Transfer, n: nat)
    requires Bare(s) == Bare(t) && n <= |s.rangeSizes|
    ensures ExpandTo(s, n) == ExpandTo(t, n)
  {
    if n > 0 { SameExpand(s, t, n - 1); }
  }

  lemma {:induction false} AssignedCuttable(merged: seq<Transfer>, ts: seq<Transfer>, byFile: seq<int>, block: nat,
                                            numWorkers: nat, sync: Group, wb: seq<nat>, gw: seq<int>)
    requires block > 0 && AllMerged(merged) && OnlyTasksChanged(merged, ts)
    requires Assignment(merged, byFile, block, numWorkers, sync, ts, wb, gw)
    ensures forall k :: 0 <= k < |ts| ==> Cuttable(ts[k], byFile, gw)
    ensures ExpandAll(ts) == ExpandAll(merged) && (Maximal(merged) ==> Maximal(ts))
  {
    forall k | 0 <= k < |ts|
      ensures Cuttable(ts[k], byFile, gw)
    {
      assert Bare(ts[k]) == Bare(merged[k]) && Merged(merged[k]);
    }
    SameExpansion(merged, ts);
    if Maximal(merged) { StaysMaximal(merged, ts); }
  }

  lemma {:induction false} StaysMaximal(a: seq<Transfer>, b: seq<Transfer>)
    requires OnlyTasksChanged(a, b) && Maximal(a)
    ensures Maximal(b)
  {
    forall k, l | 0 <= k < l < |b| && l == k + 1 && b[k].file == b[l].file
      ensures !Continues(b[k], b[l].offset, b[l].dst)
    {
      assert Bare(b[k]) == Bare(a[k]) && Bare(b[l]) == Bare(a[l]);
    }
  }

  /* ---- what the request must be for offsets to stay below the end of the machine's numbers ---- */

  /** Every range ends by the largest offset and the largest address. */
  ghost predicate Fits(files: seq<FileRanges>) {
    forall i, j :: 0 <= i < |files| && 0 <= j < |files[i].ranges| ==> RangeFits(files[i].ranges[j])
  }

  ghost predicate RangeFits(r: Range) {
    r.offset + r.size <= MAX_SIZE && r.dst + r.size <= MAX_SIZE
  }

  lemma {:induction false} FitsNeverWraps(files: seq<FileRanges>)
    requires Fits(files)
    ensures NoWrappedNeighbours(files)
  {
    forall f | 0 <= f < |files|
      ensures NoWrapBelow(files[f].ranges, |files[f].ranges|)
    {
      forall i, j | 0 <= i < j < |files[f].ranges| && j == i + 1
        ensures !WrapsInto(files[f].ranges[i], files[f].ranges[j])
      {
        assert RangeFits(files[f].ranges[i]);
      }
    }
  }

  /** A transfer ends where the last of its ranges does. */
  lemma {:induction false} TransferEnd(ts: seq<Transfer>, k: nat) returns (x: RangeRef)
    requires k < |ts| && ts[k].rangeSizes != [] && Sum(ts[k].rangeSizes) == ts[k].size
    ensures x in ExpandAll(ts) && x.file == ts[k].file && x.range.offset + x.range.size == ts[k].offset + ts[k].size
  {
    var n := |ts| - 1;
    if k < n {
      x := TransferEnd(ts[..n], k);
    } else {
      var t := ts[n];
      var last := |t.rangeSizes| - 1;
      SumPrefixStep(t.rangeSizes, last);
      assert t.rangeSizes[..last + 1] == t.rangeSizes;
      x := RangeRef(t.file, t.firstRange + last, Range(RangeOffset(t, last), t.rangeSizes[last], RangeDst(t, last)));
      assert Expand(t)[|Expand(t)| - 1] == x;
    }
  }

  /** A transfer of a request whose ranges fit ends where one of them does. */
  lemma {:induction false} EndsAsRange(files: seq<FileRanges>, ts: seq<Transfer>, k: nat) returns (f: nat, i: nat)
    requires ExpandAll(ts) == Flatten(files, |files|) && k < |ts|
    requires ts[k].rangeSizes != [] && Sum(ts[k].rangeSizes) == ts[k].size
    ensures f < |files| && i < |files[f].ranges|
    ensures files[f].ranges[i].offset + files[f].ranges[i].size == ts[k].offset + ts[k].size
  {
    var x := TransferEnd(ts, k);
    FlattenHas(files, |files|, x);
    f, i := x.file, x.index;
  }

  ghost predicate AllReachable(ts: seq<Transfer>) { forall k :: 0 <= k < |ts| ==> Reachable(ts[k]) }

  lemma {:induction false} FitsIsReachable(files: seq<FileRanges>, ts: seq<Transfer>, byFile: seq<int>, gw: seq<int>)
    requires Fits(files) && ExpandAll(ts) == Flatten(files, |files|)
    requires forall k :: 0 <= k < |ts| ==> Cuttable(ts[k], byFile, gw)
    ensures AllReachable(ts)
  {
    forall k | 0 <= k < |ts|
      ensures Reachable(ts[k])
    {
      assert Cuttable(ts[k], byFile, gw);
      var f, i := EndsAsRange(files, ts, k);
      assert RangeFits(files[f].ranges[i]);
    }
  }

  /** Enough to keep every slice below 2^32 tasks, however the request is divided. */
  predicate Sparse(files: seq<FileRanges>, c: nat)
    requires c > 0
  {
    |Flatten(files, |files|)| + TotalOf(Flatten(files, |files|)) / c + 2 < UNSIGNED
  }

  lemma {:induction false} BatchAdded(all: seq<Batch>, batch: Batch, workloads: seq<seq<Batch>>)
    requires Shared(all, workloads) && batch.workload < |workloads|
    ensures Shared(all + [batch], workloads[batch.workload := workloads[batch.workload] + [batch]])
  {
    forall w | 0 <= w < |workloads|
      ensures workloads[batch.workload := workloads[batch.workload] + [batch]][w] == Select(all + [batch], WorkloadOf, w)
    {
      SelectAppend(all, batch, WorkloadOf, w);
    }
  }

  /** The inner loop of async_request: the batches of one transfer go to their workloads. */
  method AddBatches(workloads: seq<seq<Batch>>, batches: seq<Batch>, ghost all: seq<Batch>) returns (added: seq<seq<Batch>>)
    requires Shared(all, workloads) && forall k :: 0 <= k < |batches| ==> batches[k].workload < |workloads|
    ensures Shared(all + batches, added) && |added| == |workloads|
  {
    added := workloads;
    assert all + batches[..0] == all;
    for j := 0 to |batches|
      invariant |added| == |workloads| && Shared(all + batches[..j], added)
    {
      var batch := batches[j];
      assert all + batches[..j + 1] == (all + batches[..j]) + [batch];
      BatchAdded(all + batches[..j], batch, added);
      hide Shared;
      added := added[batch.workload := added[batch.workload] + [batch]];
    }
    assert batches[..|batches|] == batches;
  }

  /** Where the loop over the transfers stands; what it says of each plan holds where offsets do not wrap. */
  ghost predicate PlannedUpTo(ts: seq<Transfer>, byFile: seq<int>, c: nat, plans: seq<TransferPlan>,
                              gw: seq<int>, workloads: seq<seq<Batch>>)
    requires c > 0
  {
    && |plans| <= |ts| && Transfers(plans) == ts[..|plans|]
    && (AllReachable(ts) ==>
          forall p :: 0 <= p < |plans| ==> WellPlanned(plans[p], c) && OwnGroup(plans[p], byFile, gw) && !TransferTrips(plans[p].transfer, c, |plans[p].transfer.rangeSizes|))
    && |gw| == |workloads| && Shared(AllBatches(plans), workloads)
  }

  lemma {:induction false} PlanNext(ts: seq<Transfer>, byFile: seq<int>, c: nat, plans: seq<TransferPlan>, gw: seq<int>,
                                    workloads: seq<seq<Batch>>, plan: TransferPlan, added: seq<seq<Batch>>)
    requires c > 0 && PlannedUpTo(ts, byFile, c, plans, gw, workloads) && |plans| < |ts|
    requires plan.transfer == ts[|plans|]
    requires AllReachable(ts) ==> WellPlanned(plan, c) && OwnGroup(plan, byFile, gw) && !TransferTrips(plan.transfer, c, |plan.transfer.rangeSizes|)
    requires Shared(AllBatches(plans) + plan.batches, added) && |added| == |workloads|
    ensures PlannedUpTo(ts, byFile, c, plans + [plan], gw, added)
  {
    PlansAppend(plans, plan);
    hide WellPlanned, OwnGroup, Shared, AllBatches, Transfers, TransferTrips, AllReachable;
    assert ts[..|plans| + 1] == ts[..|plans|] + [plan.transfer];
  }

  lemma {:induction false} PlansAppend(plans: seq<TransferPlan>, plan: TransferPlan)
    ensures AllBatches(plans + [plan]) == AllBatches(plans) + plan.batches
    ensures Transfers(plans + [plan]) == Transfers(plans) + [plan.transfer]
  {
    assert (plans + [plan])[..|plans|] == plans;
  }

  /** The transfer is one of these and was cut, and a slice of it has 2^32 tasks. */
  ghost predicate CrowdedIn(ts: seq<Transfer>, c: nat, plan: TransferPlan)
    requires c > 0
  {
    && plan.transfer in ts
    && CutUpTo(plan.transfer, plan.placed, c, |plan.transfer.rangeSizes|)
    && Arranged(plan.transfer, plan.placed, c, |plan.transfer.rangeSizes|)
    && Crowded(plan.placed, |plan.transfer.tasks|)
  }

  /** These transfers are the request's ranges, merged and divided. */
  ghost predicate DividedFrom(files: seq<FileRanges>, ts: seq<Transfer>) {
    MergedFrom(files, ts) && forall k :: 0 <= k < |ts| ==> Divided(ts[k])
  }

  /** One of the request's own transfers has a slice of 2^32 tasks. */
  ghost predicate CrowdedOf(files: seq<FileRanges>, c: nat, plan: TransferPlan)
    requires c > 0
  {
    exists ts :: DividedFrom(files, ts) && CrowdedIn(ts, c, plan)
  }

  /** The loop of async_request over the transfers. What building a transfer's batches throws ends it. */
  method CutTransfers(ts: seq<Transfer>, numWorkloads: nat, c: nat, ghost byFile: seq<int>, ghost gw: seq<int>)
    returns (thrown: bool, workloads: seq<seq<Batch>>, ghost plans: seq<TransferPlan>, ghost crowded: seq<TransferPlan>)
    requires 0 < c <= MAX_SIZE && |gw| == numWorkloads && forall k :: 0 <= k < |ts| ==> Cuttable(ts[k], byFile, gw)
    requires forall k :: 0 <= k < |ts| ==> |ts[k].rangeSizes| < UNSIGNED
    ensures PlannedUpTo(ts, byFile, c, plans, gw, workloads) && (!thrown ==> |plans| == |ts|)
    ensures AllReachable(ts) && thrown ==> SomeTransferTrips(ts, c) || (|crowded| == 1 && CrowdedIn(ts, c, crowded[0]))
  {
    workloads := seq(numWorkloads, _ => []);
    thrown, plans, crowded := false, [], [];
    for p := 0 to |ts|
      invariant |plans| == p && PlannedUpTo(ts, byFile, c, plans, gw, workloads)
    {
      var batches;
      ghost var placed;
      assert Cuttable(ts[p], byFile, gw);
      thrown, batches, placed := BuildTasks(ts[p], c);
      if thrown {
        crowded := [TransferPlan(ts[p], [], placed)];
        if AllReachable(ts) { WhyThrown(ts, c, crowded[0], p); }
        return;
      }
      ghost var plan := TransferPlan(ts[p], batches, placed);
      PlanBuilt(ts, byFile, c, plan, gw, p);
      var added := AddBatches(workloads, batches, AllBatches(plans));
      hide *;
      PlanNext(ts, byFile, c, plans, gw, workloads, plan, added);
      workloads := added;
      plans := plans + [plan];
    }
  }

  lemma {:induction false} WhyThrown(ts: seq<Transfer>, c: nat, plan: TransferPlan, p: nat)
    requires c > 0 && p < |ts| && plan.transfer == ts[p]
    requires CutUpTo(ts[p], plan.placed, c, |ts[p].rangeSizes|) && Arranged(ts[p], plan.placed, c, |ts[p].rangeSizes|)
    requires TransferTrips(ts[p], c, |ts[p].rangeSizes|) || Crowded(plan.placed, |ts[p].tasks|)
    ensures SomeTransferTrips(ts, c) || CrowdedIn(ts, c, plan)
  {
    hide TransferTrips, Crowded, CutUpTo, Arranged;
  }

  lemma {:induction false} PlanBuilt(ts: seq<Transfer>, byFile: seq<int>, c: nat, plan: TransferPlan, gw: seq<int>, p: nat)
    requires c > 0 && p < |ts| && plan.transfer == ts[p] && Cuttable(ts[p], byFile, gw)
    requires Reachable(ts[p]) ==> Planned(ts[p], c, plan.batches, plan.placed) && !TransferTrips(ts[p], c, |ts[p].rangeSizes|)
    ensures AllReachable(ts) ==> WellPlanned(plan, c) && OwnGroup(plan, byFile, gw) && !TransferTrips(plan.transfer, c, |plan.transfer.rangeSizes|)
  {
    hide Planned, TransferTrips, Divided;
    if AllReachable(ts) { assert Reachable(ts[p]); }
  }

  /** What submitting gives: the workloads to dispatch, a refusal, or an exception the C entry point reports
      as an unknown error. */
  datatype Submitted = Workloads(workloads: seq<seq<Batch>>) | InvalidParameterError | UnknownError

  /** Some range has bytes and nowhere to put them. */
  ghost predicate NullDestination(files: seq<FileRanges>) {
    exists f, i :: 0 <= f < |files| && 0 <= i < |files[f].ranges| && HasNoPlace(files[f].ranges[i])
  }

  predicate HasNoPlace(r: Range) { r.size > 0 && r.dst == 0 }

  /** The request is refused before anything of it is planned. */
  ghost predicate Refused(files: seq<FileRanges>) {
    || NullDestination(files)
    || |Flatten(files, |files|)| > MAX_RANGES
    || TotalOf(Flatten(files, |files|)) > MAX_SIZE
  }

  /** verify_requests: throws for a range of bytes without a destination. */
  method VerifyRequests(files: seq<FileRanges>) returns (throws: bool)
    ensures throws <==> NullDestination(files)
  {
    for f := 0 to |files|
      invariant forall g, i :: 0 <= g < f && 0 <= i < |files[g].ranges| ==> !HasNoPlace(files[g].ranges[i])
    {
      for i := 0 to |files[f].ranges|
        invariant forall j :: 0 <= j < i ==> !HasNoPlace(files[f].ranges[j])
      {
        var range := files[f].ranges[i];
        if range.size > 0 && range.dst == 0 { return true; }
      }
    }
    throws := false;
  }

  /** async_request up to dispatch, on any request. Refused exactly when a range with bytes has no
      destination, the ranges cannot be counted, or their bytes cannot be added up. Where every range ends
      by the largest offset and address, it otherwise fails if the ranges trip the splitter in the last
      cell, or some slice has 2^32 tasks; else the workloads hold a complete plan and neither is so. A
      sparse request has no such slice: it fails exactly when its ranges trip. */
  method PlanReads(files: seq<FileRanges>, byFile: seq<int>, numWorkers: nat, block: nat, c: nat)
    returns (result: Submitted, ghost plans: seq<TransferPlan>, ghost gw: seq<int>, ghost crowded: seq<TransferPlan>)
    requires block > 0 && 0 < c <= MAX_SIZE && Words(files)
    ensures result.InvalidParameterError? <==> Refused(files)
    ensures Fits(files) && result.Workloads? ==> PlanOf(files, byFile, c, plans, gw, result.workloads)
    ensures Fits(files) && result.Workloads? ==> !FilesTrip(files, c) && FewSlices(plans, numWorkers)
    ensures Fits(files) && result.UnknownError? ==> FilesTrip(files, c) || (|crowded| == 1 && CrowdedOf(files, c, crowded[0]))
    ensures Fits(files) && Sparse(files, c) ==> (result.UnknownError? <==> !Refused(files) && FilesTrip(files, c))
  {
    hide *;
    plans, gw, crowded := [], [], [];
    WhenRefused(files);
    var throws := VerifyRequests(files);
    if throws { return InvalidParameterError, plans, gw, crowded; }
    var totalRanges := CountRanges(files);
    if totalRanges > MAX_RANGES { return InvalidParameterError, plans, gw, crowded; }
    if totalRanges == 0 {
      NothingPlanned(files, byFile, c, numWorkers);
      return Workloads([]), plans, gw, crowded;
    }
    var total, merged := Coalesce(files);
    SummedMeans(TotalOf(Flatten(files, |files|)), TotalOf(Flatten(files, |files|)));
    if total.InvalidParameter? { return InvalidParameterError, plans, gw, crowded; }
    MergedTotals(files, merged);
    var thrown, workloads;
    thrown, workloads, plans, gw, crowded := PlanMerged(files, merged, total.value, byFile, numWorkers, block, c);
    if |crowded| == 1 && Sparse(files, c) { SparseIsNotCrowded(files, c, crowded[0]); }
    result := if thrown then UnknownError else Workloads(workloads);
  }

  lemma {:induction false} WhenRefused(files: seq<FileRanges>)
    ensures Refused(files) <==>
      || NullDestination(files) || |Flatten(files, |files|)| > MAX_RANGES || TotalOf(Flatten(files, |files|)) > MAX_SIZE
  {
  }

  lemma {:induction false} MergedTotals(files: seq<FileRanges>, merged: seq<Transfer>)
    requires AllMerged(merged) && Alike(ExpandAll(merged), Flatten(files, |files|)) && |Flatten(files, |files|)| > 0
    ensures merged != [] && SizeTotal(merged) == TotalOf(Flatten(files, |files|)) && |ExpandAll(merged)| == |Flatten(files, |files|)|
  {
    TransferTotals(merged);
  }

  /** No transfer is cut into more slices than there are workers. */
  ghost predicate FewSlices(plans: seq<TransferPlan>, numWorkers: nat) {
    forall p :: 0 <= p < |plans| ==> |plans[p].transfer.tasks| <= Max(1, numWorkers)
  }

  lemma {:induction false} SparseIsNotCrowded(files: seq<FileRanges>, c: nat, plan: TransferPlan)
    requires c > 0 && Sparse(files, c)
    ensures !CrowdedOf(files, c, plan)
  {
    if ts :| DividedFrom(files, ts) && CrowdedIn(ts, c, plan) {
      var t := plan.transfer;
      var m: nat :| m < |ts| && ts[m] == t;
      var k: nat :| k < |t.tasks| && |Share(plan.placed, k)| >= UNSIGNED;
      TransferIsPart(files, ts, m);
      hide Sparse, CrowdedIn, CutUpTo, Arranged, Share, DividedFrom;
      assert Divided(t);
      FewTasks(t, plan.placed, c, k);
      SlicesPrefix(t.tasks, t.offset, t.offset + t.size, k);
      CellBoundary(t.tasks[k].size, TotalOf(Flatten(files, |files|)), c);
    }
  }

  lemma {:induction false} NothingPlanned(files: seq<FileRanges>, byFile: seq<int>, c: nat, numWorkers: nat)
    requires c > 0 && |Flatten(files, |files|)| == 0
    ensures PlanOf(files, byFile, c, [], [], []) && TotalOf(Flatten(files, |files|)) == 0 <= MAX_SIZE
    ensures !FilesTrip(files, c) && FewSlices([], numWorkers)
  {
    if f: nat, i: nat :| f < |files| && RangeTrips(files[f].ranges, c, i) {
      FlattenAt(files, |files|, f, i);
    }
  }

  /** The rest of it, from the coalesced transfers on. */
  method PlanMerged(files: seq<FileRanges>, merged: seq<Transfer>, total: nat, byFile: seq<int>, numWorkers: nat, block: nat, c: nat)
    returns (thrown: bool, workloads: seq<seq<Batch>>, ghost plans: seq<TransferPlan>, ghost gw: seq<int>,
             ghost crowded: seq<TransferPlan>)
    requires block > 0 && 0 < c <= MAX_SIZE && merged != [] && AllMerged(merged) && total == SizeTotal(merged)
    requires |ExpandAll(merged)| <= MAX_RANGES
    requires Coalesced(files, merged) <==> NoWrappedNeighbours(files)
    ensures Fits(files) && !thrown ==> PlanOf(files, byFile, c, plans, gw, workloads)
    ensures Fits(files) && !thrown ==> !FilesTrip(files, c) && FewSlices(plans, numWorkers)
    ensures Fits(files) && thrown ==> FilesTrip(files, c) || (|crowded| == 1 && CrowdedOf(files, c, crowded[0]))
  {
    var assigner := new Assigner(merged, byFile, numWorkers, block);
    ghost var sync := assigner.Assign(total);
    gw := assigner.groupByWorkload;
    ghost var ts := assigner.transfers;
    AssignedCuttable(merged, ts, byFile, block, numWorkers, sync, assigner.workerBytes, gw);
    CountableRanges(ts);
    AssignedSlices(merged, ts, byFile, block, numWorkers, sync, assigner.workerBytes, gw);
    thrown, workloads, plans, crowded := CutTransfers(assigner.transfers, assigner.numWorkloads, c, byFile, gw);
    if Fits(files) {
      FitsNeverWraps(files);
      FitsIsReachable(files, ts, byFile, gw);
      AssignedMerged(files, ts, byFile, gw);
      TripsAsRequest(files, ts, c);
      if thrown { CrowdedIsOwn(files, ts, c, crowded); }
      else { Complete(files, ts, byFile, c, plans, gw, workloads, numWorkers); }
    }
  }

  /** No transfer has more ranges than the request. */
  lemma {:induction false} CountableRanges(ts: seq<Transfer>)
    requires |ExpandAll(ts)| <= MAX_RANGES
    ensures forall k :: 0 <= k < |ts| ==> |ts[k].rangeSizes| < UNSIGNED
  {
    forall k | 0 <= k < |ts|
      ensures |ts[k].rangeSizes| < UNSIGNED
    {
      if ts[k].rangeSizes != [] { ExpandAllAt(ts, k, |ts[k].rangeSizes| - 1); }
    }
  }

  lemma {:induction false} AssignedSlices(merged: seq<Transfer>, ts: seq<Transfer>, byFile: seq<int>, block: nat,
                                          numWorkers: nat, sync: Group, wb: seq<nat>, gw: seq<int>)
    requires block > 0 && OnlyTasksChanged(merged, ts) && Assignment(merged, byFile, block, numWorkers, sync, ts, wb, gw)
    ensures forall k :: 0 <= k < |ts| ==> |ts[k].tasks| <= Max(1, numWorkers)
  {
    forall k | 0 <= k < |ts|
      ensures |ts[k].tasks| <= Max(1, numWorkers)
    {
      SlicesPerTransfer(merged, byFile, block, numWorkers, sync, ts, wb, gw, k);
    }
  }

  lemma {:induction false} AssignedMerged(files: seq<FileRanges>, ts: seq<Transfer>, byFile: seq<int>, gw: seq<int>)
    requires ExpandAll(ts) == Flatten(files, |files|) && Maximal(ts)
    requires forall k :: 0 <= k < |ts| ==> Cuttable(ts[k], byFile, gw)
    ensures DividedFrom(files, ts) && MergedFrom(files, ts)
  {
    hide ExpandAll, Flatten, Maximal, Divided, Finished;
    forall k | 0 <= k < |ts|
      ensures Divided(ts[k]) && ts[k].rangeSizes != [] && Sum(ts[k].rangeSizes) == ts[k].size
    {
      assert Cuttable(ts[k], byFile, gw);
    }
  }

  lemma {:induction false} CrowdedIsOwn(files: seq<FileRanges>, ts: seq<Transfer>, c: nat, crowded: seq<TransferPlan>)
    requires c > 0 && DividedFrom(files, ts)
    ensures |crowded| == 1 && CrowdedIn(ts, c, crowded[0]) ==> CrowdedOf(files, c, crowded[0])
  {
    hide DividedFrom, CrowdedIn;
  }

  lemma {:induction false} Complete(files: seq<FileRanges>, ts: seq<Transfer>, byFile: seq<int>, c: nat, plans: seq<TransferPlan>,
                                    gw: seq<int>, workloads: seq<seq<Batch>>, numWorkers: nat)
    requires c > 0 && PlannedUpTo(ts, byFile, c, plans, gw, workloads) && |plans| == |ts| && AllReachable(ts)
    requires ExpandAll(ts) == Flatten(files, |files|) && Maximal(ts)
    requires forall k :: 0 <= k < |ts| ==> |ts[k].tasks| <= Max(1, numWorkers)
    ensures PlanOf(files, byFile, c, plans, gw, workloads)
    ensures !SomeTransferTrips(ts, c) && FewSlices(plans, numWorkers)
  {
    assert ts[..|plans|] == ts;
    TransfersAt(plans);
    hide WellPlanned, OwnGroup, TransferTrips, Shared, ExpandAll, Maximal;
  }

  /** A transfer's ranges and bytes are among the request's. */
  lemma {:induction false} TransferIsPart(files: seq<FileRanges>, ts: seq<Transfer>, m: nat)
    requires DividedFrom(files, ts) && m < |ts|
    ensures |ts[m].rangeSizes| <= |Flatten(files, |files|)| && ts[m].size <= TotalOf(Flatten(files, |files|))
  {
    PartOfAll(ts, m);
  }

  lemma {:induction false} PartOfAll(ts: seq<Transfer>, m: nat)
    requires m < |ts| && Sum(ts[m].rangeSizes) == ts[m].size
    ensures |ts[m].rangeSizes| <= |ExpandAll(ts)| && ts[m].size <= TotalOf(ExpandAll(ts))
  {
    hide *;
    var n := |ts| - 1;
    LastTransfer(ts);
    TotalConcat(ExpandAll(ts[..n]), Expand(ts[n]));
    if m < n { PartOfAll(ts[..n], m); }
  }

  lemma {:induction false} LastTransfer(ts: seq<Transfer>)
    requires ts != []
    ensures
      var n := |ts| - 1;
      && ExpandAll(ts) == ExpandAll(ts[..n]) + Expand(ts[n])
      && |Expand(ts[n])| == |ts[n].rangeSizes| && TotalOf(Expand(ts[n])) == Sum(ts[n].rangeSizes)
  {
    var t := ts[|ts| - 1];
    ExpandTotal(t, |t.rangeSizes|);
    assert t.rangeSizes[..|t.rangeSizes|] == t.rangeSizes;
    hide TotalOf, ExpandTo, Sum;
  }

  /** A request whose ranges fit, that is not refused, and that fails all the same: two ranges of no bytes
      at the largest offset. */
  method LastCellFails(c: nat) returns (files: seq<FileRanges>, result: Submitted)
    requires 0 < c <= MAX_SIZE
    ensures files == [FileRanges("f", [Range(MAX_SIZE, 0, 0), Range(MAX_SIZE, 0, 0)])] && Fits(files) && !Refused(files)
    ensures result == UnknownError
  {
    files := [FileRanges("f", [Range(MAX_SIZE, 0, 0), Range(MAX_SIZE, 0, 0)])];
    TwoEmpty(files, c);
    ghost var plans, gw, crowded;
    result, plans, gw, crowded := PlanReads(files, [], 1, 1, c);
  }

  lemma {:induction false} TwoEmpty(files: seq<FileRanges>, c: nat)
    requires c > 0 && files == [FileRanges("f", [Range(MAX_SIZE, 0, 0), Range(MAX_SIZE, 0, 0)])]
    ensures Words(files) && Fits(files) && !Refused(files) && Sparse(files, c) && FilesTrip(files, c)
  {
    var ranges, x, y := files[0].ranges, RangeRef(0, 0, Range(MAX_SIZE, 0, 0)), RangeRef(0, 1, Range(MAX_SIZE, 0, 0));
    assert FlattenFile(0, ranges, 2) == FlattenFile(0, ranges, 1) + [y] && FlattenFile(0, ranges, 1) == FlattenFile(0, ranges, 0) + [x];
    assert Flatten(files, 1) == Flatten(files, 0) + FlattenFile(0, ranges, 2) == [x, y];
    TotalAppend([x], y);
    TotalAppend([], x);
    assert [] + [x] == [x] && [x] + [y] == [x, y];
    assert RangeTrips(files[0].ranges, c, 1);
  }

  /** A request that is clear of the last cell and fails all the same: one range of 2^32 chunks for one
      worker. */
  method TooManyTasks(c: nat, block: nat) returns (files: seq<FileRanges>, result: Submitted)
    requires block > 0 && 0 < c && UNSIGNED * c < MAX_SIZE
    ensures files == [FileRanges("f", [Range(0, UNSIGNED * c, 1)])] && Fits(files) && !Refused(files) && !FilesTrip(files, c)
    ensures result == UnknownError
  {
    files := [FileRanges("f", [Range(0, UNSIGNED * c, 1)])];
    OneLong(files, UNSIGNED * c, c);
    ghost var plans, gw, crowded;
    result, plans, gw, crowded := PlanReads(files, [], 1, block, c);
    hide *;
    if result.Workloads? { OneSliceCrowds(files, c, plans, gw, result.workloads); }
  }

  lemma {:induction false} OneLong(files: seq<FileRanges>, size: nat, c: nat)
    requires c > 0 && 0 < size < MAX_SIZE && files == [FileRanges("f", [Range(0, size, 1)])]
    ensures Words(files) && Fits(files) && !Refused(files) && !FilesTrip(files, c)
    ensures Flatten(files, 1) == [RangeRef(0, 0, Range(0, size, 1))]
  {
    var ranges, x := files[0].ranges, RangeRef(0, 0, Range(0, size, 1));
    assert FlattenFile(0, ranges, 1) == FlattenFile(0, ranges, 0) + [x];
    assert Flatten(files, 1) == Flatten(files, 0) + FlattenFile(0, ranges, 1) == [x];
    TotalAppend([], x);
    assert [] + [x] == [x];
  }

  lemma {:induction false} OneSliceCrowds(files: seq<FileRanges>, c: nat, plans: seq<TransferPlan>, gw: seq<int>, workloads: seq<seq<Batch>>)
    requires 0 < c && UNSIGNED * c < MAX_SIZE && files == [FileRanges("f", [Range(0, UNSIGNED * c, 1)])]
    requires FewSlices(plans, 1)
    ensures !PlanOf(files, [], c, plans, gw, workloads)
  {
    if PlanOf(files, [], c, plans, gw, workloads) {
      hide *;
      PlanMeans(files, c, plans, gw, workloads);
      var k, j := GivenBy(files, Transfers(plans), 0, 0);
      OneSliceEach(files, plans, c, k, j);
      LongPlanCrowds(plans[k], c, j);
    }
  }

  lemma {:induction false} PlanMeans(files: seq<FileRanges>, c: nat, plans: seq<TransferPlan>, gw: seq<int>, workloads: seq<seq<Batch>>)
    requires c > 0 && PlanOf(files, [], c, plans, gw, workloads)
    ensures ExpandAll(Transfers(plans)) == Flatten(files, |files|)
    ensures |Transfers(plans)| == |plans| && forall p :: 0 <= p < |plans| ==> WellPlanned(plans[p], c)
  {
    TransfersAt(plans);
    hide WellPlanned, ExpandAll, Transfers, Flatten, Maximal, OwnGroup, Shared, AllBatches;
  }

  lemma {:induction false} OneSliceEach(files: seq<FileRanges>, plans: seq<TransferPlan>, c: nat, k: nat, j: nat)
    requires FewSlices(plans, 1) && files == [FileRanges("f", [Range(0, UNSIGNED * c, 1)])] && k < |Transfers(plans)|
    requires |Transfers(plans)| == |plans| && j < |Transfers(plans)[k].rangeSizes| && Transfers(plans)[k].file == 0
    requires Transfers(plans)[k].firstRange + j == 0 && GivenAs(files, Transfers(plans)[k], j)
    ensures |plans[k].transfer.tasks| <= 1 && j < |plans[k].transfer.rangeSizes|
    ensures plans[k].transfer.rangeSizes[j] >= UNSIGNED * c
  {
    TransfersAt(plans);
    hide Transfers, RangeOffset, RangeDst;
  }

  /** A transfer that is one slice and has a range of 2^32 chunks cannot be planned. */
  lemma {:induction false} LongPlanCrowds(plan: TransferPlan, c: nat, j: nat)
    requires c > 0 && j < |plan.transfer.rangeSizes| && |plan.transfer.tasks| <= 1
    requires plan.transfer.rangeSizes[j] >= UNSIGNED * c
    ensures !WellPlanned(plan, c)
  {
    if WellPlanned(plan, c) {
      var t := plan.transfer;
      SumPrefixStep(t.rangeSizes, j);
      SumPrefixMonotone(t.rangeSizes, j + 1, |t.rangeSizes|);
      assert t.rangeSizes[..|t.rangeSizes|] == t.rangeSizes;
      SlicesPrefix(t.tasks, t.offset, t.offset + t.size, 0);
      LongSliceCrowds(t, plan.placed, c, 0);
    }
  }

  method CountRanges(files: seq<FileRanges>) returns (n: nat)
    ensures n == |Flatten(files, |files|)|
  {
    n := 0;
    for f := 0 to |files|
      invariant n == |Flatten(files, f)|
    {
      FlattenFileLength(f, files[f].ranges, |files[f].ranges|);
      n := n + |files[f].ranges|;
    }
  }

  lemma {:induction false} FlattenFileLength(file: nat, ranges: seq<Range>, n: nat)
    requires n <= |ranges|
    ensures |FlattenFile(file, ranges, n)| == n
  {
    if n > 0 { FlattenFileLength(file, ranges, n - 1); }
  }

  /* ---- what each range is owed ---- */

  predicate Names(r: Request, file: nat, index: nat) { r.file == file && r.index == index }

  function Named(file: nat, index: nat): RangeRef -> nat {
    (r: RangeRef) => if r.file == file && r.index == index then 1 else 0
  }

  function TaskNamed(file: nat, index: nat): Task -> nat {
    (t: Task) => if Names(t.request, file, index) then 1 else 0
  }

  function PlacedNamed(file: nat, index: nat): Placed -> nat {
    (p: Placed) => if Names(p.task.request, file, index) then 1 else 0
  }

  function BatchNamed(file: nat, index: nat): Batch -> nat {
    (b: Batch) => Weight(b.tasks, TaskNamed(file, index))
  }

  function WorkloadNamed(file: nat, index: nat): seq<Batch> -> nat {
    (w: seq<Batch>) => Weight(w, BatchNamed(file, index))
  }

  /** How many tasks, over all workloads, belong to this range of this file. */
  function TasksOwed(workloads: seq<seq<Batch>>, file: nat, index: nat): nat {
    Weight(workloads, WorkloadNamed(file, index))
  }

  lemma {:induction false} TasksNamed(placed: seq<Placed>, file: nat, index: nat)
    ensures Weight(Tasks(placed), TaskNamed(file, index)) == Weight(placed, PlacedNamed(file, index))
  {
    if placed != [] {
      var n := |placed| - 1;
      TasksNamed(placed[..n], file, index);
      assert Tasks(placed)[..|Tasks(placed)| - 1] == Tasks(placed[..n]);
    }
  }

  lemma {:induction false} BatchNamedTasks(plan: TransferPlan, c: nat, k: nat, file: nat, index: nat)
    requires c > 0 && WellPlanned(plan, c) && k < |plan.batches|
    ensures BatchNamed(file, index)(plan.batches[k]) == Weight(Select(plan.placed, BatchOf, k), PlacedNamed(file, index))
  {
    assert plan.batches[k].tasks == Tasks(Select(plan.placed, BatchOf, k));
    hide WellPlanned, Select, Weight;
    TasksNamed(Select(plan.placed, BatchOf, k), file, index);
  }

  /** The placed task carries the request of a range of its transfer, counting that range's tasks. */
  ghost predicate OwnRequest(plan: TransferPlan, p: Placed) {
    var t := plan.transfer;
    var j := RangeOf(p) - t.firstRange;
    && 0 <= j < |t.rangeSizes| && p.batch < |plan.batches|
    && p.task.request == RequestFor(t, j, |Select(plan.placed, RangeOf, t.firstRange + j)|)
  }

  lemma {:induction false} AllOwn(plan: TransferPlan, c: nat)
    requires c > 0 && WellPlanned(plan, c)
    ensures forall p :: p in plan.placed ==> OwnRequest(plan, p)
  {
    forall p | p in plan.placed
      ensures OwnRequest(plan, p)
    {
      var n :| 0 <= n < |plan.placed| && plan.placed[n] == p;
      PlacedIsCut(plan.transfer, plan.placed, c, n);
    }
  }

  /** The tasks of a transfer's batches are the placed ones, each once. */
  lemma {:induction false} PlanNamed(plan: TransferPlan, c: nat, file: nat, index: nat)
    requires c > 0 && WellPlanned(plan, c)
    ensures Weight(plan.batches, BatchNamed(file, index)) == Weight(plan.placed, PlacedNamed(file, index))
  {
    AllOwn(plan, c);
    forall k | 0 <= k < |plan.batches|
      ensures BatchNamed(file, index)(plan.batches[k]) == Weight(Select(plan.placed, BatchOf, k), PlacedNamed(file, index))
    {
      BatchNamedTasks(plan, c, k, file, index);
    }
    hide WellPlanned, Weight, Select, BatchNamed, PlacedNamed;
    WeightOfShares(plan.batches, BatchNamed(file, index), plan.placed, BatchOf, PlacedNamed(file, index));
    WeightPartition(plan.placed, BatchOf, PlacedNamed(file, index), |plan.batches|);
  }

  lemma {:induction false} SelectWeight(placed: seq<Placed>, file: nat, index: nat)
    requires forall p :: p in placed ==> p.task.request.file == file
    ensures Weight(placed, PlacedNamed(file, index)) == |Select(placed, RangeOf, index)|
  {
    if placed != [] { SelectWeight(placed[..|placed| - 1], file, index); }
  }

  lemma {:induction false} ExpandNamed(t: Transfer, n: nat, file: nat, index: nat)
    requires n <= |t.rangeSizes|
    ensures Weight(ExpandTo(t, n), Named(file, index)) ==
              if file == t.file && t.firstRange <= index < t.firstRange + n then 1 else 0
  {
    if n > 0 {
      ExpandNamed(t, n - 1, file, index);
      WeightAppend(ExpandTo(t, n - 1),
                   RangeRef(t.file, t.firstRange + n - 1,
                            Range(RangeOffset(t, n - 1), t.rangeSizes[n - 1], RangeDst(t, n - 1))), Named(file, index));
    }
  }

  lemma {:induction false} RangeHasTask(plan: TransferPlan, c: nat, j: nat)
    requires c > 0 && WellPlanned(plan, c) && j < |plan.transfer.rangeSizes|
    ensures Select(plan.placed, RangeOf, plan.transfer.firstRange + j) != []
  {
    assert RangeCut(plan.transfer, plan.placed, j, c);
  }

  lemma {:induction false} OneFile(plan: TransferPlan, c: nat)
    requires c > 0 && WellPlanned(plan, c)
    ensures forall p :: p in plan.placed ==> p.task.request.file == plan.transfer.file
  {
    AllOwn(plan, c);
    hide WellPlanned;
    assert forall p :: OwnRequest(plan, p) ==> p.task.request.file == plan.transfer.file;
  }

  /** Within one transfer's plan: a range it holds is owed exactly the tasks its request counts. */
  lemma {:induction false} PlanOwes(plan: TransferPlan, c: nat, j: nat)
    requires c > 0 && WellPlanned(plan, c) && j < |plan.transfer.rangeSizes|
    ensures
      var t := plan.transfer;
      var own := |Select(plan.placed, RangeOf, t.firstRange + j)|;
      Weight(plan.batches, BatchNamed(t.file, t.firstRange + j)) == own > 0
  {
    var file, index := plan.transfer.file, plan.transfer.firstRange + j;
    hide *;
    PlanNamed(plan, c, file, index);
    OneFile(plan, c);
    RangeHasTask(plan, c, j);
    SelectWeight(plan.placed, file, index);
  }

  /** A range the transfer does not hold is owed nothing by its batches. */
  lemma {:induction false} PlanOwesNot(plan: TransferPlan, c: nat, file: nat, index: nat)
    requires c > 0 && WellPlanned(plan, c)
    requires Weight(Expand(plan.transfer), Named(file, index)) == 0
    ensures Weight(plan.batches, BatchNamed(file, index)) == 0
  {
    ExpandNamed(plan.transfer, |plan.transfer.rangeSizes|, file, index);
    PlanNamed(plan, c, file, index);
    AllOwn(plan, c);
    hide WellPlanned;
    assert forall p :: p in plan.placed ==> OwnRequest(plan, p) ==> PlacedNamed(file, index)(p) == 0;
    WeightZero(plan.placed, PlacedNamed(file, index));
  }

  /** Every task of this range, in whatever batch, carries the request r. */
  ghost predicate AllCarry(batches: seq<Batch>, file: nat, index: nat, r: Request) {
    forall b, i :: b in batches && 0 <= i < |b.tasks| && Names(b.tasks[i].request, file, index) ==> b.tasks[i].request == r
  }

  lemma {:induction false} BatchesCarry(plan: TransferPlan, c: nat, j: nat)
    requires c > 0 && WellPlanned(plan, c) && j < |plan.transfer.rangeSizes|
    ensures
      var t := plan.transfer;
      AllCarry(plan.batches, t.file, t.firstRange + j, RequestFor(t, j, |Select(plan.placed, RangeOf, t.firstRange + j)|))
  {
    var file, index := plan.transfer.file, plan.transfer.firstRange + j;
    hide WellPlanned, Select;
    forall b, i | b in plan.batches && 0 <= i < |b.tasks| && Names(b.tasks[i].request, file, index)
      ensures b.tasks[i].request == RequestFor(plan.transfer, j, |Select(plan.placed, RangeOf, index)|)
    {
      TaskIsPlaced(plan, c, b, i);
    }
  }

  lemma {:induction false} TaskIsPlaced(plan: TransferPlan, c: nat, b: Batch, i: nat)
    requires c > 0 && WellPlanned(plan, c) && b in plan.batches && i < |b.tasks|
    ensures exists p :: OwnRequest(plan, p) && p.task == b.tasks[i]
  {
    var k :| 0 <= k < |plan.batches| && plan.batches[k] == b;
    var own := Select(plan.placed, BatchOf, k);
    assert b.tasks == Tasks(own);
    TasksAt(own);
    SelectMembers(plan.placed, BatchOf, k);
    AllOwn(plan, c);
    assert own[i] in own;
  }

  lemma {:induction false} UnnamedTask(batches: seq<Batch>, file: nat, index: nat, b: Batch, i: nat)
    requires Weight(batches, BatchNamed(file, index)) == 0 && b in batches && i < |b.tasks|
    ensures !Names(b.tasks[i].request, file, index)
  {
    var k :| 0 <= k < |batches| && batches[k] == b;
    WeightAtLeast(batches, BatchNamed(file, index), k);
    WeightAtLeast(b.tasks, TaskNamed(file, index), i);
  }

  lemma {:induction false} NobodyOwes(batches: seq<Batch>, file: nat, index: nat, r: Request)
    requires Weight(batches, BatchNamed(file, index)) == 0
    ensures AllCarry(batches, file, index, r)
  {
    forall b, i | b in batches && 0 <= i < |b.tasks|
      ensures !Names(b.tasks[i].request, file, index)
    {
      UnnamedTask(batches, file, index, b, i);
    }
  }

  lemma {:induction false} CarryConcat(a: seq<Batch>, b: seq<Batch>, file: nat, index: nat, r: Request)
    requires AllCarry(a, file, index, r) && AllCarry(b, file, index, r)
    ensures AllCarry(a + b, file, index, r)
  {
  }

  lemma {:induction false} NamedInLast(plans: seq<TransferPlan>, file: nat, index: nat)
    requires plans != []
    ensures
      var n := |plans| - 1;
      var before, last := ExpandAll(Transfers(plans[..n])), Expand(plans[n].transfer);
      && Weight(ExpandAll(Transfers(plans)), Named(file, index)) ==
           Weight(before, Named(file, index)) + Weight(last, Named(file, index))
      && ExpandAll(Transfers(plans)) == before + last
      && AllBatches(plans) == AllBatches(plans[..n]) + plans[n].batches
  {
    var n := |plans| - 1;
    LastPlan(plans);
    hide *;
    WeightConcat(ExpandAll(Transfers(plans[..n])), Expand(plans[n].transfer), Named(file, index));
  }

  lemma {:induction false} PlansOweNot(plans: seq<TransferPlan>, c: nat, file: nat, index: nat)
    requires c > 0 && forall p :: 0 <= p < |plans| ==> WellPlanned(plans[p], c)
    requires Weight(ExpandAll(Transfers(plans)), Named(file, index)) == 0
    ensures Weight(AllBatches(plans), BatchNamed(file, index)) == 0
  {
    if plans != [] {
      var n := |plans| - 1;
      NamedInLast(plans, file, index);
      hide *;
      WeightConcat(AllBatches(plans[..n]), plans[n].batches, BatchNamed(file, index));
      PlanOwesNot(plans[n], c, file, index);
      PlansOweNot(plans[..n], c, file, index);
    }
  }

  lemma {:induction false} PlanOwesRange(plan: TransferPlan, c: nat, file: nat, index: nat) returns (r: Request)
    requires c > 0 && WellPlanned(plan, c) && Weight(Expand(plan.transfer), Named(file, index)) > 0
    ensures Owes(plan.batches, file, index, r)
    ensures RangeRef(file, index, Range(r.offset, r.size, r.dst)) in Expand(plan.transfer)
  {
    hide *;
    var j := RangeNamed(plan.transfer, file, index);
    PlanOwesIndex(plan, c, j);
    RequestHeld(plan, j);
    r := RangeRequest(plan, j);
  }

  lemma {:induction false} RequestHeld(plan: TransferPlan, j: nat)
    requires j < |plan.transfer.rangeSizes|
    ensures
      var r := RangeRequest(plan, j);
      RangeRef(plan.transfer.file, plan.transfer.firstRange + j, Range(r.offset, r.size, r.dst)) in Expand(plan.transfer)
  {
    ExpandHas(plan.transfer, |plan.transfer.rangeSizes|, j);
    hide Select;
  }

  lemma {:induction false} RangeNamed(t: Transfer, file: nat, index: nat) returns (j: nat)
    requires Weight(Expand(t), Named(file, index)) > 0
    ensures j < |t.rangeSizes| && file == t.file && index == t.firstRange + j
  {
    ExpandNamed(t, |t.rangeSizes|, file, index);
    j := index - t.firstRange;
  }

  /** The one request all tasks of the j-th range carry. */
  ghost function RangeRequest(plan: TransferPlan, j: nat): Request
    requires j < |plan.transfer.rangeSizes|
  {
    RequestFor(plan.transfer, j, |Select(plan.placed, RangeOf, plan.transfer.firstRange + j)|)
  }

  lemma {:induction false} PlanOwesIndex(plan: TransferPlan, c: nat, j: nat)
    requires c > 0 && WellPlanned(plan, c) && j < |plan.transfer.rangeSizes|
    ensures Owes(plan.batches, plan.transfer.file, plan.transfer.firstRange + j, RangeRequest(plan, j))
  {
    hide *;
    PlanOwes(plan, c, j);
    BatchesCarry(plan, c, j);
    OwesRequest(plan, j);
  }

  lemma {:induction false} OwesRequest(plan: TransferPlan, j: nat)
    requires j < |plan.transfer.rangeSizes|
    requires
      var t := plan.transfer;
      var own := |Select(plan.placed, RangeOf, t.firstRange + j)|;
      && Weight(plan.batches, BatchNamed(t.file, t.firstRange + j)) == own > 0
      && AllCarry(plan.batches, t.file, t.firstRange + j, RequestFor(t, j, own))
    ensures Owes(plan.batches, plan.transfer.file, plan.transfer.firstRange + j, RangeRequest(plan, j))
  {
    hide Weight, Select, BatchNamed, AllCarry;
  }

  lemma {:induction false} ExpandHas(t: Transfer, n: nat, j: nat)
    requires j < n <= |t.rangeSizes|
    ensures RangeRef(t.file, t.firstRange + j, Range(RangeOffset(t, j), t.rangeSizes[j], RangeDst(t, j))) in ExpandTo(t, n)
  {
    if j < n - 1 { ExpandHas(t, n - 1, j); }
  }

  /** These batches owe the range one request: as many tasks as it counts, at least one, all carrying it. */
  ghost predicate Owes(batches: seq<Batch>, file: nat, index: nat, r: Request) {
    && Names(r, file, index)
    && Weight(batches, BatchNamed(file, index)) > 0 && r.tasks == Narrow(Weight(batches, BatchNamed(file, index)))
    && AllCarry(batches, file, index, r)
  }

  lemma {:induction false} OwesMore(a: seq<Batch>, b: seq<Batch>, file: nat, index: nat, r: Request)
    requires (Owes(a, file, index, r) && Weight(b, BatchNamed(file, index)) == 0)
          || (Weight(a, BatchNamed(file, index)) == 0 && Owes(b, file, index, r))
    ensures Owes(a + b, file, index, r)
  {
    WeightConcat(a, b, BatchNamed(file, index));
    if Weight(a, BatchNamed(file, index)) == 0 { NobodyOwes(a, file, index, r); } else { NobodyOwes(b, file, index, r); }
    CarryConcat(a, b, file, index, r);
  }

  lemma {:induction false} SomePlan(plans: seq<TransferPlan>, file: nat, index: nat)
    requires Weight(ExpandAll(Transfers(plans)), Named(file, index)) > 0
    ensures plans != []
  {
  }

  lemma {:induction false} PlansOwe(plans: seq<TransferPlan>, c: nat, file: nat, index: nat) returns (r: Request)
    requires c > 0 && forall p :: 0 <= p < |plans| ==> WellPlanned(plans[p], c)
    requires Weight(ExpandAll(Transfers(plans)), Named(file, index)) == 1
    ensures Owes(AllBatches(plans), file, index, r)
    ensures RangeRef(file, index, Range(r.offset, r.size, r.dst)) in ExpandAll(Transfers(plans))
  {
    hide *;
    SomePlan(plans, file, index);
    var n := |plans| - 1;
    var t := plans[n].transfer;
    NamedInLast(plans, file, index);
    if Weight(Expand(t), Named(file, index)) > 0 {
      r := PlanOwesRange(plans[n], c, file, index);
      PlansOweNot(plans[..n], c, file, index);
    } else {
      r := PlansOwe(plans[..n], c, file, index);
      PlanOwesNot(plans[n], c, file, index);
    }
    OwesMore(AllBatches(plans[..n]), plans[n].batches, file, index, r);
  }

  lemma {:induction false} FlattenNamed(files: seq<FileRanges>, n: nat, file: nat, index: nat)
    requires n <= |files|
    ensures Weight(Flatten(files, n), Named(file, index)) ==
              if file < n && index < |files[file].ranges| then 1 else 0
  {
    if n > 0 {
      var ranges := files[n - 1].ranges;
      FlattenNamed(files, n - 1, file, index);
      FlattenFileNamed(n - 1, ranges, |ranges|, file, index);
      WeightConcat(Flatten(files, n - 1), FlattenFile(n - 1, ranges, |ranges|), Named(file, index));
    }
  }

  lemma {:induction false} FlattenFileNamed(f: nat, ranges: seq<Range>, n: nat, file: nat, index: nat)
    requires n <= |ranges|
    ensures Weight(FlattenFile(f, ranges, n), Named(file, index)) == if file == f && index < n then 1 else 0
  {
    if n > 0 {
      FlattenFileNamed(f, ranges, n - 1, file, index);
      WeightAppend(FlattenFile(f, ranges, n - 1), RangeRef(f, n - 1, ranges[n - 1]), Named(file, index));
    }
  }

  lemma {:induction false} FlattenFileHas(f: nat, ranges: seq<Range>, n: nat, x: RangeRef)
    requires n <= |ranges| && x in FlattenFile(f, ranges, n)
    ensures x.file == f && x.index < n && x.range == ranges[x.index]
  {
    if x != RangeRef(f, n - 1, ranges[n - 1]) { FlattenFileHas(f, ranges, n - 1, x); }
  }

  lemma {:induction false} FlattenHas(files: seq<FileRanges>, n: nat, x: RangeRef)
    requires n <= |files| && x in Flatten(files, n)
    ensures x.file < n && x.index < |files[x.file].ranges| && x.range == files[x.file].ranges[x.index]
  {
    var ranges := files[n - 1].ranges;
    if x in FlattenFile(n - 1, ranges, |ranges|) {
      FlattenFileHas(n - 1, ranges, |ranges|, x);
    } else {
      FlattenHas(files, n - 1, x);
    }
  }

  lemma {:induction false} AllCarryShared(all: seq<Batch>, workloads: seq<seq<Batch>>, file: nat, index: nat, r: Request)
    requires AllCarry(all, file, index, r) && Shared(all, workloads)
    ensures forall w :: 0 <= w < |workloads| ==> AllCarry(workloads[w], file, index, r)
  {
    forall w | 0 <= w < |workloads|
      ensures AllCarry(workloads[w], file, index, r)
    {
      SelectMembers(all, WorkloadOf, w);
    }
  }

  /** Every range of the request, of no bytes or many, owes one response with one request behind it: the
      request repeats the range as the caller gave it, and the tasks that carry it, over all batches of
      all workloads, are exactly as many as it counts, never none. */
  lemma {:induction false} EveryRangeOwed(files: seq<FileRanges>, byFile: seq<int>, c: nat, plans: seq<TransferPlan>,
                                          gw: seq<int>, workloads: seq<seq<Batch>>, f: nat, i: nat) returns (r: Request)
    requires c > 0 && PlanOf(files, byFile, c, plans, gw, workloads)
    requires f < |files| && i < |files[f].ranges|
    ensures r == Request(files[f].ranges[i].offset, f, i, Narrow(TasksOwed(workloads, f, i)), files[f].ranges[i].size, files[f].ranges[i].dst)
    ensures TasksOwed(workloads, f, i) > 0
    ensures forall w :: 0 <= w < |workloads| ==> AllCarry(workloads[w], f, i, r)
  {
    FlattenNamed(files, |files|, f, i);
    r := PlansOwe(plans, c, f, i);
    FlattenHas(files, |files|, RangeRef(f, i, Range(r.offset, r.size, r.dst)));
    DistributedTotal(plans, workloads, BatchNamed(f, i), WorkloadNamed(f, i));
    AllCarryShared(AllBatches(plans), workloads, f, i, r);
  }

  /* ---- the task that brings a byte ---- */

  /** The k-th task of the batch is of this range, and brings this byte of the file to this address. */
  ghost predicate Brings(batch: Batch, k: nat, file: nat, index: nat, o: nat, address: nat) {
    && batch.file == file && k < |batch.tasks| && Names(batch.tasks[k].request, file, index)
    && batch.tasks[k].info.offset <= o < batch.tasks[k].info.End()
    && address == batch.tasks[k].Destination() + (o - batch.tasks[k].info.offset)
  }

  lemma {:induction false} PlanBrings(plan: TransferPlan, c: nat, j: nat, o: nat) returns (b: nat, k: nat)
    requires c > 0 && WellPlanned(plan, c) && j < |plan.transfer.rangeSizes|
    requires RangeOffset(plan.transfer, j) <= o < RangeOffset(plan.transfer, j) + plan.transfer.rangeSizes[j]
    ensures b < |plan.batches|
    ensures
      var t := plan.transfer;
      Brings(plan.batches[b], k, t.file, t.firstRange + j, o, RangeDst(t, j) + (o - RangeOffset(t, j)))
  {
    hide *;
    var placed := OwnHolding(plan, c, j, o);
    b := placed.batch;
    k := InShare(plan, c, placed);
    PlacedBrings(plan.transfer, j, placed, plan.batches[b], k, o);
  }

  /** The placed task of the range that holds the byte. */
  ghost predicate HoldsFor(t: Transfer, j: nat, placed: Placed, o: nat)
    requires j < |t.rangeSizes|
  {
    && Names(placed.task.request, t.file, t.firstRange + j) && placed.task.request.dst == RangeDst(t, j)
    && placed.task.info.offset <= o < placed.task.info.End()
    && RangeOffset(t, j) <= placed.task.info.offset
    && placed.task.info.relative == placed.task.info.offset - RangeOffset(t, j)
  }

  lemma {:induction false} PlacedBrings(t: Transfer, j: nat, placed: Placed, batch: Batch, k: nat, o: nat)
    requires j < |t.rangeSizes| && HoldsFor(t, j, placed, o) && batch.file == t.file
    requires k < |batch.tasks| && batch.tasks[k] == placed.task && RangeOffset(t, j) <= o
    ensures Brings(batch, k, t.file, t.firstRange + j, o, RangeDst(t, j) + (o - RangeOffset(t, j)))
  {
  }

  lemma {:induction false} OwnHolding(plan: TransferPlan, c: nat, j: nat, o: nat) returns (placed: Placed)
    requires c > 0 && WellPlanned(plan, c) && j < |plan.transfer.rangeSizes|
    requires RangeOffset(plan.transfer, j) <= o < RangeOffset(plan.transfer, j) + plan.transfer.rangeSizes[j]
    ensures placed in plan.placed && placed.batch < |plan.batches| && HoldsFor(plan.transfer, j, placed, o)
  {
    hide *;
    var t := plan.transfer;
    var own := Select(plan.placed, RangeOf, t.firstRange + j);
    OwnCut(plan, c, j);
    placed := CutHolding(t, j, own, c, o);
    InSelection(plan.placed, t.firstRange + j, placed);
  }

  lemma {:induction false} InSelection(placed: seq<Placed>, index: nat, x: Placed)
    requires x in Select(placed, RangeOf, index)
    ensures x in placed
  {
    SelectMembers(placed, RangeOf, index);
  }

  lemma {:induction false} OwnCut(plan: TransferPlan, c: nat, j: nat)
    requires c > 0 && WellPlanned(plan, c) && j < |plan.transfer.rangeSizes|
    ensures
      var own := Select(plan.placed, RangeOf, plan.transfer.firstRange + j);
      Cut(plan.transfer, RequestFor(plan.transfer, j, |own|), own, c)
    ensures |plan.batches| == |plan.transfer.tasks|
  {
    hide Tiles, BatchFor, Divided, Cut, Select, RangesBelow, Tasks, Sum, RequestFor;
    assert RangeCut(plan.transfer, plan.placed, j, c);
  }

  lemma {:induction false} CutHolding(t: Transfer, j: nat, own: seq<Placed>, c: nat, o: nat) returns (placed: Placed)
    requires c > 0 && j < |t.rangeSizes| && Cut(t, RequestFor(t, j, |own|), own, c)
    requires RangeOffset(t, j) <= o < RangeOffset(t, j) + t.rangeSizes[j]
    ensures placed in own && placed.batch < |t.tasks| && HoldsFor(t, j, placed, o)
  {
    var n := TaskHolding(Tasks(own), RangeOffset(t, j), RangeOffset(t, j) + t.rangeSizes[j], o);
    TasksAt(own);
    placed := own[n];
    assert CutTask(t, RequestFor(t, j, |own|), placed, c);
  }

  lemma {:induction false} InShare(plan: TransferPlan, c: nat, placed: Placed) returns (k: nat)
    requires c > 0 && WellPlanned(plan, c) && placed in plan.placed && placed.batch < |plan.batches|
    ensures k < |plan.batches[placed.batch].tasks| && plan.batches[placed.batch].tasks[k] == placed.task
    ensures plan.batches[placed.batch].file == plan.transfer.file
  {
    hide *;
    BatchIsShare(plan, c, placed.batch);
    k := InSelected(plan.placed, placed);
  }

  lemma {:induction false} BatchIsShare(plan: TransferPlan, c: nat, b: nat)
    requires c > 0 && WellPlanned(plan, c) && b < |plan.batches|
    ensures plan.batches[b].tasks == Tasks(Select(plan.placed, BatchOf, b)) && plan.batches[b].file == plan.transfer.file
  {
    hide Tiles, InStep, CutOnGrid, Grouping, CutUpTo, Divided, Tasks, Select, Sum;
    assert BatchFor(plan.transfer, plan.transfer.tasks[b], plan.batches[b], c);
  }

  lemma {:induction false} InSelected(all: seq<Placed>, placed: Placed) returns (k: nat)
    requires placed in all
    ensures k < |Tasks(Select(all, BatchOf, placed.batch))| && Tasks(Select(all, BatchOf, placed.batch))[k] == placed.task
  {
    var share := Select(all, BatchOf, placed.batch);
    SelectMembers(all, BatchOf, placed.batch);
    TasksAt(share);
    k :| 0 <= k < |share| && share[k] == placed;
  }

  lemma {:induction false} ExpandIs(t: Transfer, n: nat, x: RangeRef) returns (j: nat)
    requires n <= |t.rangeSizes| && x in ExpandTo(t, n)
    ensures j < n && x == RangeRef(t.file, t.firstRange + j, Range(RangeOffset(t, j), t.rangeSizes[j], RangeDst(t, j)))
  {
    j := n - 1;
    if x in ExpandTo(t, n - 1) { j := ExpandIs(t, n - 1, x); }
  }

  lemma {:induction false} PlansBring(plans: seq<TransferPlan>, c: nat, x: RangeRef, o: nat) returns (b: nat, k: nat)
    requires c > 0 && forall p :: 0 <= p < |plans| ==> WellPlanned(plans[p], c)
    requires x in ExpandAll(Transfers(plans)) && x.range.offset <= o < x.range.offset + x.range.size
    ensures b < |AllBatches(plans)|
    ensures Brings(AllBatches(plans)[b], k, x.file, x.index, o, x.range.dst + (o - x.range.offset))
  {
    hide *;
    HasPlan(plans, x);
    var n := |plans| - 1;
    LastPlan(plans);
    ghost var before := AllBatches(plans[..n]);
    if x in Expand(plans[n].transfer) {
      b, k := LastBrings(plans[n], c, x, o);
      b := |before| + b;
    } else {
      b, k := PlansBring(plans[..n], c, x, o);
    }
  }

  lemma {:induction false} HasPlan(plans: seq<TransferPlan>, x: RangeRef)
    requires x in ExpandAll(Transfers(plans))
    ensures plans != []
  {
  }

  lemma {:induction false} LastBrings(plan: TransferPlan, c: nat, x: RangeRef, o: nat) returns (b: nat, k: nat)
    requires c > 0 && WellPlanned(plan, c)
    requires x in Expand(plan.transfer) && x.range.offset <= o < x.range.offset + x.range.size
    ensures b < |plan.batches| && Brings(plan.batches[b], k, x.file, x.index, o, x.range.dst + (o - x.range.offset))
  {
    var j := ExpandIs(plan.transfer, |plan.transfer.rangeSizes|, x);
    b, k := PlanBrings(plan, c, j, o);
  }

  lemma {:induction false} InFlatten(files: seq<FileRanges>, n: nat, f: nat, i: nat)
    requires f < n <= |files| && i < |files[f].ranges|
    ensures RangeRef(f, i, files[f].ranges[i]) in Flatten(files, n)
  {
    if f == n - 1 { InFlattenFile(f, files[f].ranges, |files[f].ranges|, i); } else { InFlatten(files, n - 1, f, i); }
  }

  lemma {:induction false} InFlattenFile(f: nat, ranges: seq<Range>, n: nat, i: nat)
    requires i < n <= |ranges|
    ensures RangeRef(f, i, ranges[i]) in FlattenFile(f, ranges, n)
  {
    if i < n - 1 { InFlattenFile(f, ranges, n - 1, i); }
  }

  /** Every byte of every range is brought to its place by a task of that range, in some batch. */
  lemma {:induction false} EveryByteBrought(files: seq<FileRanges>, byFile: seq<int>, c: nat, plans: seq<TransferPlan>,
                                            gw: seq<int>, workloads: seq<seq<Batch>>, f: nat, i: nat, o: nat) returns (b: nat, k: nat)
    requires c > 0 && PlanOf(files, byFile, c, plans, gw, workloads)
    requires f < |files| && i < |files[f].ranges|
    requires files[f].ranges[i].offset <= o < files[f].ranges[i].offset + files[f].ranges[i].size
    ensures b < |AllBatches(plans)|
    ensures Brings(AllBatches(plans)[b], k, f, i, o, files[f].ranges[i].dst + (o - files[f].ranges[i].offset))
  {
    InFlatten(files, |files|, f, i);
    b, k := PlansBring(plans, c, RangeRef(f, i, files[f].ranges[i]), o);
  }

  /* ---- batches keep out of each other's way ---- */

  /** The k-th task writes this address. */
  predicate TaskWrites(tasks: seq<Task>, k: nat, a: nat) {
    k < |tasks| && tasks[k].Destination() <= a < tasks[k].Destination() + tasks[k].info.size
  }

  ghost predicate BatchWrites(batch: Batch, a: nat) { exists k: nat :: TaskWrites(batch.tasks, k, a) }

  /** The byte a task writes there. */
  function ByteAt(batch: Batch, k: nat, a: nat): Byte
    requires TaskWrites(batch.tasks, k, a)
  {
    Byte(batch.file, batch.tasks[k].info.offset + (a - batch.tasks[k].Destination()), a)
  }

  lemma {:induction false} TaskDelivers(t: Transfer, slice: FileReadTask, batch: Batch, c: nat, k: nat, a: nat)
    requires c > 0 && BatchFor(t, slice, batch, c) && SliceOf(t, slice) && TaskWrites(batch.tasks, k, a)
    ensures BatchDelivers(ByteAt(batch, k, a))(batch) == 1
  {
    TilesPrefix(batch.tasks, slice.offset, slice.offset + slice.size, k);
    BatchBytes(t, slice, batch, c, ByteAt(batch, k, a));
  }

  lemma {:induction false} WrittenIsDelivered(plans: seq<TransferPlan>, c: nat, b: nat, k: nat, a: nat)
    requires c > 0 && forall p :: 0 <= p < |plans| ==> WellPlanned(plans[p], c)
    requires b < |AllBatches(plans)| && TaskWrites(AllBatches(plans)[b].tasks, k, a)
    ensures BatchDelivers(ByteAt(AllBatches(plans)[b], k, a))(AllBatches(plans)[b]) == 1
  {
    hide *;
    var batch := AllBatches(plans)[b];
    var t, slice := BatchPlanned(plans, c, batch);
    TaskDelivers(t, slice, batch, c, k, a);
  }

  /** Every batch of the plans is one slice's of one transfer. */
  lemma {:induction false} BatchPlanned(plans: seq<TransferPlan>, c: nat, batch: Batch) returns (t: Transfer, slice: FileReadTask)
    requires c > 0 && forall p :: 0 <= p < |plans| ==> WellPlanned(plans[p], c)
    requires batch in AllBatches(plans)
    ensures BatchFor(t, slice, batch, c) && SliceOf(t, slice)
  {
    hide *;
    var p := PlanHolding(plans, batch);
    t, slice := PlanSlice(plans[p], c, batch);
  }

  lemma {:induction false} PlanSlice(plan: TransferPlan, c: nat, batch: Batch) returns (t: Transfer, slice: FileReadTask)
    requires c > 0 && WellPlanned(plan, c) && batch in plan.batches
    ensures BatchFor(t, slice, batch, c) && SliceOf(t, slice)
  {
    hide BatchFor, SliceOf, CutUpTo, SlicesTile, Sum, Tasks, Select;
    var n :| 0 <= n < |plan.batches| && plan.batches[n] == batch;
    t, slice := plan.transfer, plan.transfer.tasks[n];
    assert BatchFor(t, slice, plan.batches[n], c);
  }

  lemma {:induction false} DemandedByOne(files: seq<FileRanges>, b: Byte) returns (i: nat)
    requires Demanded(files, b) > 0
    ensures i < |Flatten(files, |files|)| && InDestination(Flatten(files, |files|)[i], b.address)
    ensures
      var r := Flatten(files, |files|)[i];
      b == Byte(r.file, r.range.offset + (b.address - r.range.dst), b.address)
  {
    var refs := Flatten(files, |files|);
    WeightPositive(refs, Demands(b));
    var r :| r in refs && Demands(b)(r) > 0;
    i :| 0 <= i < |refs| && refs[i] == r;
  }

  lemma {:induction false} DemandedOnce(files: seq<FileRanges>, b: Byte)
    requires Disjoint(Flatten(files, |files|))
    ensures Demanded(files, b) <= 1
  {
    if Demanded(files, b) > 0 {
      var i := DemandedByOne(files, b);
      var refs := Flatten(files, |files|);
      hide Flatten, Disjoint;
      forall j | 0 <= j < |refs| && j != i
        ensures Demands(b)(refs[j]) == 0
      {
        if Demands(b)(refs[j]) > 0 { OneDestination(refs, i, j, b.address); }
      }
      WeightOne(refs, Demands(b), i);
    }
  }

  /** For a request whose destinations do not overlap, no address is written by two batches. */
  lemma {:induction false} BatchesApart(files: seq<FileRanges>, byFile: seq<int>, c: nat, plans: seq<TransferPlan>,
                                        gw: seq<int>, workloads: seq<seq<Batch>>, b: nat, d: nat, a: nat)
    requires c > 0 && PlanOf(files, byFile, c, plans, gw, workloads) && Disjoint(Flatten(files, |files|))
    requires b < d < |AllBatches(plans)| && BatchWrites(AllBatches(plans)[b], a)
    ensures !BatchWrites(AllBatches(plans)[d], a)
  {
    if BatchWrites(AllBatches(plans)[d], a) {
      var k: nat :| TaskWrites(AllBatches(plans)[b].tasks, k, a);
      var l: nat :| TaskWrites(AllBatches(plans)[d].tasks, l, a);
      OneWriter(files, c, plans, b, k, d, l, a);
    }
  }

  lemma {:induction false} OneWriter(files: seq<FileRanges>, c: nat, plans: seq<TransferPlan>, b: nat, k: nat, d: nat, l: nat, a: nat)
    requires c > 0 && (forall p :: 0 <= p < |plans| ==> WellPlanned(plans[p], c))
    requires ExpandAll(Transfers(plans)) == Flatten(files, |files|) && Disjoint(Flatten(files, |files|))
    requires b <= d < |AllBatches(plans)|
    requires TaskWrites(AllBatches(plans)[b].tasks, k, a) && TaskWrites(AllBatches(plans)[d].tasks, l, a)
    ensures b == d
  {
    hide *;
    var all := AllBatches(plans);
    var x, y := ByteAt(all[b], k, a), ByteAt(all[d], l, a);
    WrittenIsDelivered(plans, c, b, k, a);
    WrittenIsDelivered(plans, c, d, l, a);
    WeightAtLeast(all, BatchDelivers(x), b);
    WeightAtLeast(all, BatchDelivers(y), d);
    DeliveredIsDemanded(files, plans, c, x);
    DeliveredIsDemanded(files, plans, c, y);
    ByteAddress(all[b], k, a);
    ByteAddress(all[d], l, a);
    var i := DemandedByOne(files, x);
    var j := DemandedByOne(files, y);
    OneDestination(Flatten(files, |files|), i, j, a);
    DemandedOnce(files, x);
    if b < d { WeightTwo(all, BatchDelivers(x), b, d); }
  }

  lemma {:induction false} ByteAddress(batch: Batch, k: nat, a: nat)
    requires TaskWrites(batch.tasks, k, a)
    ensures ByteAt(batch, k, a).address == a
  {
  }

  lemma {:induction false} DeliveredIsDemanded(files: seq<FileRanges>, plans: seq<TransferPlan>, c: nat, b: Byte)
    requires c > 0 && (forall p :: 0 <= p < |plans| ==> WellPlanned(plans[p], c))
    requires ExpandAll(Transfers(plans)) == Flatten(files, |files|)
    ensures Weight(AllBatches(plans), BatchDelivers(b)) == Demanded(files, b)
  {
    PlansDeliver(plans, c, b);
    hide WellPlanned, Weight;
  }

  /** Each workload serves one pool group, the group of every file it reads. */
  lemma {:induction false} OneGroupPerWorkload(files: seq<FileRanges>, byFile: seq<int>, c: nat, plans: seq<TransferPlan>,
                                               gw: seq<int>, workloads: seq<seq<Batch>>, w: nat, n: nat)
    requires c > 0 && PlanOf(files, byFile, c, plans, gw, workloads)
    requires w < |workloads| && n < |workloads[w]|
    ensures workloads[w][n].workload == w && gw[w] == GroupOf(byFile, workloads[w][n].file)
  {
    SelectMembers(AllBatches(plans), WorkloadOf, w);
    var batch := workloads[w][n];
    assert batch in workloads[w];
    var p := PlanHolding(plans, batch);
    var k :| 0 <= k < |plans[p].batches| && plans[p].batches[k] == batch;
    assert WellPlanned(plans[p], c) && OwnGroup(plans[p], byFile, gw);
  }

  lemma {:induction false} PlanHolding(plans: seq<TransferPlan>, batch: Batch) returns (p: nat)
    requires batch in AllBatches(plans)
    ensures p < |plans| && batch in plans[p].batches
  {
    p := |plans| - 1;
    if batch !in plans[p].batches { p := PlanHolding(plans[..p], batch); }
  }
}
