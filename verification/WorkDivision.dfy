/** Dividing coalesced transfers between workloads (cpp/streamer/impl/assigner, second step). */
module WorkDivision {
  import opened Machine
  import opened Sequences
  import opened ReadTypes

  /** One group's division: the first workload takes base + remainder bytes, every other one base. */
  datatype Division = Division(workloads: nat, base: nat, remainder: nat) {
    function Target(slot: nat): nat { if slot == 0 then base + remainder else base }

    /** How many bytes of the group the workloads before `slot` take. */
    function Start(slot: nat): nat { if slot == 0 then 0 else Start(slot - 1) + Target(slot - 1) }
  }

  function BytesPerWorkerFor(groupBytes: nat, maxWorkers: nat, block: nat): Division
    requires block > 0
  {
    var numBlocks := groupBytes / block;
    var atMost := if numBlocks < maxWorkers then numBlocks else maxWorkers;
    var workloads := if atMost > 1 then atMost else 1;
    var base := numBlocks / workloads * block;
    DivisionFits(groupBytes, block, workloads);
    Division(workloads, base, groupBytes - workloads * base)
  }

  lemma ScaleLess(r: nat, w: nat, block: nat)
    requires r <= w
    ensures r * block <= w * block
  {
    assert w * block == r * block + (w - r) * block;
  }

  lemma Scale(q: nat, r: nat, workloads: nat, block: nat)
    ensures (q * workloads + r) * block == workloads * (q * block) + r * block
    ensures r < workloads ==> r * block + block <= workloads * block
    ensures q >= 1 ==> q * block >= block
  {
    assert (q * workloads) * block == workloads * (q * block);
    if r < workloads { ScaleLess(r + 1, workloads, block); }
    if q >= 1 { ScaleLess(1, q, block); }
  }

  lemma WholeBlocks(g: nat, block: nat, n: nat, m: nat, q: nat, r: nat, w: nat)
    requires g == n * block + m && m < block && n == q * w + r && r < w
    ensures w * (q * block) <= g && g - w * (q * block) < w * block
    ensures n >= w ==> q * block >= block
  {
    Scale(q, r, w, block);
    if q == 0 { assert q * w == 0; }
  }

  lemma DivisionFits(groupBytes: nat, block: nat, workloads: nat)
    requires block > 0 && workloads > 0
    ensures
      var base := groupBytes / block / workloads * block;
      && workloads * base <= groupBytes
      && groupBytes - workloads * base < workloads * block
      && (groupBytes / block >= workloads ==> base >= block)
  {
    var n := groupBytes / block;
    DivMod(groupBytes, block);
    DivMod(n, workloads);
    WholeBlocks(groupBytes, block, n, groupBytes % block, n / workloads, n % workloads, workloads);
  }

  /** The targets add up to the group exactly; only a remainder smaller than one block per workload
      is uneven, and it goes to the first; no workload is left without bytes unless it is the only one. */
  lemma DivisionExact(groupBytes: nat, maxWorkers: nat, block: nat)
    requires block > 0
    ensures
      var d := BytesPerWorkerFor(groupBytes, maxWorkers, block);
      && 1 <= d.workloads && (d.workloads == 1 || d.workloads <= maxWorkers)
      && d.Start(d.workloads) == groupBytes
      && d.remainder < d.workloads * block
      && (d.workloads > 1 ==> d.base >= block)
  {
    var d := BytesPerWorkerFor(groupBytes, maxWorkers, block);
    DivisionFits(groupBytes, block, d.workloads);
    StartClosed(d, d.workloads);
  }

  lemma {:induction false} StartClosed(d: Division, slot: nat)
    ensures d.Start(slot) == if slot == 0 then 0 else d.base * slot + d.remainder
  {
    if slot > 0 {
      StartClosed(d, slot - 1);
      assert d.base * slot == d.base * (slot - 1) + d.base;
    }
  }

  function TaskBytes(tasks: seq<FileReadTask>): nat {
    if tasks == [] then 0 else TaskBytes(tasks[..|tasks| - 1]) + tasks[|tasks| - 1].size
  }

  /** Bytes handed to tasks so far, over all transfers. */
  function AssignedTotal(ts: seq<Transfer>): nat {
    if ts == [] then 0 else AssignedTotal(ts[..|ts| - 1]) + TaskBytes(ts[|ts| - 1].tasks)
  }

  lemma TaskBytesAppend(tasks: seq<FileReadTask>, task: FileReadTask)
    ensures TaskBytes(tasks + [task]) == TaskBytes(tasks) + task.size
  {
    assert (tasks + [task])[..|tasks|] == tasks;
  }

  lemma {:induction false} AssignedTotalUpdate(ts: seq<Transfer>, i: nat, t: Transfer)
    requires i < |ts|
    ensures AssignedTotal(ts[i := t]) + TaskBytes(ts[i].tasks) == AssignedTotal(ts) + TaskBytes(t.tasks)
  {
    var n := |ts| - 1;
    if i == n {
      assert ts[i := t][..n] == ts[..n];
    } else {
      assert ts[i := t][..n] == ts[..n][i := t];
      AssignedTotalUpdate(ts[..n], i, t);
    }
  }

  lemma {:induction false} SlicesBytes(tasks: seq<FileReadTask>, start: nat, end: nat)
    requires SlicesTile(tasks, start, end)
    ensures start + TaskBytes(tasks) == end
  {
    if tasks != [] { SlicesBytes(tasks[..|tasks| - 1], start, tasks[|tasks| - 1].offset); }
  }

  /** A transfer as it was before any of it was assigned. */
  function Bare(t: Transfer): Transfer { t.(tasks := []) }

  ghost predicate OnlyTasksChanged(before: seq<Transfer>, after: seq<Transfer>) {
    |before| == |after| && forall i :: 0 <= i < |after| ==> Bare(after[i]) == Bare(before[i])
  }

  /** The pool group that serves a file: -1 for the synchronous pool, else an async group. */
  function GroupOf(byFile: seq<int>, file: nat): int {
    if file < |byFile| && byFile[file] >= 0 then byFile[file] else -1
  }

  /** One group under division: its transfers by index, their sizes, and its workload numbers. */
  datatype Group = Group(id: int, byFile: seq<int>, indices: seq<nat>, sizes: seq<nat>, first: nat, division: Division) {
    /** How many bytes of the group lie before its p-th transfer. */
    ghost function Before(p: nat): nat
      requires p <= |sizes|
    {
      Sum(sizes[..p])
    }

    ghost predicate Of(ts: seq<Transfer>) {
      && |indices| == |sizes|
      && (forall p :: 0 <= p < |indices| ==> indices[p] < |ts| && ts[indices[p]].size == sizes[p])
      && (forall p :: 0 <= p < |indices| ==> GroupOf(byFile, ts[indices[p]].file) == id)
      && (forall p, q :: 0 <= p < q < |indices| ==> indices[p] != indices[q])
      && division.workloads > 0
      && division.Start(division.workloads) == Sum(sizes)
      && (division.workloads > 1 ==> division.base > 0)
    }
  }

  /** The task lies wholly inside the stretch of the group's bytes that its workload owns. */
  ghost predicate InSlot(g: Group, p: nat, t: Transfer, task: FileReadTask)
    requires p <= |g.sizes|
  {
    && g.first <= task.workload < g.first + g.division.workloads
    && t.offset <= task.offset
    && var at, slot := g.Before(p) + (task.offset - t.offset), task.workload - g.first;
       g.division.Start(slot) <= at && at + task.size <= g.division.Start(slot + 1)
  }

  /** Each piece goes to a later workload than the one before it: none is cut without need. */
  ghost predicate Rising(tasks: seq<FileReadTask>) {
    forall m, n :: 0 <= m < n < |tasks| ==> tasks[m].workload < tasks[n].workload
  }

  /** No piece of the transfer went to this workload or a later one. */
  ghost predicate Below(t: Transfer, workload: nat) {
    t.tasks == [] || t.tasks[|t.tasks| - 1].workload < workload
  }

  ghost predicate Taken(g: Group, p: nat, t: Transfer, consumed: nat)
    requires p <= |g.sizes|
  {
    && SlicesTile(t.tasks, t.offset, t.offset + consumed) && Rising(t.tasks)
    && forall n :: 0 <= n < |t.tasks| ==> SliceOf(t, t.tasks[n]) && InSlot(g, p, t, t.tasks[n])
  }

  ghost predicate Done(g: Group, p: nat, t: Transfer)
    requires p <= |g.sizes|
  {
    Taken(g, p, t, t.size) && t.tasks != [] && (t.size == 0 ==> |t.tasks| == 1)
  }

  ghost predicate Next(g: Group, p: nat, t: Transfer, consumed: nat)
    requires p <= |g.sizes|
  {
    Taken(g, p, t, consumed) && (consumed == 0 ==> t.tasks == []) && (consumed == 0 || consumed < t.size)
  }

  /** Transfers before `position` are fully divided, that one has `consumed` bytes assigned, later ones none. */
  ghost predicate GroupState(g: Group, ts: seq<Transfer>, position: nat, consumed: nat) {
    && g.Of(ts) && position <= |g.indices|
    && (forall p :: 0 <= p < position ==> Done(g, p, ts[g.indices[p]]))
    && (position < |g.indices| ==> Next(g, position, ts[g.indices[position]], consumed))
    && (position == |g.indices| ==> consumed == 0)
    && (forall p :: position < p < |g.indices| ==> ts[g.indices[p]].tasks == [])
  }

  ghost predicate GroupDone(g: Group, ts: seq<Transfer>) {
    g.Of(ts) && forall p :: 0 <= p < |g.indices| ==> Done(g, p, ts[g.indices[p]])
  }

  function Piece(t: Transfer, workload: nat, consumed: nat, n: nat): FileReadTask {
    FileReadTask(workload, t.file, t.offset + consumed, n, t.dst + consumed)
  }

  lemma {:induction false} TakeMore(g: Group, p: nat, t: Transfer, consumed: nat, slot: nat, n: nat)
    requires p <= |g.sizes| && Next(g, p, t, consumed) && slot < g.division.workloads && Below(t, g.first + slot)
    requires consumed + n <= t.size && (t.size > 0 ==> n > 0)
    requires g.division.Start(slot) <= g.Before(p) + consumed
    requires g.Before(p) + consumed + n <= g.division.Start(slot + 1)
    ensures
      var t' := Grown(g, t, slot, consumed, n);
      && Bare(t') == Bare(t)
      && if consumed + n == t.size then Done(g, p, t') else Next(g, p, t', consumed + n)
  {
    TakenMore(g, p, t, consumed, slot, n);
    hide Taken, Below, Group.Before, Division.Start;
  }

  lemma {:induction false} TakenMore(g: Group, p: nat, t: Transfer, consumed: nat, slot: nat, n: nat)
    requires p <= |g.sizes| && Taken(g, p, t, consumed) && slot < g.division.workloads && Below(t, g.first + slot)
    requires t.size > 0 ==> n > 0
    requires g.division.Start(slot) <= g.Before(p) + consumed
    requires g.Before(p) + consumed + n <= g.division.Start(slot + 1)
    ensures Taken(g, p, Grown(g, t, slot, consumed, n), consumed + n)
  {
    var t' := Grown(g, t, slot, consumed, n);
    assert t'.tasks[..|t.tasks|] == t.tasks;
    forall m | 0 <= m < |t'.tasks|
      ensures SliceOf(t', t'.tasks[m]) && InSlot(g, p, t', t'.tasks[m])
    {
      hide Division.Start, Group.Before, Rising;
      if m < |t.tasks| { assert SliceOf(t, t.tasks[m]) && InSlot(g, p, t, t.tasks[m]); }
    }
    hide InSlot, SliceOf, Division.Start, Group.Before;
  }

  lemma {:induction false} StateAdvances(g: Group, ts: seq<Transfer>, position: nat, consumed: nat, slot: nat, n: nat)
    requires GroupState(g, ts, position, consumed) && position < |g.indices| && slot < g.division.workloads
    requires
      var t := ts[g.indices[position]];
      consumed + n <= t.size && (t.size > 0 ==> n > 0) && Below(t, g.first + slot)
    requires g.division.Start(slot) <= g.Before(position) + consumed
    requires g.Before(position) + consumed + n <= g.division.Start(slot + 1)
    ensures
      var i := g.indices[position];
      var ts' := ts[i := Grown(g, ts[i], slot, consumed, n)];
      if consumed + n == ts[i].size then GroupState(g, ts', position + 1, 0)
      else GroupState(g, ts', position, consumed + n)
  {
    var t := ts[g.indices[position]];
    hide GroupState, Below, Grown, Group.Before, Division.Start;
    if consumed + n == t.size {
      StateFinishes(g, ts, position, consumed, slot, n);
    } else {
      StateContinues(g, ts, position, consumed, slot, n);
    }
  }

  lemma {:induction false} StateFinishes(g: Group, ts: seq<Transfer>, position: nat, consumed: nat, slot: nat, n: nat)
    requires GroupState(g, ts, position, consumed) && position < |g.indices| && slot < g.division.workloads
    requires
      var t := ts[g.indices[position]];
      consumed + n == t.size && (t.size > 0 ==> n > 0) && Below(t, g.first + slot)
    requires g.division.Start(slot) <= g.Before(position) + consumed
    requires g.Before(position) + consumed + n <= g.division.Start(slot + 1)
    ensures
      var i := g.indices[position];
      GroupState(g, ts[i := Grown(g, ts[i], slot, consumed, n)], position + 1, 0)
  {
    var t := ts[g.indices[position]];
    TakeMore(g, position, t, consumed, slot, n);
    OthersKept(g, ts, position, Grown(g, t, slot, consumed, n));
    if position + 1 < |g.indices| { Untaken(g, position + 1, ts[g.indices[position + 1]]); }
    hide Grown, Done, Next, Group.Of, Division.Start, Group.Before, Below;
  }

  lemma {:induction false} StateContinues(g: Group, ts: seq<Transfer>, position: nat, consumed: nat, slot: nat, n: nat)
    requires GroupState(g, ts, position, consumed) && position < |g.indices| && slot < g.division.workloads
    requires
      var t := ts[g.indices[position]];
      consumed + n < t.size && n > 0 && Below(t, g.first + slot)
    requires g.division.Start(slot) <= g.Before(position) + consumed
    requires g.Before(position) + consumed + n <= g.division.Start(slot + 1)
    ensures
      var i := g.indices[position];
      GroupState(g, ts[i := Grown(g, ts[i], slot, consumed, n)], position, consumed + n)
  {
    var t := ts[g.indices[position]];
    TakeMore(g, position, t, consumed, slot, n);
    OthersKept(g, ts, position, Grown(g, t, slot, consumed, n));
    hide Grown, Done, Next, Group.Of, Division.Start, Group.Before, Below;
  }

  lemma {:induction false} OthersKept(g: Group, ts: seq<Transfer>, position: nat, t: Transfer)
    requires g.Of(ts) && position < |g.indices|
    requires Bare(t) == Bare(ts[g.indices[position]])
    ensures g.Of(ts[g.indices[position] := t])
    ensures forall p :: 0 <= p < |g.indices| && p != position ==>
                          g.indices[p] < |ts| && ts[g.indices[position] := t][g.indices[p]] == ts[g.indices[p]]
  {
    hide Division.Start;
    forall p | 0 <= p < |g.indices| && p != position
      ensures ts[g.indices[position] := t][g.indices[p]] == ts[g.indices[p]]
    {
      if p < position { assert g.indices[p] != g.indices[position]; }
    }
  }

  lemma {:induction false} Untaken(g: Group, p: nat, t: Transfer)
    requires p <= |g.sizes| && t.tasks == []
    ensures Next(g, p, t, 0)
  {
  }

  function SizeAt(ts: seq<Transfer>, i: nat): nat { if i < |ts| then ts[i].size else 0 }

  /** The transfers at the given indices have these sizes. */
  function SizesAt(ts: seq<Transfer>, indices: seq<nat>): seq<nat> {
    if indices == [] then []
    else SizesAt(ts, indices[..|indices| - 1]) + [SizeAt(ts, indices[|indices| - 1])]
  }

  lemma {:induction false} SizesAtIndex(ts: seq<Transfer>, indices: seq<nat>)
    ensures |SizesAt(ts, indices)| == |indices|
    ensures forall p :: 0 <= p < |indices| ==> SizesAt(ts, indices)[p] == SizeAt(ts, indices[p])
  {
    if indices != [] { SizesAtIndex(ts, indices[..|indices| - 1]); }
  }

  /** The transfers of every other group are as they were. */
  ghost predicate Untouched(g: Group, before: seq<Transfer>, after: seq<Transfer>) {
    |before| == |after| && forall i :: 0 <= i < |after| && GroupOf(g.byFile, before[i].file) != g.id ==> after[i] == before[i]
  }

  ghost predicate Balanced(ts: seq<Transfer>, workerBytes: seq<nat>) {
    Sum(workerBytes) == AssignedTotal(ts)
  }

  ghost function Grown(g: Group, t: Transfer, slot: nat, consumed: nat, n: nat): Transfer {
    t.(tasks := t.tasks + [Piece(t, g.first + slot, consumed, n)])
  }

  lemma {:induction false} StaysBalanced(g: Group, ts: seq<Transfer>, wb: seq<nat>, i: nat, slot: nat, consumed: nat, n: nat)
    requires Balanced(ts, wb) && i < |ts| && g.first + slot < |wb|
    ensures Balanced(ts[i := Grown(g, ts[i], slot, consumed, n)], wb[g.first + slot := wb[g.first + slot] + n])
  {
    var t := Grown(g, ts[i], slot, consumed, n);
    assert TaskBytes(t.tasks) == TaskBytes(ts[i].tasks) + n by {
      TaskBytesAppend(ts[i].tasks, Piece(ts[i], g.first + slot, consumed, n));
    }
    AssignedTotalUpdate(ts, i, t);
    SumUpdate(wb, g.first + slot, wb[g.first + slot] + n);
  }

  lemma AllBytes(g: Group, p: nat)
    requires p <= |g.sizes|
    ensures g.Before(p) <= Sum(g.sizes)
    ensures p == |g.sizes| ==> g.Before(p) == Sum(g.sizes)
    ensures p < |g.sizes| ==> g.Before(p) + g.sizes[p] <= Sum(g.sizes)
  {
    assert g.sizes[..|g.sizes|] == g.sizes;
    SumPrefixMonotone(g.sizes, p, |g.sizes|);
    if p < |g.sizes| {
      SumPrefixStep(g.sizes, p);
      SumPrefixMonotone(g.sizes, p + 1, |g.sizes|);
    }
  }

  /** The transfer has no piece of this workload, or has its last and the workload is full. */
  ghost predicate Waiting(t: Transfer, workload: nat, full: bool) {
    Below(t, workload) || (full && Below(t, workload + 1))
  }

  /** How far the group has come: `given` of the workload's target, up to `consumed` of this transfer. */
  ghost predicate Progress(g: Group, ts: seq<Transfer>, slot: nat, given: nat, position: nat, consumed: nat) {
    && GroupState(g, ts, position, consumed)
    && slot < g.division.workloads && given <= g.division.Target(slot)
    && position <= |g.sizes| == |g.indices|
    && (position < |g.indices| ==>
          && g.indices[position] < |ts| && (consumed == 0 || consumed < ts[g.indices[position]].size)
          && Waiting(ts[g.indices[position]], g.first + slot, given == g.division.Target(slot)))
    && g.Before(position) + consumed == g.division.Start(slot) + given
  }

  /** Only the group's transfers and the workload's byte count have changed, and they agree. */
  ghost predicate Changed(g: Group, ts0: seq<Transfer>, wb0: seq<nat>, slot: nat, given: nat, ts: seq<Transfer>, wb: seq<nat>) {
    && Balanced(ts, wb) && Untouched(g, ts0, ts) && OnlyTasksChanged(ts0, ts)
    && g.first + slot < |wb0| && wb == wb0[g.first + slot := given]
  }

  /** Where the division of a group stands while one workload is being served: since the workload's
      turn began (ts0, wb0), `given` of its target has been handed out and nothing else has changed. */
  ghost predicate Serving(g: Group, ts0: seq<Transfer>, wb0: seq<nat>, slot: nat, given: nat,
                          ts: seq<Transfer>, wb: seq<nat>, position: nat, consumed: nat)
  {
    Progress(g, ts, slot, given, position, consumed) && Changed(g, ts0, wb0, slot, given, ts, wb)
  }

  /** What one pass of the inner loop may hand out. */
  ghost predicate Allowed(g: Group, t: Transfer, slot: nat, given: nat, consumed: nat, n: nat) {
    && consumed + n <= t.size && given + n <= g.division.Target(slot) && (t.size > 0 ==> n > 0)
    && (consumed + n < t.size ==> given + n == g.division.Target(slot))
  }

  lemma {:induction false} ServeMore(g: Group, ts0: seq<Transfer>, wb0: seq<nat>, slot: nat, given: nat,
                                     ts: seq<Transfer>, wb: seq<nat>, position: nat, consumed: nat, n: nat)
    requires Serving(g, ts0, wb0, slot, given, ts, wb, position, consumed) && position < |g.indices|
    requires Allowed(g, ts[g.indices[position]], slot, given, consumed, n)
    ensures
      var i := g.indices[position];
      var ts', wb' := ts[i := Grown(g, ts[i], slot, consumed, n)], wb[g.first + slot := wb[g.first + slot] + n];
      if consumed + n == ts[i].size then Serving(g, ts0, wb0, slot, given + n, ts', wb', position + 1, 0)
      else Serving(g, ts0, wb0, slot, given + n, ts', wb', position, consumed + n)
  {
    ServeChanges(g, ts0, wb0, slot, given, ts, wb, position, consumed, n);
    if consumed + n == ts[g.indices[position]].size {
      ServeFinishes(g, ts, slot, given, position, consumed, n);
    } else {
      ServeContinues(g, ts, slot, given, position, consumed, n);
    }
    hide *;
  }

  lemma {:induction false} ServeChanges(g: Group, ts0: seq<Transfer>, wb0: seq<nat>, slot: nat, given: nat,
                                        ts: seq<Transfer>, wb: seq<nat>, position: nat, consumed: nat, n: nat)
    requires Progress(g, ts, slot, given, position, consumed) && Changed(g, ts0, wb0, slot, given, ts, wb)
    requires position < |g.indices|
    ensures
      var i := g.indices[position];
      && g.first + slot < |wb|
      && Changed(g, ts0, wb0, slot, given + n, ts[i := Grown(g, ts[i], slot, consumed, n)],
                 wb[g.first + slot := wb[g.first + slot] + n])
  {
    var i := g.indices[position];
    StaysBalanced(g, ts, wb, i, slot, consumed, n);
    InGroup(g, ts, position, consumed);
    GrowsOne(g, ts0, ts, i, slot, consumed, n);
    Rewritten(wb0, g.first + slot, given, n);
    hide GroupState, Balanced, Untouched, OnlyTasksChanged, Grown;
  }

  lemma {:induction false} Rewritten(s: seq<nat>, k: nat, x: nat, n: nat)
    requires k < |s|
    ensures
      var t := s[k := x];
      t[k := t[k] + n] == s[k := x + n]
  {
  }

  /** The transfer is used up: the next one has no piece yet. */
  lemma {:induction false} ServeFinishes(g: Group, ts: seq<Transfer>, slot: nat, given: nat, position: nat, consumed: nat, n: nat)
    requires Progress(g, ts, slot, given, position, consumed) && position < |g.indices|
    requires Allowed(g, ts[g.indices[position]], slot, given, consumed, n) && consumed + n == ts[g.indices[position]].size
    ensures
      var i := g.indices[position];
      Progress(g, ts[i := Grown(g, ts[i], slot, consumed, n)], slot, given + n, position + 1, 0)
  {
    InGroup(g, ts, position, consumed);
    BeforeNext(g, position);
    StartNext(g.division, slot);
    StillBelow(g, ts, position, consumed, slot, given, n);
    hide GroupState, Below, Grown, Division.Start, Division.Target, Group.Before;
    StateAdvances(g, ts, position, consumed, slot, n);
    NowWaiting(g, ts, position, consumed, slot, n);
  }

  lemma {:induction false} StartNext(d: Division, slot: nat)
    ensures d.Start(slot + 1) == d.Start(slot) + d.Target(slot)
  {
  }

  lemma {:induction false} BeforeNext(g: Group, p: nat)
    requires p < |g.sizes|
    ensures g.Before(p + 1) == g.Before(p) + g.sizes[p]
  {
    SumPrefixStep(g.sizes, p);
  }

  /** The workload is full: the transfer waits for the next one. */
  lemma {:induction false} ServeContinues(g: Group, ts: seq<Transfer>, slot: nat, given: nat, position: nat, consumed: nat, n: nat)
    requires Progress(g, ts, slot, given, position, consumed) && position < |g.indices|
    requires Allowed(g, ts[g.indices[position]], slot, given, consumed, n) && consumed + n < ts[g.indices[position]].size
    ensures
      var i := g.indices[position];
      Progress(g, ts[i := Grown(g, ts[i], slot, consumed, n)], slot, given + n, position, consumed + n)
  {
    InGroup(g, ts, position, consumed);
    StartNext(g.division, slot);
    StillBelow(g, ts, position, consumed, slot, given, n);
    hide GroupState, Below, Division.Start, Division.Target, Group.Before;
    StateAdvances(g, ts, position, consumed, slot, n);
    NowWaiting(g, ts, position, consumed, slot, n);
  }

  /** A workload that is full takes nothing more of a transfer with bytes. */
  lemma {:induction false} StillBelow(g: Group, ts: seq<Transfer>, position: nat, consumed: nat, slot: nat, given: nat, n: nat)
    requires GroupState(g, ts, position, consumed) && position < |g.indices|
    requires Waiting(ts[g.indices[position]], g.first + slot, given == g.division.Target(slot))
    requires given + n <= g.division.Target(slot) && (ts[g.indices[position]].size > 0 ==> n > 0)
    ensures Below(ts[g.indices[position]], g.first + slot)
  {
  }

  lemma {:induction false} NowWaiting(g: Group, ts: seq<Transfer>, position: nat, consumed: nat, slot: nat, n: nat)
    requires position < |g.indices| && g.indices[position] < |ts| && consumed + n <= ts[g.indices[position]].size
    requires
      var i := g.indices[position];
      var ts' := ts[i := Grown(g, ts[i], slot, consumed, n)];
      GroupState(g, ts', if consumed + n == ts[i].size then position + 1 else position,
                 if consumed + n == ts[i].size then 0 else consumed + n)
    ensures
      var i := g.indices[position];
      var ts' := ts[i := Grown(g, ts[i], slot, consumed, n)];
      if consumed + n == ts[i].size
      then position + 1 < |g.indices| ==> Below(ts'[g.indices[position + 1]], g.first + slot)
      else Below(ts'[i], g.first + slot + 1)
  {
  }

  lemma {:induction false} InGroup(g: Group, ts: seq<Transfer>, position: nat, consumed: nat)
    requires GroupState(g, ts, position, consumed) && position < |g.indices|
    ensures
      var i := g.indices[position];
      i < |ts| && GroupOf(g.byFile, ts[i].file) == g.id && ts[i].size == g.sizes[position]
    ensures |g.indices| == |g.sizes|
    ensures position + 1 < |g.indices| ==> g.indices[position + 1] < |ts|
  {
  }

  lemma {:induction false} GrowsOne(g: Group, ts0: seq<Transfer>, ts: seq<Transfer>, i: nat, slot: nat, consumed: nat, n: nat)
    requires Untouched(g, ts0, ts) && OnlyTasksChanged(ts0, ts) && i < |ts| && GroupOf(g.byFile, ts[i].file) == g.id
    ensures
      var ts' := ts[i := Grown(g, ts[i], slot, consumed, n)];
      Untouched(g, ts0, ts') && OnlyTasksChanged(ts0, ts')
  {
    assert Bare(ts[i]) == Bare(ts0[i]);
  }

  /** After `slot` workloads have been served: each has its target, nothing else has changed. */
  ghost predicate Served(g: Group, ts0: seq<Transfer>, wb0: seq<nat>, gw0: seq<int>, slot: nat,
                         ts: seq<Transfer>, wb: seq<nat>, gw: seq<int>, position: nat, consumed: nat)
  {
    && GroupState(g, ts, position, consumed) && Balanced(ts, wb)
    && slot <= g.division.workloads && position <= |g.sizes| == |g.indices|
    && |wb| == |wb0| == |gw|
    && (position < |g.indices| ==> g.indices[position] < |ts| && Below(ts[g.indices[position]], g.first + slot))
    && g.Before(position) + consumed == g.division.Start(slot)
    && (slot == 0 ==> position == 0)
    && (slot > 0 && position < |g.indices| ==> ts[g.indices[position]].size > 0)
    && Settled(g, wb0, gw0, slot, wb, gw)
    && Untouched(g, ts0, ts) && OnlyTasksChanged(ts0, ts)
  }

  ghost predicate Settled(g: Group, wb0: seq<nat>, gw0: seq<int>, slot: nat, wb: seq<nat>, gw: seq<int>) {
    && |wb| == |wb0| == |gw| == |gw0|
    && (forall w :: 0 <= w < |wb| ==>
          if g.first <= w < g.first + slot then wb[w] == g.division.Target(w - g.first) && gw[w] == g.id
          else wb[w] == wb0[w] && gw[w] == gw0[w])
  }

  ghost predicate ZeroFrom(wb: seq<nat>, first: nat) {
    forall w :: first <= w < |wb| ==> wb[w] == 0
  }

  ghost predicate AllBelow(gw: seq<int>, used: nat, bound: int) {
    used <= |gw| && forall w :: 0 <= w < used ==> gw[w] < bound
  }

  ghost predicate Roomy(g: Group, wb0: seq<nat>) {
    && g.first + g.division.workloads <= |wb0|
    && ZeroFrom(wb0, g.first)
  }

  lemma {:induction false} ServeBegins(g: Group, ts0: seq<Transfer>, wb0: seq<nat>, gw0: seq<int>, slot: nat,
                    ts: seq<Transfer>, wb: seq<nat>, gw: seq<int>, position: nat, consumed: nat)
    requires Served(g, ts0, wb0, gw0, slot, ts, wb, gw, position, consumed)
    requires Roomy(g, wb0) && slot < g.division.workloads
    ensures Serving(g, ts, wb, slot, 0, ts, wb, position, consumed)
    ensures g.division.Start(slot + 1) <= Sum(g.sizes)
  {
    Reached(g, ts, position, consumed);
    SlotFits(g, slot);
    SlotEmpty(g, wb0, gw0, slot, wb, gw);
    NothingTouched(g, ts);
    hide GroupState, Balanced, Settled, Roomy, Untouched, OnlyTasksChanged;
  }

  /** Only a transfer with bytes still to give is ever left half assigned. */
  lemma {:induction false} Reached(g: Group, ts: seq<Transfer>, position: nat, consumed: nat)
    requires GroupState(g, ts, position, consumed)
    ensures position < |g.indices| ==>
              g.indices[position] < |ts| && (consumed == 0 || consumed < ts[g.indices[position]].size)
    ensures g.division.Start(g.division.workloads) == Sum(g.sizes)
  {
  }

  lemma {:induction false} SlotFits(g: Group, slot: nat)
    requires slot < g.division.workloads && g.division.Start(g.division.workloads) == Sum(g.sizes)
    ensures g.division.Start(slot + 1) <= Sum(g.sizes)
  {
    StartBelow(g.division, slot + 1, g.division.workloads);
  }

  lemma {:induction false} SlotEmpty(g: Group, wb0: seq<nat>, gw0: seq<int>, slot: nat, wb: seq<nat>, gw: seq<int>)
    requires Settled(g, wb0, gw0, slot, wb, gw) && Roomy(g, wb0) && slot < g.division.workloads
    ensures g.first + slot < |wb| && wb == wb[g.first + slot := 0]
  {
  }

  lemma {:induction false} NothingTouched(g: Group, ts: seq<Transfer>)
    ensures Untouched(g, ts, ts) && OnlyTasksChanged(ts, ts)
  {
  }

  lemma {:induction false} SettleNext(g: Group, wb0: seq<nat>, gw0: seq<int>, slot: nat, wb: seq<nat>, gw: seq<int>)
    requires Settled(g, wb0, gw0, slot, wb, gw) && g.first + slot < |wb|
    ensures Settled(g, wb0, gw0, slot + 1, wb[g.first + slot := g.division.Target(slot)], gw[g.first + slot := g.id])
  {
  }

  lemma {:induction false} UntouchedAgain(g: Group, a: seq<Transfer>, b: seq<Transfer>, c: seq<Transfer>)
    requires Untouched(g, a, b) && OnlyTasksChanged(a, b)
    requires Untouched(g, b, c) && OnlyTasksChanged(b, c)
    ensures Untouched(g, a, c) && OnlyTasksChanged(a, c)
  {
  }

  lemma {:induction false} ServeNext(g: Group, ts0: seq<Transfer>, wb0: seq<nat>, gw0: seq<int>, slot: nat,
                  ts: seq<Transfer>, wb: seq<nat>, gw: seq<int>, position: nat, consumed: nat,
                  ts': seq<Transfer>, wb': seq<nat>, position': nat, consumed': nat)
    requires Served(g, ts0, wb0, gw0, slot, ts, wb, gw, position, consumed)
    requires Serving(g, ts, wb, slot, g.division.Target(slot), ts', wb', position', consumed')
    requires position' < |g.indices| ==> ts'[g.indices[position']].size > 0
    ensures Served(g, ts0, wb0, gw0, slot + 1, ts', wb', gw[g.first + slot := g.id], position', consumed')
  {
    SettleNext(g, wb0, gw0, slot, wb, gw);
    UntouchedAgain(g, ts0, ts, ts');
    StartNext(g.division, slot);
    hide GroupState, Balanced, Untouched, OnlyTasksChanged, Settled, Division.Start, Division.Target, Group.Before;
  }

  lemma {:induction false} GroupBegins(g: Group, ts: seq<Transfer>, wb: seq<nat>, gw: seq<int>)
    requires g.Of(ts) && g.indices != [] && Balanced(ts, wb) && |wb| == |gw|
    requires forall p :: 0 <= p < |g.indices| ==> ts[g.indices[p]].tasks == []
    ensures Served(g, ts, wb, gw, 0, ts, wb, gw, 0, 0)
  {
    assert Next(g, 0, ts[g.indices[0]], 0);
  }

  /** Workloads and transfers run out together: every computed workload is used, and every byte placed. */
  lemma {:induction false} AllServed(g: Group, ts0: seq<Transfer>, wb0: seq<nat>, gw0: seq<int>, slot: nat,
                  ts: seq<Transfer>, wb: seq<nat>, gw: seq<int>, position: nat, consumed: nat)
    requires Served(g, ts0, wb0, gw0, slot, ts, wb, gw, position, consumed)
    requires g.indices != [] && (slot == g.division.workloads || position == |g.indices|)
    ensures slot == g.division.workloads && GroupDone(g, ts)
  {
    AllBytes(g, position);
    if slot < g.division.workloads { StartBelow(g.division, slot, g.division.workloads); }
  }

  lemma {:induction false} StartBelow(d: Division, slot: nat, end: nat)
    requires slot <= end
    ensures d.Start(slot) <= d.Start(end)
    ensures 0 < slot < end && d.base > 0 ==> d.Start(slot) < d.Start(end)
  {
    if slot < end { StartBelow(d, slot, end - 1); }
  }

  class Assigner {
    const block: nat
    const numWorkers: nat
    const groupByFile: seq<int>
    var transfers: seq<Transfer>
    var workerBytes: seq<nat>
    var groupByWorkload: seq<int>
    var numWorkloads: nat
    var numAsyncGroups: nat

    constructor (ts: seq<Transfer>, byFile: seq<int>, workers: nat, blockBytes: nat)
      ensures transfers == ts && groupByFile == byFile && numWorkers == workers && block == blockBytes
    {
      transfers, groupByFile, numWorkers, block := ts, byFile, workers, blockBytes;
      workerBytes, groupByWorkload, numWorkloads, numAsyncGroups := [], [], 0, 0;
    }

    /** One pass of the inner loop: as much of the current transfer as the workload may still take. */
    method AssignPiece(indices: seq<nat>, position: nat, consumed: nat, workload: nat, target: nat, given: nat,
                       ghost g: Group, ghost slot: nat, ghost ts0: seq<Transfer>, ghost wb0: seq<nat>)
      returns (given': nat, position': nat, consumed': nat)
      requires g.indices == indices && workload == g.first + slot && target == g.division.Target(slot)
      requires Serving(g, ts0, wb0, slot, given, transfers, workerBytes, position, consumed) && position < |indices|
      requires transfers[indices[position]].size > 0 ==> given < target
      modifies this`transfers, this`workerBytes
      ensures Serving(g, ts0, wb0, slot, given', transfers, workerBytes, position', consumed')
      ensures position' > position || (position' == position && given' == target > given)
    {
      hide GroupState, Untouched, OnlyTasksChanged, Balanced;
      var i := indices[position];
      var transfer := transfers[i];
      var remaining := transfer.size - consumed;
      var toAssign := if remaining < target - given then remaining else target - given;
      ServeMore(g, ts0, wb0, slot, given, transfers, workerBytes, position, consumed, toAssign);
      var task := Piece(transfer, workload, consumed, toAssign);
      transfers := transfers[i := transfer.(tasks := transfer.tasks + [task])];
      workerBytes := workerBytes[workload := workerBytes[workload] + toAssign];
      given', position', consumed' := given + toAssign, position, consumed + toAssign;
      if consumed' == transfer.size {
        position', consumed' := position' + 1, 0;
      }
    }

    /** The inner loop of assign_group: hand the workload bytes until it has its target or the group
        is used up. A transfer of no bytes still gets a task. */
    method AssignSlot(indices: seq<nat>, position: nat, consumed: nat, workload: nat, target: nat,
                      ghost g: Group, ghost slot: nat)
      returns (position': nat, consumed': nat)
      requires g.indices == indices && workload == g.first + slot && target == g.division.Target(slot)
      requires Serving(g, transfers, workerBytes, slot, 0, transfers, workerBytes, position, consumed)
      requires g.division.Start(slot + 1) <= Sum(g.sizes)
      modifies this`transfers, this`workerBytes
      ensures Serving(g, old(transfers), old(workerBytes), slot, target, transfers, workerBytes, position', consumed')
      ensures position' < |indices| ==> transfers[indices[position']].size > 0
    {
      position', consumed' := position, consumed;
      var given: nat := 0;
      while position' < |indices| && !(transfers[indices[position']].size > 0 && given >= target)
        invariant Serving(g, old(transfers), old(workerBytes), slot, given, transfers, workerBytes, position', consumed')
        decreases |indices| - position', target - given
      {
        given, position', consumed' := AssignPiece(indices, position', consumed', workload, target, given,
                                                   g, slot, old(transfers), old(workerBytes));
      }
      AllBytes(g, position');
      assert given == target;
    }

    /** One pass of the outer loop of assign_group: one workload is given its target. */
    method AssignWorkload(indices: seq<nat>, position: nat, consumed: nat, workload: nat, target: nat, group: int,
                          ghost g: Group, ghost slot: nat, ghost ts0: seq<Transfer>, ghost wb0: seq<nat>, ghost gw0: seq<int>)
      returns (position': nat, consumed': nat)
      requires g.indices == indices && slot < g.division.workloads && position < |indices|
      requires workload == g.first + slot && target == g.division.Target(slot) && group == g.id
      requires Served(g, ts0, wb0, gw0, slot, transfers, workerBytes, groupByWorkload, position, consumed)
      requires Roomy(g, wb0)
      modifies this`transfers, this`workerBytes, this`groupByWorkload
      ensures Served(g, ts0, wb0, gw0, slot + 1, transfers, workerBytes, groupByWorkload, position', consumed')
    {
      hide GroupState, Untouched, OnlyTasksChanged, Settled, Balanced;
      ServeBegins(g, ts0, wb0, gw0, slot, transfers, workerBytes, groupByWorkload, position, consumed);
      position', consumed' := AssignSlot(indices, position, consumed, workload, target, g, slot);
      ServeNext(g, ts0, wb0, gw0, slot, old(transfers), old(workerBytes), groupByWorkload, position, consumed,
                transfers, workerBytes, position', consumed');
      groupByWorkload := groupByWorkload[workload := group];
    }

    /** The outer loop of assign_group: one workload after another. */
    method AssignSlots(indices: seq<nat>, first: nat, division: Division, group: int, ghost g: Group)
      returns (used: nat, ghost position': nat, ghost consumed': nat)
      requires g.indices == indices != [] && g.first == first && g.division == division && group == g.id
      requires Served(g, transfers, workerBytes, groupByWorkload, 0, transfers, workerBytes, groupByWorkload, 0, 0)
      requires Roomy(g, workerBytes)
      modifies this`transfers, this`workerBytes, this`groupByWorkload
      ensures Served(g, old(transfers), old(workerBytes), old(groupByWorkload), used,
                     transfers, workerBytes, groupByWorkload, position', consumed')
      ensures used == division.workloads || position' == |indices|
    {
      hide GroupState, Untouched, OnlyTasksChanged, Settled, Balanced;
      used := 0;
      var position: nat, consumed: nat, slot := 0, 0, 0;
      while slot < division.workloads && position < |indices|
        invariant Served(g, old(transfers), old(workerBytes), old(groupByWorkload), slot,
                         transfers, workerBytes, groupByWorkload, position, consumed)
        invariant used == slot
      {
        position, consumed := AssignWorkload(indices, position, consumed, first + slot, division.Target(slot), group,
                                             g, slot, old(transfers), old(workerBytes), old(groupByWorkload));
        slot := slot + 1;
        used := slot;
      }
      position', consumed' := position, consumed;
    }

    /** assign_group: divide one group between its workloads. */
    method AssignGroup(indices: seq<nat>, workers: nat, first: nat, groupBytes: nat, group: int)
      returns (used: nat, ghost g: Group)
      requires block > 0
      requires Divisible(transfers, workerBytes, groupByWorkload, groupByFile, indices, workers, first, groupBytes, group)
      modifies this`transfers, this`workerBytes, this`groupByWorkload
      ensures IsGroup(g, groupByFile, indices, workers, first, groupBytes, group, block)
      ensures GroupDivided(g, old(transfers), old(workerBytes), old(groupByWorkload), used,
                           transfers, workerBytes, groupByWorkload)
      ensures indices == [] ==> used == 0
      ensures indices != [] ==> used == g.division.workloads
    {
      var division := BytesPerWorkerFor(groupBytes, workers, block);
      g := Group(group, groupByFile, indices, SizesAt(transfers, indices), first, division);
      used := 0;
      if indices == [] { return; }
      GroupReady(g, transfers, workerBytes, groupByWorkload, groupBytes, workers, block);
      ghost var position, consumed;
      used, position, consumed := AssignSlots(indices, first, division, group, g);
      AllServed(g, old(transfers), old(workerBytes), old(groupByWorkload), used,
                transfers, workerBytes, groupByWorkload, position, consumed);
    }
  
    /** The grouping pass of assign: each transfer's index and bytes go to its group. */
    method CollectGroups() returns (syncIndices: seq<nat>, syncBytes: nat,
                                    asyncIndices: map<int, seq<nat>>, asyncBytes: map<int, nat>)
      ensures Collected(transfers, groupByFile, |transfers|, syncIndices, syncBytes, asyncIndices, asyncBytes)
    {
      syncIndices, syncBytes, asyncIndices, asyncBytes := [], 0, map[], map[];
      for i := 0 to |transfers|
        invariant Collected(transfers, groupByFile, i, syncIndices, syncBytes, asyncIndices, asyncBytes)
      {
        var group := GroupOf(groupByFile, transfers[i].file);
        if group < 0 {
          syncIndices := syncIndices + [i];
          syncBytes := syncBytes + transfers[i].size;
        } else {
          asyncIndices := asyncIndices[group := (if group in asyncIndices then asyncIndices[group] else []) + [i]];
          asyncBytes := asyncBytes[group := (if group in asyncBytes then asyncBytes[group] else 0) + transfers[i].size];
        }
      }
    }

    /** One pass of assign's last loop: an async group gets one workload, the next free one. */
    method AssignAsync(group: int, indices: seq<nat>, bytes: nat, used: nat,
                       ghost ts0: seq<Transfer>, ghost sync: Group, ghost done: set<int>)
      returns (used': nat)
      requires block > 0 && group >= 0 && group !in done && used + 1 <= |workerBytes|
      requires InProgress(ts0, groupByFile, block, numWorkers, sync, done, transfers, workerBytes, groupByWorkload, used)
      requires indices == IndicesOf(ts0, groupByFile, |ts0|, group) != [] && bytes == BytesOf(ts0, groupByFile, |ts0|, group)
      requires AllBelow(groupByWorkload, used, group)
      requires Divisible(transfers, workerBytes, groupByWorkload, groupByFile, indices, 1, used, bytes, group)
      modifies this`transfers, this`workerBytes, this`groupByWorkload
      ensures used' == used + 1 && old(|workerBytes|) == |workerBytes| == |groupByWorkload|
      ensures InProgress(ts0, groupByFile, block, numWorkers, sync, done + {group},
                         transfers, workerBytes, groupByWorkload, used')
      ensures AllBelow(groupByWorkload, used', group + 1)
    {
      hide *;
      var more: nat;
      ghost var g;
      more, g := AssignGroup(indices, 1, used, bytes, group);
      AsyncAssigned(ts0, groupByFile, block, numWorkers, sync, done,
                    old(transfers), old(workerBytes), old(groupByWorkload), used,
                    group, g, transfers, workerBytes, groupByWorkload, more);
      used' := used + more;
    }

    /** assign's first call of assign_group: the synchronous files. */
    method AssignSync(indices: seq<nat>, bytes: nat) returns (used: nat, ghost sync: Group)
      requires block > 0 && PartlyAssigned(transfers, groupByFile, {}, transfers, workerBytes, groupByWorkload, 0)
      requires indices == IndicesOf(transfers, groupByFile, |transfers|, -1)
      requires bytes == BytesOf(transfers, groupByFile, |transfers|, -1)
      requires numWorkers < |workerBytes|
      modifies this`transfers, this`workerBytes, this`groupByWorkload
      ensures used <= (if numWorkers > 1 then numWorkers else 1) && |workerBytes| == old(|workerBytes|)
      ensures InProgress(old(transfers), groupByFile, block, numWorkers, sync, {-1},
                         transfers, workerBytes, groupByWorkload, used)
      ensures used <= |workerBytes| == |groupByWorkload| && forall w :: 0 <= w < used ==> groupByWorkload[w] == -1
    {
      IndicesPicked(transfers, transfers, groupByFile, -1, {}, workerBytes, groupByWorkload, 0);
      DivisionExact(bytes, numWorkers, block);
      used, sync := AssignGroup(indices, numWorkers, 0, bytes, -1);
      SyncAssigned(old(transfers), groupByFile, block, numWorkers, sync, old(workerBytes), old(groupByWorkload),
                   transfers, workerBytes, groupByWorkload, used);
    }

    method DivideGroups(syncIndices: seq<nat>, syncBytes: nat, asyncIndices: map<int, seq<nat>>, asyncBytes: map<int, nat>)
      returns (used: nat, ghost sync: Group)
      requires block > 0 && PartlyAssigned(transfers, groupByFile, {}, transfers, workerBytes, groupByWorkload, 0)
      requires syncIndices == IndicesOf(transfers, groupByFile, |transfers|, -1)
      requires syncBytes == BytesOf(transfers, groupByFile, |transfers|, -1)
      requires Gathered(transfers, groupByFile, |transfers|, asyncIndices, asyncBytes)
      requires numWorkers + |asyncIndices.Keys| < |workerBytes|
      modifies this`transfers, this`workerBytes, this`groupByWorkload
      ensures AsyncLoop(old(transfers), groupByFile, block, numWorkers, sync, asyncIndices.Keys, {},
                        transfers, workerBytes, groupByWorkload, used)
    {
      assert forall id :: id in asyncIndices.Keys ==> id >= 0;
      hide PartlyAssigned, InProgress, Gathered, IndicesOf, BytesOf;
      used, sync := AssignSync(syncIndices, syncBytes);
      BeginAsync(old(transfers), groupByFile, block, numWorkers, sync, asyncIndices.Keys,
                 transfers, workerBytes, groupByWorkload, used);
      hide AsyncLoop;
      used := AssignAsyncGroups(asyncIndices, asyncBytes, used, old(transfers), sync);
    }

    /** Step 2 of the assigner: the synchronous group first, then one workload for every async group in
        ascending order, numbered on. */
    method Assign(totalBytes: nat) returns (ghost sync: Group)
      requires block > 0 && transfers != [] && totalBytes == SizeTotal(transfers)
      requires forall i :: 0 <= i < |transfers| ==> transfers[i].tasks == []
      modifies this`transfers, this`workerBytes, this`groupByWorkload, this`numWorkloads, this`numAsyncGroups
      ensures OnlyTasksChanged(old(transfers), transfers)
      ensures Assignment(old(transfers), groupByFile, block, numWorkers, sync, transfers, workerBytes, groupByWorkload)
      ensures |workerBytes| == |groupByWorkload| == numWorkloads && Sum(workerBytes) == totalBytes
    {
      ghost var keys, used;
      sync, keys, used := DivideAll();
      hide *;
      AllAssigned(old(transfers), groupByFile, block, numWorkers, sync, keys, transfers, workerBytes, groupByWorkload, used);
      workerBytes := workerBytes[..numWorkloads];
      groupByWorkload := groupByWorkload[..numWorkloads];
    }

    /** Everything assign does before it drops the workloads it did not need. */
    method DivideAll() returns (ghost sync: Group, ghost keys: set<int>, ghost used: nat)
      requires block > 0 && (forall i :: 0 <= i < |transfers| ==> transfers[i].tasks == [])
      modifies this`transfers, this`workerBytes, this`groupByWorkload, this`numWorkloads, this`numAsyncGroups
      ensures NoneMissing(old(transfers), groupByFile, |old(transfers)|, keys)
      ensures AsyncLoop(old(transfers), groupByFile, block, numWorkers, sync, keys, {},
                        transfers, workerBytes, groupByWorkload, used)
      ensures numWorkloads == if used > 1 then used else 1
    {
      var syncIndices, syncBytes, asyncIndices, asyncBytes := CollectGroups();
      numAsyncGroups := |asyncIndices|;
      var ceiling := numWorkers + numAsyncGroups + 1;
      workerBytes := seq(ceiling, _ => 0);
      groupByWorkload := seq(ceiling, _ => -1);
      NothingAssigned(transfers, groupByFile, workerBytes, groupByWorkload);
      hide *;
      keys := asyncIndices.Keys;
      var workloads: nat;
      workloads, sync := DivideGroups(syncIndices, syncBytes, asyncIndices, asyncBytes);
      used := workloads;
      numWorkloads := if workloads > 1 then workloads else 1;
    }

    /** assign's last loop, in ascending group order. */
    method AssignAsyncGroups(asyncIndices: map<int, seq<nat>>, asyncBytes: map<int, nat>, start: nat,
                             ghost ts0: seq<Transfer>, ghost sync: Group) returns (used: nat)
      requires block > 0 && Gathered(ts0, groupByFile, |ts0|, asyncIndices, asyncBytes)
      requires AsyncLoop(ts0, groupByFile, block, numWorkers, sync, asyncIndices.Keys, asyncIndices.Keys,
                         transfers, workerBytes, groupByWorkload, start)
      modifies this`transfers, this`workerBytes, this`groupByWorkload
      ensures AsyncLoop(ts0, groupByFile, block, numWorkers, sync, asyncIndices.Keys, {},
                        transfers, workerBytes, groupByWorkload, used)
    {
      used := start;
      var left := asyncIndices.Keys;
      while left != {}
        invariant AsyncLoop(ts0, groupByFile, block, numWorkers, sync, asyncIndices.Keys, left,
                            transfers, workerBytes, groupByWorkload, used)
        decreases left
      {
        hide AsyncLoop, Gathered;
        used, left := AssignLeast(asyncIndices, asyncBytes, left, used, ts0, sync);
      }
    }

    method AssignLeast(asyncIndices: map<int, seq<nat>>, asyncBytes: map<int, nat>, left: set<int>, used: nat,
                       ghost ts0: seq<Transfer>, ghost sync: Group) returns (used': nat, left': set<int>)
      requires block > 0 && left != {} && Gathered(ts0, groupByFile, |ts0|, asyncIndices, asyncBytes)
      requires AsyncLoop(ts0, groupByFile, block, numWorkers, sync, asyncIndices.Keys, left,
                         transfers, workerBytes, groupByWorkload, used)
      modifies this`transfers, this`workerBytes, this`groupByWorkload
      ensures AsyncLoop(ts0, groupByFile, block, numWorkers, sync, asyncIndices.Keys, left',
                        transfers, workerBytes, groupByWorkload, used')
      ensures left' < left
    {
      hide InProgress, IndicesOf, BytesOf;
      LeastExists(left);
      var group :| IsLeast(left, group);
      ghost var done := asyncIndices.Keys - left + {-1};
      assert |left - {group}| == |left| - 1;
      AsyncReady(ts0, groupByFile, block, numWorkers, sync, done, transfers, workerBytes, groupByWorkload, used, group);
      hide Divisible;
      used' := AssignAsync(group, asyncIndices[group], asyncBytes[group], used, ts0, sync, done);
      left' := left - {group};
      assert asyncIndices.Keys - left' + {-1} == done + {group};
    }
  }

  /** The async groups in `left` still wait for their workload; every number given out is below theirs. */
  ghost predicate AsyncLoop(ts0: seq<Transfer>, byFile: seq<int>, block: nat, numWorkers: nat, sync: Group,
                            keys: set<int>, left: set<int>, ts: seq<Transfer>, wb: seq<nat>, gw: seq<int>, used: nat)
    requires block > 0
  {
    && left <= keys && used + |left| <= |wb| == |gw|
    && InProgress(ts0, byFile, block, numWorkers, sync, keys - left + {-1}, ts, wb, gw, used)
    && Ascending(left, gw, used)
  }

  lemma BeginAsync(ts0: seq<Transfer>, byFile: seq<int>, block: nat, numWorkers: nat, sync: Group,
                   keys: set<int>, ts: seq<Transfer>, wb: seq<nat>, gw: seq<int>, used: nat)
    requires block > 0 && InProgress(ts0, byFile, block, numWorkers, sync, {-1}, ts, wb, gw, used)
    requires used + |keys| <= |wb| == |gw| && (forall w :: 0 <= w < used ==> gw[w] == -1)
    requires forall id :: id in keys ==> id >= 0
    ensures AsyncLoop(ts0, byFile, block, numWorkers, sync, keys, keys, ts, wb, gw, used)
  {
    assert keys - keys + {-1} == {-1};
    hide InProgress;
  }

  ghost predicate Ascending(left: set<int>, gw: seq<int>, used: nat) {
    used <= |gw| && forall id, w :: id in left && 0 <= w < used ==> gw[w] < id
  }

  /** The transfers among the first n that belong to group id, and their bytes. */
  function IndicesOf(ts: seq<Transfer>, byFile: seq<int>, n: nat, id: int): seq<nat>
    requires n <= |ts|
  {
    if n == 0 then []
    else IndicesOf(ts, byFile, n - 1, id) + if GroupOf(byFile, ts[n - 1].file) == id then [n - 1] else []
  }

  function BytesOf(ts: seq<Transfer>, byFile: seq<int>, n: nat, id: int): nat
    requires n <= |ts|
  {
    if n == 0 then 0
    else BytesOf(ts, byFile, n - 1, id) + if GroupOf(byFile, ts[n - 1].file) == id then ts[n - 1].size else 0
  }

  function SizeTotal(ts: seq<Transfer>): nat {
    if ts == [] then 0 else SizeTotal(ts[..|ts| - 1]) + ts[|ts| - 1].size
  }

  /** Each async group's transfers among the first n have been collected, with their bytes. */
  ghost predicate Gathered(ts: seq<Transfer>, byFile: seq<int>, n: nat,
                           asyncIndices: map<int, seq<nat>>, asyncBytes: map<int, nat>)
    requires n <= |ts|
  {
    && asyncIndices.Keys == asyncBytes.Keys
    && forall id :: id in asyncIndices ==>
         id >= 0 && asyncIndices[id] == IndicesOf(ts, byFile, n, id) != [] && asyncBytes[id] == BytesOf(ts, byFile, n, id)
  }

  ghost predicate NoneMissing(ts: seq<Transfer>, byFile: seq<int>, n: nat, keys: set<int>)
    requires n <= |ts|
  {
    forall id :: id >= 0 && id !in keys ==> IndicesOf(ts, byFile, n, id) == [] && BytesOf(ts, byFile, n, id) == 0
  }

  ghost predicate Collected(ts: seq<Transfer>, byFile: seq<int>, n: nat, syncIndices: seq<nat>, syncBytes: nat,
                            asyncIndices: map<int, seq<nat>>, asyncBytes: map<int, nat>)
    requires n <= |ts|
  {
    && syncIndices == IndicesOf(ts, byFile, n, -1) && syncBytes == BytesOf(ts, byFile, n, -1)
    && Gathered(ts, byFile, n, asyncIndices, asyncBytes) && NoneMissing(ts, byFile, n, asyncIndices.Keys)
  }

  /** One of the first n transfers, of this group. */
  predicate Among(i: nat, ts: seq<Transfer>, byFile: seq<int>, n: nat, id: int)
    requires n <= |ts|
  {
    i < n && GroupOf(byFile, ts[i].file) == id
  }

  /** These are the first n transfers that belong to the group, in order. */
  ghost predicate Members(indices: seq<nat>, ts: seq<Transfer>, byFile: seq<int>, n: nat, id: int)
    requires n <= |ts|
  {
    && (forall p :: 0 <= p < |indices| ==> Among(indices[p], ts, byFile, n, id))
    && (forall p, q :: 0 <= p < q < |indices| ==> indices[p] < indices[q])
    && (forall i: nat :: Among(i, ts, byFile, n, id) ==> i in indices)
  }

  lemma {:induction false} MembersNext(indices: seq<nat>, ts: seq<Transfer>, byFile: seq<int>, n: nat, id: int)
    requires n < |ts| && Members(indices, ts, byFile, n, id)
    ensures Members(if Among(n, ts, byFile, n + 1, id) then indices + [n] else indices, ts, byFile, n + 1, id)
  {
    var after := if Among(n, ts, byFile, n + 1, id) then indices + [n] else indices;
    forall i: nat
      ensures Among(i, ts, byFile, n + 1, id) <==> Among(i, ts, byFile, n, id) || (i == n && Among(n, ts, byFile, n + 1, id))
      ensures Among(i, ts, byFile, n, id) ==> i < n
    {
    }
    hide Among;
    forall i: nat | Among(i, ts, byFile, n + 1, id)
      ensures i in after
    {
      if Among(i, ts, byFile, n, id) {
        var p :| 0 <= p < |indices| && indices[p] == i;
        assert after[p] == i;
      } else {
        assert after[|indices|] == n;
      }
    }
  }

  lemma {:induction false} MembersNone(ts: seq<Transfer>, byFile: seq<int>, id: int)
    ensures Members(IndicesOf(ts, byFile, 0, id), ts, byFile, 0, id)
  {
    hide GroupOf;
  }

  lemma {:induction false} IndicesMembers(ts: seq<Transfer>, byFile: seq<int>, n: nat, id: int)
    requires n <= |ts|
    ensures Members(IndicesOf(ts, byFile, n, id), ts, byFile, n, id)
  {
    hide *;
    if n == 0 {
      MembersNone(ts, byFile, id);
    } else {
      IndicesMembers(ts, byFile, n - 1, id);
      IndicesGrow(ts, byFile, n, id);
      MembersNext(IndicesOf(ts, byFile, n - 1, id), ts, byFile, n - 1, id);
    }
  }

  lemma {:induction false} IndicesGrow(ts: seq<Transfer>, byFile: seq<int>, n: nat, id: int)
    requires 0 < n <= |ts|
    ensures IndicesOf(ts, byFile, n, id) ==
              if Among(n - 1, ts, byFile, n, id) then IndicesOf(ts, byFile, n - 1, id) + [n - 1] else IndicesOf(ts, byFile, n - 1, id)
  {
    IndicesStep(ts, byFile, n, id);
  }

  lemma {:induction false} IndicesBytes(ts: seq<Transfer>, byFile: seq<int>, n: nat, id: int)
    requires n <= |ts|
    ensures Sum(SizesAt(ts, IndicesOf(ts, byFile, n, id))) == BytesOf(ts, byFile, n, id)
  {
    if n > 0 {
      IndicesBytes(ts, byFile, n - 1, id);
      IndicesStep(ts, byFile, n, id);
      hide *;
      if GroupOf(byFile, ts[n - 1].file) == id { SizesAppend(ts, IndicesOf(ts, byFile, n - 1, id), n - 1); }
    }
  }

  lemma {:induction false} IndicesStep(ts: seq<Transfer>, byFile: seq<int>, n: nat, id: int)
    requires 0 < n <= |ts|
    ensures
      var before, bytes := IndicesOf(ts, byFile, n - 1, id), BytesOf(ts, byFile, n - 1, id);
      if GroupOf(byFile, ts[n - 1].file) == id
      then IndicesOf(ts, byFile, n, id) == before + [n - 1] && BytesOf(ts, byFile, n, id) == bytes + ts[n - 1].size
      else IndicesOf(ts, byFile, n, id) == before && BytesOf(ts, byFile, n, id) == bytes
  {
  }

  lemma {:induction false} SizesAppend(ts: seq<Transfer>, indices: seq<nat>, i: nat)
    requires i < |ts|
    ensures Sum(SizesAt(ts, indices + [i])) == Sum(SizesAt(ts, indices)) + ts[i].size
  {
    assert (indices + [i])[..|indices|] == indices;
    SumAppend(SizesAt(ts, indices), ts[i].size);
  }

  predicate IsLeast(s: set<int>, m: int) {
    m in s && forall x :: x in s ==> m <= x
  }

  lemma SomeElement(s: set<int>)
    requires s != {}
    ensures exists m :: m in s
  {
    assert (forall m :: m !in s) ==> s == {};
  }

  lemma {:induction false} LeastExists(s: set<int>)
    requires s != {}
    ensures exists m :: IsLeast(s, m)
  {
    SomeElement(s);
    var m :| m in s;
    if s == {m} {
      assert IsLeast(s, m);
    } else {
      var rest := s - {m};
      assert s == rest + {m};
      LeastExists(rest);
      var n :| IsLeast(rest, n);
      assert IsLeast(s, if m < n then m else n);
    }
  }

  /** Distinct transfers of one group, none of them assigned yet. */
  ghost predicate Picked(ts: seq<Transfer>, indices: seq<nat>, byFile: seq<int>, group: int) {
    && (forall p :: 0 <= p < |indices| ==> indices[p] < |ts| && ts[indices[p]].tasks == [])
    && (forall p :: 0 <= p < |indices| ==> GroupOf(byFile, ts[indices[p]].file) == group)
    && (forall p, q :: 0 <= p < q < |indices| ==> indices[p] != indices[q])
  }

  /** What assign_group needs: unassigned transfers of one group, and room for its workloads. */
  ghost predicate Divisible(ts: seq<Transfer>, wb: seq<nat>, gw: seq<int>, byFile: seq<int>,
                            indices: seq<nat>, workers: nat, first: nat, groupBytes: nat, id: int)
  {
    && Picked(ts, indices, byFile, id) && groupBytes == Sum(SizesAt(ts, indices))
    && first + (if workers > 1 then workers else 1) <= |wb| == |gw|
    && ZeroFrom(wb, first) && Balanced(ts, wb)
  }

  ghost predicate IsGroup(g: Group, byFile: seq<int>, indices: seq<nat>, workers: nat, first: nat, groupBytes: nat, id: int, block: nat)
    requires block > 0
  {
    && g.id == id && g.byFile == byFile && g.indices == indices && g.first == first
    && g.division == BytesPerWorkerFor(groupBytes, workers, block)
  }

  lemma {:induction false} GroupReady(g: Group, ts: seq<Transfer>, wb: seq<nat>, gw: seq<int>,
                   groupBytes: nat, workers: nat, block: nat)
    requires block > 0 && Picked(ts, g.indices, g.byFile, g.id) && g.indices != [] && groupBytes == Sum(SizesAt(ts, g.indices))
    requires g.sizes == SizesAt(ts, g.indices) && g.division == BytesPerWorkerFor(groupBytes, workers, block)
    requires g.first + (if workers > 1 then workers else 1) <= |wb| == |gw|
    requires ZeroFrom(wb, g.first)
    requires Balanced(ts, wb)
    ensures Served(g, ts, wb, gw, 0, ts, wb, gw, 0, 0) && Roomy(g, wb)
  {
    DivisionExact(groupBytes, workers, block);
    SizesAtIndex(ts, g.indices);
    GroupBegins(g, ts, wb, gw);
  }

  /** Every task of the divided transfer is served by a workload of the transfer's own group. */
  ghost predicate Finished(t: Transfer, id: int, gw: seq<int>, used: nat) {
    && Divided(t) && Rising(t.tasks) && used <= |gw|
    && forall n :: 0 <= n < |t.tasks| ==> t.tasks[n].workload < used && gw[t.tasks[n].workload] == id
  }

  ghost predicate Standing(t: Transfer, byFile: seq<int>, done: set<int>, gw: seq<int>, used: nat) {
    if GroupOf(byFile, t.file) in done then Finished(t, GroupOf(byFile, t.file), gw, used) else t.tasks == []
  }

  /** The groups in `done` are divided, among the first `used` workloads; the others have no tasks. */
  ghost predicate PartlyAssigned(ts0: seq<Transfer>, byFile: seq<int>, done: set<int>,
                                 ts: seq<Transfer>, wb: seq<nat>, gw: seq<int>, used: nat)
  {
    && OnlyTasksChanged(ts0, ts) && Balanced(ts, wb)
    && used <= |wb| == |gw|
    && (forall i :: 0 <= i < |ts| ==> Standing(ts[i], byFile, done, gw, used))
    && ZeroFrom(wb, used)
  }

  /** Which group each workload serves and how many bytes it has: the synchronous group's workloads
      come first and have their targets; each async group then has one, with all of its bytes. */
  ghost predicate Numbered(ts0: seq<Transfer>, byFile: seq<int>, sync: Group, wb: seq<nat>, gw: seq<int>, used: nat) {
    var first := if sync.indices == [] then 0 else sync.division.workloads;
    && first <= used <= |wb| == |gw|
    && (forall w :: 0 <= w < first ==> gw[w] == -1 && wb[w] == sync.division.Target(w))
    && (forall w :: first <= w < used ==> gw[w] >= 0 && wb[w] == BytesOf(ts0, byFile, |ts0|, gw[w]))
    && (forall v, w :: first <= v < w < used ==> gw[v] < gw[w])
  }

  ghost predicate SyncShare(ts0: seq<Transfer>, byFile: seq<int>, block: nat, numWorkers: nat, sync: Group, ts: seq<Transfer>)
    requires block > 0
  {
    && sync.id == -1 && sync.byFile == byFile && sync.first == 0
    && sync.indices == IndicesOf(ts0, byFile, |ts0|, -1)
    && sync.division == BytesPerWorkerFor(BytesOf(ts0, byFile, |ts0|, -1), numWorkers, block)
    && (sync.indices != [] ==> GroupDone(sync, ts))
  }

  ghost predicate InProgress(ts0: seq<Transfer>, byFile: seq<int>, block: nat, numWorkers: nat, sync: Group, done: set<int>,
                             ts: seq<Transfer>, wb: seq<nat>, gw: seq<int>, used: nat)
    requires block > 0
  {
    && PartlyAssigned(ts0, byFile, done, ts, wb, gw, used)
    && Numbered(ts0, byFile, sync, wb, gw, used)
    && SyncShare(ts0, byFile, block, numWorkers, sync, ts)
  }

  /** What a complete division is. */
  ghost predicate Assignment(ts0: seq<Transfer>, byFile: seq<int>, block: nat, numWorkers: nat, sync: Group,
                             ts: seq<Transfer>, wb: seq<nat>, gw: seq<int>)
    requires block > 0
  {
    && |ts| == |ts0|
    && (forall i :: 0 <= i < |ts| ==> Finished(ts[i], GroupOf(byFile, ts[i].file), gw, |gw|))
    && Numbered(ts0, byFile, sync, wb, gw, |gw|)
    && SyncShare(ts0, byFile, block, numWorkers, sync, ts)
  }

  lemma NothingAssigned(ts: seq<Transfer>, byFile: seq<int>, wb: seq<nat>, gw: seq<int>)
    requires forall i :: 0 <= i < |ts| ==> ts[i].tasks == []
    requires |wb| == |gw| && forall w :: 0 <= w < |wb| ==> wb[w] == 0
    ensures PartlyAssigned(ts, byFile, {}, ts, wb, gw, 0)
  {
    SumOfZeroes(wb);
    NoTasks(ts);
  }

  lemma {:induction false} NoTasks(ts: seq<Transfer>)
    requires forall i :: 0 <= i < |ts| ==> ts[i].tasks == []
    ensures AssignedTotal(ts) == 0
  {
    if ts != [] { NoTasks(ts[..|ts| - 1]); }
  }

  lemma {:induction false} SizesSame(a: seq<Transfer>, b: seq<Transfer>, indices: seq<nat>)
    requires OnlyTasksChanged(a, b)
    ensures SizesAt(a, indices) == SizesAt(b, indices)
  {
    if indices != [] {
      SizesSame(a, b, indices[..|indices| - 1]);
      var last := indices[|indices| - 1];
      assert last < |a| ==> Bare(a[last]) == Bare(b[last]);
    }
  }

  lemma IndicesPicked(ts0: seq<Transfer>, ts: seq<Transfer>, byFile: seq<int>, id: int, done: set<int>,
                      wb: seq<nat>, gw: seq<int>, used: nat)
    requires PartlyAssigned(ts0, byFile, done, ts, wb, gw, used) && id !in done
    ensures Picked(ts, IndicesOf(ts0, byFile, |ts0|, id), byFile, id)
    ensures BytesOf(ts0, byFile, |ts0|, id) == Sum(SizesAt(ts, IndicesOf(ts0, byFile, |ts0|, id)))
  {
    var indices := IndicesOf(ts0, byFile, |ts0|, id);
    IndicesMembers(ts0, byFile, |ts0|, id);
    IndicesBytes(ts0, byFile, |ts0|, id);
    SizesSame(ts0, ts, indices);
    forall p | 0 <= p < |indices|
      ensures ts[indices[p]].tasks == [] && GroupOf(byFile, ts[indices[p]].file) == id
    {
      assert Bare(ts[indices[p]]) == Bare(ts0[indices[p]]);
    }
  }

  lemma DoneIsFinished(g: Group, p: nat, t: Transfer, gw: seq<int>, used: nat)
    requires p <= |g.sizes| && Done(g, p, t) && g.first + g.division.workloads <= used <= |gw|
    requires forall w :: g.first <= w < g.first + g.division.workloads ==> gw[w] == g.id
    ensures Finished(t, g.id, gw, used)
  {
    forall n | 0 <= n < |t.tasks|
      ensures SliceOf(t, t.tasks[n]) && InSlot(g, p, t, t.tasks[n])
    {
    }
  }

  /** One group divided from (ts, wb, gw): its workloads have their targets, its transfers their tasks,
      and nothing else has changed. */
  ghost predicate GroupDivided(g: Group, ts: seq<Transfer>, wb: seq<nat>, gw: seq<int>, used: nat,
                               ts': seq<Transfer>, wb': seq<nat>, gw': seq<int>)
  {
    && Untouched(g, ts, ts') && OnlyTasksChanged(ts, ts') && Balanced(ts', wb')
    && Settled(g, wb, gw, used, wb', gw')
    && (if g.indices == [] then used == 0 else used == g.division.workloads && GroupDone(g, ts'))
  }

  /** One more group divided, whatever was divided before it. */
  lemma {:induction false} GroupAssigned(ts0: seq<Transfer>, byFile: seq<int>, done: set<int>,
                      ts: seq<Transfer>, wb: seq<nat>, gw: seq<int>, used: nat,
                      g: Group, ts': seq<Transfer>, wb': seq<nat>, gw': seq<int>, more: nat)
    requires PartlyAssigned(ts0, byFile, done, ts, wb, gw, used) && g.id !in done
    requires g.byFile == byFile && g.first == used && used + more <= |wb|
    requires g.indices == IndicesOf(ts0, byFile, |ts0|, g.id)
    requires GroupDivided(g, ts, wb, gw, more, ts', wb', gw')
    ensures PartlyAssigned(ts0, byFile, done + {g.id}, ts', wb', gw', used + more)
  {
    forall i | 0 <= i < |ts'|
      ensures Standing(ts'[i], byFile, done + {g.id}, gw', used + more)
    {
      assert Bare(ts'[i]) == Bare(ts[i]) == Bare(ts0[i]);
      hide Standing, IndicesOf, OnlyTasksChanged;
      if GroupOf(byFile, ts[i].file) == g.id {
        DividedTransfer(ts0, done, g, wb, gw, used, ts', wb', gw', more, i);
      } else {
        StandsStill(ts[i], byFile, done, g, wb, gw, used, wb', gw', more);
      }
    }
    hide Standing, Settled, GroupDone, Untouched;
  }

  lemma {:induction false} DividedTransfer(ts0: seq<Transfer>, done: set<int>, g: Group, wb: seq<nat>, gw: seq<int>, used: nat,
                        ts': seq<Transfer>, wb': seq<nat>, gw': seq<int>, more: nat, i: nat)
    requires i < |ts'| == |ts0| && Bare(ts'[i]) == Bare(ts0[i]) && GroupOf(g.byFile, ts0[i].file) == g.id
    requires g.indices == IndicesOf(ts0, g.byFile, |ts0|, g.id) && g.first == used && used + more <= |gw'|
    requires Settled(g, wb, gw, more, wb', gw') && (g.indices != [] ==> more == g.division.workloads && GroupDone(g, ts'))
    ensures Standing(ts'[i], g.byFile, done + {g.id}, gw', used + more)
  {
    IndicesMembers(ts0, g.byFile, |ts0|, g.id);
    assert Among(i, ts0, g.byFile, |ts0|, g.id);
    var p :| 0 <= p < |g.indices| && g.indices[p] == i;
    hide IndicesOf;
    DoneIsFinished(g, p, ts'[i], gw', used + more);
  }

  lemma StandsStill(t: Transfer, byFile: seq<int>, done: set<int>, g: Group, wb: seq<nat>, gw: seq<int>, used: nat,
                    wb': seq<nat>, gw': seq<int>, more: nat)
    requires Standing(t, byFile, done, gw, used) && GroupOf(byFile, t.file) != g.id
    requires g.first == used <= |gw| && used + more <= |gw'| && Settled(g, wb, gw, more, wb', gw')
    ensures Standing(t, byFile, done + {g.id}, gw', used + more)
  {
  }

  lemma {:induction false} SyncAssigned(ts0: seq<Transfer>, byFile: seq<int>, block: nat, numWorkers: nat, sync: Group,
                     wb0: seq<nat>, gw0: seq<int>, ts: seq<Transfer>, wb: seq<nat>, gw: seq<int>, used: nat)
    requires block > 0 && PartlyAssigned(ts0, byFile, {}, ts0, wb0, gw0, 0)
    requires sync.id == -1 && sync.byFile == byFile && sync.first == 0
    requires sync.indices == IndicesOf(ts0, byFile, |ts0|, -1)
    requires sync.division == BytesPerWorkerFor(BytesOf(ts0, byFile, |ts0|, -1), numWorkers, block)
    requires GroupDivided(sync, ts0, wb0, gw0, used, ts, wb, gw)
    requires used <= |wb0|
    ensures PartlyAssigned(ts0, byFile, {-1}, ts, wb, gw, used) && Numbered(ts0, byFile, sync, wb, gw, used)
    ensures SyncShare(ts0, byFile, block, numWorkers, sync, ts)
  {
    SyncNumbered(ts0, byFile, sync, wb0, gw0, wb, gw, used);
    SyncShared(ts0, byFile, block, numWorkers, sync, wb0, gw0, ts, wb, gw, used);
    GroupAssigned(ts0, byFile, {}, ts0, wb0, gw0, 0, sync, ts, wb, gw, used);
    hide *;
    assert {} + {sync.id} == {-1};
  }

  lemma {:induction false} SyncShared(ts0: seq<Transfer>, byFile: seq<int>, block: nat, numWorkers: nat, sync: Group,
                                      wb0: seq<nat>, gw0: seq<int>, ts: seq<Transfer>, wb: seq<nat>, gw: seq<int>, used: nat)
    requires block > 0 && sync.id == -1 && sync.byFile == byFile && sync.first == 0
    requires sync.indices == IndicesOf(ts0, byFile, |ts0|, -1)
    requires sync.division == BytesPerWorkerFor(BytesOf(ts0, byFile, |ts0|, -1), numWorkers, block)
    requires GroupDivided(sync, ts0, wb0, gw0, used, ts, wb, gw)
    ensures SyncShare(ts0, byFile, block, numWorkers, sync, ts)
  {
  }

  lemma {:induction false} SyncNumbered(ts0: seq<Transfer>, byFile: seq<int>, sync: Group, wb0: seq<nat>, gw0: seq<int>,
                     wb: seq<nat>, gw: seq<int>, used: nat)
    requires Settled(sync, wb0, gw0, used, wb, gw) && used <= |wb| && sync.id == -1 && sync.first == 0
    requires used == if sync.indices == [] then 0 else sync.division.workloads
    ensures Numbered(ts0, byFile, sync, wb, gw, used)
  {
  }

  /** A group already divided is not touched by dividing another. */
  lemma {:induction false} StaysDone(sync: Group, g: Group, ts: seq<Transfer>, ts': seq<Transfer>)
    requires GroupDone(sync, ts) && g.byFile == sync.byFile && g.id != sync.id
    requires Untouched(g, ts, ts')
    ensures GroupDone(sync, ts')
  {
    forall p | 0 <= p < |sync.indices|
      ensures ts'[sync.indices[p]] == ts[sync.indices[p]]
    {
      assert GroupOf(sync.byFile, ts[sync.indices[p]].file) == sync.id;
    }
  }

  lemma {:induction false} AsyncReady(ts0: seq<Transfer>, byFile: seq<int>, block: nat, numWorkers: nat, sync: Group, done: set<int>,
                   ts: seq<Transfer>, wb: seq<nat>, gw: seq<int>, used: nat, id: int)
    requires block > 0 && InProgress(ts0, byFile, block, numWorkers, sync, done, ts, wb, gw, used) && id !in done
    requires used < |wb|
    ensures Divisible(ts, wb, gw, byFile, IndicesOf(ts0, byFile, |ts0|, id), 1, used, BytesOf(ts0, byFile, |ts0|, id), id)
  {
    IndicesPicked(ts0, ts, byFile, id, done, wb, gw, used);
  }

  lemma {:induction false} AsyncAssigned(ts0: seq<Transfer>, byFile: seq<int>, block: nat, numWorkers: nat, sync: Group, done: set<int>,
                      ts: seq<Transfer>, wb: seq<nat>, gw: seq<int>, used: nat,
                      id: int, g: Group, ts': seq<Transfer>, wb': seq<nat>, gw': seq<int>, more: nat)
    requires block > 0 && InProgress(ts0, byFile, block, numWorkers, sync, done, ts, wb, gw, used)
    requires id >= 0 && id !in done && used < |wb|
    requires IsGroup(g, byFile, IndicesOf(ts0, byFile, |ts0|, id), 1, used, BytesOf(ts0, byFile, |ts0|, id), id, block)
    requires GroupDivided(g, ts, wb, gw, more, ts', wb', gw') && IndicesOf(ts0, byFile, |ts0|, id) != []
    requires AllBelow(gw, used, id)
    ensures more == 1 && InProgress(ts0, byFile, block, numWorkers, sync, done + {id}, ts', wb', gw', used + 1)
    ensures |wb| == |wb'| == |gw'|
    ensures AllBelow(gw', used + 1, id + 1)
  {
    DivisionExact(BytesOf(ts0, byFile, |ts0|, g.id), 1, block);
    assert g.division.Start(1) == g.division.Start(0) + g.division.Target(0);
    GroupAssigned(ts0, byFile, done, ts, wb, gw, used, g, ts', wb', gw', more);
    if sync.indices != [] { StaysDone(sync, g, ts, ts'); }
    NumberedNext(ts0, byFile, sync, wb, gw, used, g, wb', gw');
  }

  lemma {:induction false} NumberedNext(ts0: seq<Transfer>, byFile: seq<int>, sync: Group, wb: seq<nat>, gw: seq<int>, used: nat,
                     g: Group, wb': seq<nat>, gw': seq<int>)
    requires Numbered(ts0, byFile, sync, wb, gw, used) && Settled(g, wb, gw, 1, wb', gw') && used < |wb|
    requires g.first == used && g.id >= 0 && g.division.Target(0) == BytesOf(ts0, byFile, |ts0|, g.id)
    requires AllBelow(gw, used, g.id)
    ensures Numbered(ts0, byFile, sync, wb', gw', used + 1)
    ensures AllBelow(gw', used + 1, g.id + 1)
  {
    forall v, w | (if sync.indices == [] then 0 else sync.division.workloads) <= v < w < used + 1
      ensures gw'[v] < gw'[w]
    {
      if w < used { assert gw[v] < gw[w]; }
    }
  }

  lemma {:induction false} AllBytesAssigned(ts: seq<Transfer>)
    requires forall i :: 0 <= i < |ts| ==> Divided(ts[i])
    ensures AssignedTotal(ts) == SizeTotal(ts)
  {
    if ts != [] {
      var t := ts[|ts| - 1];
      AllBytesAssigned(ts[..|ts| - 1]);
      SlicesBytes(t.tasks, t.offset, t.offset + t.size);
    }
  }

  lemma {:induction false} SizeTotalSame(a: seq<Transfer>, b: seq<Transfer>)
    requires OnlyTasksChanged(a, b)
    ensures SizeTotal(a) == SizeTotal(b)
  {
    if a != [] {
      var n := |a| - 1;
      assert Bare(b[n]) == Bare(a[n]);
      SizeTotalSame(a[..n], b[..n]);
    }
  }

  lemma {:induction false} AllAssigned(ts0: seq<Transfer>, byFile: seq<int>, block: nat, numWorkers: nat, sync: Group,
                    keys: set<int>, ts: seq<Transfer>, wb: seq<nat>, gw: seq<int>, used: nat)
    requires block > 0 && ts0 != [] && NoneMissing(ts0, byFile, |ts0|, keys)
    requires AsyncLoop(ts0, byFile, block, numWorkers, sync, keys, {}, ts, wb, gw, used)
    ensures 0 < used <= |wb| == |gw|
    ensures Assignment(ts0, byFile, block, numWorkers, sync, ts, wb[..used], gw[..used])
    ensures Sum(wb[..used]) == SizeTotal(ts0) && OnlyTasksChanged(ts0, ts)
  {
    assert keys - {} + {-1} == keys + {-1};
    assert |ts| == |ts0|;
    hide AsyncLoop, SyncShare, NoneMissing, PartlyAssigned, Numbered, OnlyTasksChanged, Finished;
    EverythingFinished(ts0, byFile, keys, ts, wb, gw, used);
    BytesAllCounted(ts0, byFile, keys + {-1}, ts, wb, gw, used);
    NumberedPrefix(ts0, byFile, sync, wb, gw, used);
  }

  lemma NumberedPrefix(ts0: seq<Transfer>, byFile: seq<int>, sync: Group, wb: seq<nat>, gw: seq<int>, used: nat)
    requires Numbered(ts0, byFile, sync, wb, gw, used)
    ensures Numbered(ts0, byFile, sync, wb[..used], gw[..used], used)
  {
    hide BytesOf;
    var first := if sync.indices == [] then 0 else sync.division.workloads;
    forall v, w | first <= v < w < used
      ensures gw[..used][v] < gw[..used][w]
    {
      assert gw[v] < gw[w];
    }
  }

  lemma {:induction false} EverythingFinished(ts0: seq<Transfer>, byFile: seq<int>, keys: set<int>,
                           ts: seq<Transfer>, wb: seq<nat>, gw: seq<int>, used: nat)
    requires PartlyAssigned(ts0, byFile, keys + {-1}, ts, wb, gw, used) && ts0 != []
    requires NoneMissing(ts0, byFile, |ts0|, keys)
    ensures 0 < used
    ensures forall i :: 0 <= i < |ts| ==> Finished(ts[i], GroupOf(byFile, ts[i].file), gw[..used], used)
  {
    forall i | 0 <= i < |ts|
      ensures 0 < used && Finished(ts[i], GroupOf(byFile, ts[i].file), gw[..used], used)
    {
      EveryoneFinished(ts0, byFile, keys, ts, wb, gw, used, i);
    }
    EveryoneFinished(ts0, byFile, keys, ts, wb, gw, used, 0);
  }

  lemma {:induction false} BytesAllCounted(ts0: seq<Transfer>, byFile: seq<int>, done: set<int>,
                        ts: seq<Transfer>, wb: seq<nat>, gw: seq<int>, used: nat)
    requires PartlyAssigned(ts0, byFile, done, ts, wb, gw, used)
    requires forall i :: 0 <= i < |ts| ==> Finished(ts[i], GroupOf(byFile, ts[i].file), gw[..used], used)
    ensures Sum(wb[..used]) == SizeTotal(ts0)
  {
    AllBytesAssigned(ts);
    SizeTotalSame(ts0, ts);
    assert wb == wb[..used] + wb[used..];
    SumConcat(wb[..used], wb[used..]);
    SumOfZeroes(wb[used..]);
  }

  lemma {:induction false} EveryoneFinished(ts0: seq<Transfer>, byFile: seq<int>, keys: set<int>,
                         ts: seq<Transfer>, wb: seq<nat>, gw: seq<int>, used: nat, i: nat)
    requires PartlyAssigned(ts0, byFile, keys + {-1}, ts, wb, gw, used)
    requires NoneMissing(ts0, byFile, |ts0|, keys) && i < |ts|
    ensures 0 < used && Finished(ts[i], GroupOf(byFile, ts[i].file), gw[..used], used)
  {
    var id := GroupOf(byFile, ts[i].file);
    assert Bare(ts[i]) == Bare(ts0[i]);
    IndicesMembers(ts0, byFile, |ts0|, id);
    assert i in IndicesOf(ts0, byFile, |ts0|, id);
    assert Finished(ts[i], id, gw, used) && ts[i].tasks[0].workload < used;
  }

  lemma {:induction false} RisingBounded(tasks: seq<FileReadTask>, lo: nat, hi: nat)
    requires Rising(tasks) && lo <= hi
    requires forall n :: 0 <= n < |tasks| ==> lo <= tasks[n].workload < hi
    ensures |tasks| <= hi - lo
  {
    if tasks != [] {
      var n := |tasks| - 1;
      RisingBounded(tasks[..n], lo, tasks[n].workload);
    }
  }

  /** No transfer is cut into more slices than there are workers. */
  lemma {:induction false} SlicesPerTransfer(ts0: seq<Transfer>, byFile: seq<int>, block: nat, numWorkers: nat, sync: Group,
                                             ts: seq<Transfer>, wb: seq<nat>, gw: seq<int>, i: nat)
    requires block > 0 && Assignment(ts0, byFile, block, numWorkers, sync, ts, wb, gw) && OnlyTasksChanged(ts0, ts)
    requires i < |ts|
    ensures |ts[i].tasks| <= Max(1, numWorkers)
  {
    var id := GroupOf(byFile, ts[i].file);
    assert Finished(ts[i], id, gw, |gw|) && Bare(ts[i]) == Bare(ts0[i]);
    if id == -1 {
      SyncSlices(ts0, byFile, block, numWorkers, sync, ts, i);
    } else {
      AsyncSlices(ts0, byFile, sync, wb, gw, ts[i], id);
    }
  }

  lemma {:induction false} AsyncSlices(ts0: seq<Transfer>, byFile: seq<int>, sync: Group, wb: seq<nat>, gw: seq<int>, t: Transfer, id: int)
    requires Numbered(ts0, byFile, sync, wb, gw, |gw|) && Finished(t, id, gw, |gw|) && id >= 0
    ensures |t.tasks| <= 1
  {
    hide BytesOf, Divided;
    if t.tasks != [] { RisingBounded(t.tasks, t.tasks[0].workload, t.tasks[0].workload + 1); }
  }

  lemma {:induction false} SyncSlices(ts0: seq<Transfer>, byFile: seq<int>, block: nat, numWorkers: nat, sync: Group, ts: seq<Transfer>, i: nat)
    requires block > 0 && SyncShare(ts0, byFile, block, numWorkers, sync, ts) && |ts| == |ts0|
    requires i < |ts| && GroupOf(byFile, ts0[i].file) == -1
    ensures |ts[i].tasks| <= Max(1, numWorkers)
  {
    IndicesMembers(ts0, byFile, |ts0|, -1);
    assert i in sync.indices;
    var p: nat :| p < |sync.indices| && sync.indices[p] == i;
    assert Done(sync, p, ts[i]);
    DivisionExact(BytesOf(ts0, byFile, |ts0|, -1), numWorkers, block);
    RisingBounded(ts[i].tasks, 0, sync.division.workloads);
  }
}
