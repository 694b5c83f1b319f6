/** Answering ranges (impl/request, impl/task, and the pushes of impl/batch): batches run on different
    threads and finish tasks of the same range in any order; each range gets one truthful response. */
module Responses {
  import opened Machine

  datatype Code = Success | Failed(error: nat)

  /** A batch's decision about one of its tasks. */
  datatype Finish = Finish(task: nat, code: Code)

  datatype Response = Response(range: nat, code: Code)

  /** Finishing a task takes three steps, between which other threads run: the code is stored in the
      request, the countdown is decremented, and, by whoever brought it to zero, the answer is pushed. */
  datatype Phase = Open | Stored(code: Code) | Last(code: Code) | Closed(code: Code)

  /** owner[t] is the range of task t. Each program is what one batch finishes, in its order. */
  datatype System = System(owner: seq<nat>, ranges: nat, programs: seq<seq<Finish>>)

  datatype State = State(pc: seq<nat>, phase: seq<Phase>, remaining: seq<nat>, ret: seq<Code>, responses: seq<Response>)

  /** Weighted count of the tasks of range r. */
  function Tally(owner: seq<nat>, phase: seq<Phase>, r: nat, f: Phase -> nat): nat
    requires |owner| == |phase|
  {
    if phase == [] then 0
    else
      var n := |phase| - 1;
      Tally(owner[..n], phase[..n], r, f) + if owner[n] == r then f(phase[n]) else 0
  }

  function Waits(p: Phase): nat { if p.Open? || p.Stored? then 1 else 0 }

  function Lasts(p: Phase): nat { if p.Last? then 1 else 0 }

  function Steps(p: Phase): nat {
    match p
    case Open => 3
    case Stored(_) => 2
    case Last(_) => 1
    case Closed(_) => 0
  }

  function Answers(responses: seq<Response>, r: nat): nat {
    if responses == [] then 0
    else Answers(responses[..|responses| - 1], r) + if responses[|responses| - 1].range == r then 1 else 0
  }

  lemma {:induction false} TallyUpdate(owner: seq<nat>, phase: seq<Phase>, r: nat, f: Phase -> nat, t: nat, p: Phase)
    requires |owner| == |phase| && t < |phase|
    ensures Tally(owner, phase[t := p], r, f) + (if owner[t] == r then f(phase[t]) else 0) ==
              Tally(owner, phase, r, f) + if owner[t] == r then f(p) else 0
  {
    var n := |phase| - 1;
    if t == n {
      assert phase[t := p][..n] == phase[..n];
    } else {
      assert phase[t := p][..n] == phase[..n][t := p];
      TallyUpdate(owner[..n], phase[..n], r, f, t, p);
    }
  }

  lemma {:induction false} TallyAtLeast(owner: seq<nat>, phase: seq<Phase>, r: nat, f: Phase -> nat, t: nat)
    requires |owner| == |phase| && t < |phase| && owner[t] == r
    ensures Tally(owner, phase, r, f) >= f(phase[t])
  {
    var n := |phase| - 1;
    if t < n { TallyAtLeast(owner[..n], phase[..n], r, f, t); }
  }

  lemma {:induction false} TallyZero(owner: seq<nat>, phase: seq<Phase>, r: nat, f: Phase -> nat)
    requires |owner| == |phase| && forall t :: 0 <= t < |phase| && owner[t] == r ==> f(phase[t]) == 0
    ensures Tally(owner, phase, r, f) == 0
  {
    if phase != [] { TallyZero(owner[..|phase| - 1], phase[..|phase| - 1], r, f); }
  }

  /** How many tasks range r has. */
  function Count(owner: seq<nat>, r: nat): nat {
    if owner == [] then 0
    else Count(owner[..|owner| - 1], r) + if owner[|owner| - 1] == r then 1 else 0
  }

  lemma {:induction false} TallyOpen(owner: seq<nat>, phase: seq<Phase>, r: nat)
    requires |owner| == |phase| && forall t :: 0 <= t < |phase| ==> phase[t] == Open
    ensures Tally(owner, phase, r, Waits) == Count(owner, r)
  {
    if phase != [] { TallyOpen(owner[..|owner| - 1], phase[..|phase| - 1], r); }
  }

  lemma {:induction false} CountPositive(owner: seq<nat>, r: nat, t: nat)
    requires t < |owner| && owner[t] == r
    ensures Count(owner, r) > 0
  {
    if t < |owner| - 1 { CountPositive(owner[..|owner| - 1], r, t); }
  }

  /** How often a 32-bit countdown of n reads one: once for up to 2^32. */
  function Ones(n: nat): nat { (n + UNSIGNED - 1) / UNSIGNED }

  lemma {:induction false} OneLess(n: nat)
    requires n > 0
    ensures (n - 1) % UNSIGNED == if n % UNSIGNED == 0 then UNSIGNED - 1 else n % UNSIGNED - 1
    ensures Ones(n) == Ones(n - 1) + if n % UNSIGNED == 1 then 1 else 0
  {
  }

  lemma {:induction false} OnesOf(n: nat)
    ensures Ones(n) == 0 <==> n == 0
    ensures Ones(n) <= 1 <==> n <= UNSIGNED
  {
  }

  /** One atomic step of finishing task t: Request::finished and the push after it. */
  ghost predicate TaskStep(owner: seq<nat>, s: State, s': State, t: nat, code: Code)
    requires Shaped(owner, s) && t < |owner|
  {
    var r := owner[t];
    match s.phase[t]
    case Open =>
      s' == s.(phase := s.phase[t := Stored(code)], ret := if code.Success? then s.ret else s.ret[r := code])
    case Stored(c) =>
      s' == s.(phase := s.phase[t := if s.remaining[r] == 1 then Last(c) else Closed(c)],
               remaining := s.remaining[r := if s.remaining[r] == 0 then UNSIGNED - 1 else s.remaining[r] - 1])
    case Last(c) =>
      s' == s.(phase := s.phase[t := Closed(c)], responses := s.responses + [Response(r, s.ret[r])])
    case Closed(_) =>
      false
  }

  ghost predicate Shaped(owner: seq<nat>, s: State) {
    && |s.phase| == |owner| && |s.ret| == |s.remaining|
    && forall t :: 0 <= t < |owner| ==> owner[t] < |s.ret|
  }

  /** The accounting of one range: the countdown is what waits, in 32 bits, and an answer is given or due
      for each time it has read one. */
  ghost predicate Accounted(owner: seq<nat>, s: State, r: nat)
    requires Shaped(owner, s) && r < |s.ret|
  {
    && s.remaining[r] == Tally(owner, s.phase, r, Waits) % UNSIGNED
    && Answers(s.responses, r) + Tally(owner, s.phase, r, Lasts) + Ones(Tally(owner, s.phase, r, Waits)) == Ones(Count(owner, r))
  }

  /** What the request's stored code says about its tasks. */
  ghost predicate Truthful(owner: seq<nat>, s: State, r: nat)
    requires Shaped(owner, s) && r < |s.ret|
  {
    && (s.ret[r].Success? ==> forall t :: 0 <= t < |owner| && owner[t] == r ==> s.phase[t].Open? || s.phase[t].code.Success?)
    && (s.ret[r].Failed? ==> exists t :: 0 <= t < |owner| && owner[t] == r && !s.phase[t].Open? && s.phase[t].code == s.ret[r])
  }

  /** An answer given for a range whose tasks the countdown can count: none of them waits, and the stored
      code is the one given. */
  ghost predicate Settled(owner: seq<nat>, s: State, x: Response)
    requires Shaped(owner, s)
  {
    && x.range < |s.ret|
    && (Count(owner, x.range) <= UNSIGNED ==> Tally(owner, s.phase, x.range, Waits) == 0 && x.code == s.ret[x.range])
  }

  ghost predicate Inv(owner: seq<nat>, s: State) {
    && Shaped(owner, s)
    && (forall r :: 0 <= r < |s.ret| ==> Accounted(owner, s, r) && Truthful(owner, s, r))
    && (forall i :: 0 <= i < |s.responses| ==> Settled(owner, s, s.responses[i]))
  }

  lemma {:induction false} AnswersAppend(responses: seq<Response>, x: Response, r: nat)
    ensures Answers(responses + [x], r) == Answers(responses, r) + if x.range == r then 1 else 0
  {
    assert (responses + [x])[..|responses|] == responses;
  }

  lemma {:induction false} StaysAccounted(owner: seq<nat>, s: State, s': State, t: nat, code: Code, r: nat)
    requires Shaped(owner, s) && t < |owner| && TaskStep(owner, s, s', t, code) && r < |s.ret| && Accounted(owner, s, r)
    ensures Shaped(owner, s') && Accounted(owner, s', r)
  {
    hide Ones, Tally, Answers, Count;
    var p := s'.phase[t];
    assert s'.phase == s.phase[t := p];
    TallyUpdate(owner, s.phase, r, Waits, t, p);
    TallyUpdate(owner, s.phase, r, Lasts, t, p);
    if owner[t] == r {
      if s.phase[t].Last? { AnswersAppend(s.responses, Response(r, s.ret[r]), r); }
      if s.phase[t].Stored? {
        TallyAtLeast(owner, s.phase, r, Waits, t);
        OneLess(Tally(owner, s.phase, r, Waits));
      }
    } else if s.phase[t].Last? {
      AnswersAppend(s.responses, Response(owner[t], s.ret[owner[t]]), r);
    }
  }

  lemma {:induction false} StaysTruthful(owner: seq<nat>, s: State, s': State, t: nat, code: Code, r: nat)
    requires Inv(owner, s) && t < |owner| && TaskStep(owner, s, s', t, code) && r < |s.ret|
    ensures Shaped(owner, s') && Truthful(owner, s', r)
  {
    hide Accounted, Settled;
    assert Truthful(owner, s, r);
    if s'.ret[r].Failed? {
      if s.phase[t].Open? && owner[t] == r && code.Failed? {
        assert s'.phase[t].code == s'.ret[r];
      } else {
        var u :| 0 <= u < |owner| && owner[u] == r && !s.phase[u].Open? && s.phase[u].code == s.ret[r];
        assert !s'.phase[u].Open? && s'.phase[u].code == s'.ret[r];
      }
    }
  }

  /** A task that has the last word of a countable range has it when nothing waits any more. */
  lemma {:induction false} LastIsLast(owner: seq<nat>, s: State, t: nat)
    requires Shaped(owner, s) && t < |owner| && s.phase[t].Last? && Accounted(owner, s, owner[t])
    requires Count(owner, owner[t]) <= UNSIGNED
    ensures Tally(owner, s.phase, owner[t], Waits) == 0
  {
    TallyAtLeast(owner, s.phase, owner[t], Lasts, t);
    OnesOf(Count(owner, owner[t]));
    OnesOf(Tally(owner, s.phase, owner[t], Waits));
    hide Ones, Tally, Count;
  }

  lemma {:induction false} OneStaysSettled(owner: seq<nat>, s: State, s': State, t: nat, code: Code, x: Response)
    requires Shaped(owner, s) && t < |owner| && TaskStep(owner, s, s', t, code) && Settled(owner, s, x)
    ensures Shaped(owner, s') && Settled(owner, s', x)
  {
    var p := s'.phase[t];
    assert s'.phase == s.phase[t := p];
    TallyUpdate(owner, s.phase, x.range, Waits, t, p);
    if owner[t] == x.range { TallyAtLeast(owner, s.phase, x.range, Waits, t); }
    hide Tally, Count;
  }

  lemma {:induction false} StaysSettled(owner: seq<nat>, s: State, s': State, t: nat, code: Code)
    requires Inv(owner, s) && t < |owner| && TaskStep(owner, s, s', t, code)
    ensures Shaped(owner, s') && forall i :: 0 <= i < |s'.responses| ==> Settled(owner, s', s'.responses[i])
  {
    var r := owner[t];
    assert Accounted(owner, s, r);
    var p := s'.phase[t];
    assert s'.phase == s.phase[t := p];
    if s.phase[t].Last? && Count(owner, r) <= UNSIGNED {
      LastIsLast(owner, s, t);
      TallyUpdate(owner, s.phase, r, Waits, t, p);
    }
    hide Accounted, Truthful, Tally, Count;
    forall i | 0 <= i < |s'.responses|
      ensures Settled(owner, s', s'.responses[i])
    {
      if i < |s.responses| { OneStaysSettled(owner, s, s', t, code, s.responses[i]); }
    }
  }

  /** Every atomic step of every thread keeps the accounting. */
  lemma {:induction false} StepKeepsInv(owner: seq<nat>, s: State, s': State, t: nat, code: Code)
    requires Inv(owner, s) && t < |owner| && TaskStep(owner, s, s', t, code)
    ensures Inv(owner, s')
  {
    StaysSettled(owner, s, s', t, code);
    forall r | 0 <= r < |s'.ret|
      ensures Shaped(owner, s') && Accounted(owner, s', r) && Truthful(owner, s', r)
    {
      assert Accounted(owner, s, r);
      StaysAccounted(owner, s, s', t, code, r);
      StaysTruthful(owner, s, s', t, code, r);
    }
    hide Accounted, Truthful, Settled;
  }

  /* ---- threads ---- */

  ghost predicate AppearsAt(sys: System, b: nat, i: nat, t: nat) {
    b < |sys.programs| && i < |sys.programs[b]| && sys.programs[b][i].task == t
  }

  ghost predicate Appears(sys: System, t: nat) { exists b, i :: AppearsAt(sys, b, i, t) }

  ghost predicate HasTask(owner: seq<nat>, r: nat) { exists t :: 0 <= t < |owner| && owner[t] == r }

  /** Every range has a task, and the batches between them finish every task exactly once. */
  ghost predicate WellFormed(sys: System) {
    && (forall t :: 0 <= t < |sys.owner| ==> sys.owner[t] < sys.ranges)
    && (forall r :: 0 <= r < sys.ranges ==> HasTask(sys.owner, r))
    && (forall b, i :: 0 <= b < |sys.programs| && 0 <= i < |sys.programs[b]| ==> sys.programs[b][i].task < |sys.owner|)
    && (forall t :: 0 <= t < |sys.owner| ==> Appears(sys, t))
    && (forall b, i, c, j, t :: AppearsAt(sys, b, i, t) && AppearsAt(sys, c, j, t) ==> b == c && i == j)
  }

  /** Before any batch runs: each request counts its tasks, in 32 bits. */
  ghost predicate Init(sys: System, s: State) {
    && |s.pc| == |sys.programs| && (forall b :: 0 <= b < |s.pc| ==> s.pc[b] == 0)
    && |s.phase| == |sys.owner| && (forall t :: 0 <= t < |s.phase| ==> s.phase[t] == Open)
    && |s.remaining| == |s.ret| == sys.ranges
    && (forall r :: 0 <= r < sys.ranges ==> s.remaining[r] == Count(sys.owner, r) % UNSIGNED && s.ret[r] == Success)
    && s.responses == []
  }

  /** Thread b takes one atomic step of finishing its next task, and moves on when that is done. */
  ghost predicate ThreadStep(sys: System, s: State, s': State, b: nat) {
    && b < |sys.programs| == |s.pc| && s.pc[b] < |sys.programs[b]| && Shaped(sys.owner, s)
    && var f := sys.programs[b][s.pc[b]];
       && f.task < |sys.owner|
       && exists m: State :: TaskStep(sys.owner, s, m, f.task, f.code) && Advanced(s, m, s', b, f.task)
  }

  ghost predicate Advanced(s: State, m: State, s': State, b: nat, t: nat) {
    && t < |m.phase| && b < |s.pc|
    && s' == m.(pc := if m.phase[t].Closed? then s.pc[b := s.pc[b] + 1] else s.pc)
  }

  ghost predicate Run(sys: System, run: seq<State>) {
    && run != [] && Init(sys, run[0])
    && forall i, j :: 0 <= i < j < |run| && j == i + 1 ==> exists b: nat :: ThreadStep(sys, run[i], run[j], b)
  }

  /** Where thread b stands with the i-th task of its program. */
  ghost predicate InPlace(sys: System, s: State, b: nat, i: nat)
    requires b < |sys.programs| == |s.pc| && i < |sys.programs[b]|
  {
    var f := sys.programs[b][i];
    && f.task < |s.phase|
    && (i < s.pc[b] ==> s.phase[f.task] == Closed(f.code))
    && (i == s.pc[b] ==> s.phase[f.task] == Open || s.phase[f.task] == Stored(f.code) || s.phase[f.task] == Last(f.code))
    && (i > s.pc[b] ==> s.phase[f.task] == Open)
  }

  ghost predicate SysInv(sys: System, s: State) {
    && Inv(sys.owner, s) && |s.ret| == sys.ranges
    && |s.pc| == |sys.programs| && (forall b :: 0 <= b < |s.pc| ==> s.pc[b] <= |sys.programs[b]|)
    && (forall b, i :: 0 <= b < |sys.programs| && 0 <= i < |sys.programs[b]| ==> InPlace(sys, s, b, i))
  }

  lemma {:induction false} InitInv(sys: System, s: State)
    requires WellFormed(sys) && Init(sys, s)
    ensures SysInv(sys, s)
  {
    forall r | 0 <= r < sys.ranges
      ensures Accounted(sys.owner, s, r)
    {
      TallyZero(sys.owner, s.phase, r, Lasts);
      TallyOpen(sys.owner, s.phase, r);
    }
  }

  lemma {:induction false} StaysInPlace(sys: System, s: State, m: State, s': State, b: nat, c: nat, i: nat)
    requires WellFormed(sys) && SysInv(sys, s) && b < |sys.programs| && s.pc[b] < |sys.programs[b]|
    requires c < |sys.programs| && i < |sys.programs[c]|
    requires
      var f := sys.programs[b][s.pc[b]];
      TaskStep(sys.owner, s, m, f.task, f.code) && Advanced(s, m, s', b, f.task)
    ensures |s'.pc| == |sys.programs| && InPlace(sys, s', c, i)
  {
    var f, g := sys.programs[b][s.pc[b]], sys.programs[c][i];
    assert InPlace(sys, s, b, s.pc[b]) && InPlace(sys, s, c, i);
    assert AppearsAt(sys, b, s.pc[b], f.task) && AppearsAt(sys, c, i, g.task);
    hide Inv, WellFormed;
    if g.task == f.task {
      assert b == c && i == s.pc[b];
    } else {
      assert s'.phase[g.task] == s.phase[g.task];
    }
  }

  lemma {:induction false} ThreadKeepsInv(sys: System, s: State, s': State, b: nat)
    requires WellFormed(sys) && SysInv(sys, s) && ThreadStep(sys, s, s', b)
    ensures SysInv(sys, s')
  {
    var f := sys.programs[b][s.pc[b]];
    var m: State :| TaskStep(sys.owner, s, m, f.task, f.code) && Advanced(s, m, s', b, f.task);
    StepKeepsInv(sys.owner, s, m, f.task, f.code);
    PcIrrelevant(sys.owner, m, s');
    forall c, i | 0 <= c < |sys.programs| && 0 <= i < |sys.programs[c]|
      ensures |s'.pc| == |sys.programs| && InPlace(sys, s', c, i)
    {
      StaysInPlace(sys, s, m, s', b, c, i);
    }
    hide Inv, InPlace, WellFormed;
  }

  lemma {:induction false} PcIrrelevant(owner: seq<nat>, m: State, s': State)
    requires Inv(owner, m) && s' == m.(pc := s'.pc)
    ensures Inv(owner, s')
  {
    forall r | 0 <= r < |s'.ret|
      ensures Accounted(owner, s', r) && Truthful(owner, s', r)
    {
      assert Accounted(owner, m, r) && Truthful(owner, m, r);
    }
    forall i | 0 <= i < |s'.responses|
      ensures Settled(owner, s', s'.responses[i])
    {
      assert Settled(owner, m, m.responses[i]);
    }
  }

  lemma {:induction false} Reachable(sys: System, run: seq<State>, n: nat)
    requires WellFormed(sys) && Run(sys, run) && n < |run|
    ensures SysInv(sys, run[n])
  {
    if n == 0 {
      InitInv(sys, run[0]);
    } else {
      Reachable(sys, run, n - 1);
      var b: nat :| ThreadStep(sys, run[n - 1], run[n], b);
      ThreadKeepsInv(sys, run[n - 1], run[n], b);
    }
  }

  /* ---- what every schedule gives ---- */

  ghost predicate CodeFor(sys: System, r: nat, code: Code) {
    exists b, i :: && 0 <= b < |sys.programs| && 0 <= i < |sys.programs[b]| && sys.programs[b][i].task < |sys.owner|
                   && sys.owner[sys.programs[b][i].task] == r && sys.programs[b][i].code == code
  }

  /** The answer agrees with what the batches decided about the tasks of that range. */
  ghost predicate Honest(sys: System, x: Response) {
    && (x.code.Success? ==> forall e: nat :: !CodeFor(sys, x.range, Failed(e)))
    && (x.code.Failed? ==> CodeFor(sys, x.range, x.code))
  }

  lemma {:induction false} TaskCounted(sys: System, s: State, b: nat, i: nat)
    requires WellFormed(sys) && SysInv(sys, s) && b < |sys.programs| && i < |sys.programs[b]|
    requires Tally(sys.owner, s.phase, sys.owner[sys.programs[b][i].task], Waits) == 0
    ensures
      var f := sys.programs[b][i];
      s.phase[f.task] == Last(f.code) || s.phase[f.task] == Closed(f.code)
  {
    var t := sys.programs[b][i].task;
    var r := sys.owner[t];
    assert InPlace(sys, s, b, i);
    TallyAtLeast(sys.owner, s.phase, r, Waits, t);
  }

  lemma {:induction false} PhaseHasProgram(sys: System, s: State, t: nat) returns (b: nat, i: nat)
    requires WellFormed(sys) && SysInv(sys, s) && t < |sys.owner|
    ensures b < |sys.programs| && i < |sys.programs[b]| && sys.programs[b][i].task == t
    ensures s.phase[t].Open? || s.phase[t].code == sys.programs[b][i].code
  {
    assert Appears(sys, t);
    b, i :| AppearsAt(sys, b, i, t);
    assert InPlace(sys, s, b, i);
  }

  /** At every moment of every schedule, each range of up to 2^32 tasks has at most one response, and a
      response given is honest: Success only if every batch finished its part with Success, an error only
      if one did. */
  lemma {:induction false} AtMostOneHonestResponse(sys: System, run: seq<State>)
    requires WellFormed(sys) && Run(sys, run)
    ensures
      var s := run[|run| - 1];
      && (forall r :: 0 <= r < sys.ranges && Count(sys.owner, r) <= UNSIGNED ==> Answers(s.responses, r) <= 1)
      && (forall k :: 0 <= k < |s.responses| ==> s.responses[k].range < sys.ranges)
      && (forall k :: 0 <= k < |s.responses| && Count(sys.owner, s.responses[k].range) <= UNSIGNED ==> Honest(sys, s.responses[k]))
  {
    Reachable(sys, run, |run| - 1);
    var s := run[|run| - 1];
    forall r | 0 <= r < sys.ranges && Count(sys.owner, r) <= UNSIGNED
      ensures Answers(s.responses, r) <= 1
    {
      assert Accounted(sys.owner, s, r);
      OnesOf(Count(sys.owner, r));
    }
    forall k | 0 <= k < |s.responses|
      ensures s.responses[k].range < sys.ranges
      ensures Count(sys.owner, s.responses[k].range) <= UNSIGNED ==> Honest(sys, s.responses[k])
    {
      assert Settled(sys.owner, s, s.responses[k]);
      if Count(sys.owner, s.responses[k].range) <= UNSIGNED { SettledIsHonest(sys, s, s.responses[k]); }
    }
  }

  lemma {:induction false} SettledIsHonest(sys: System, s: State, x: Response)
    requires WellFormed(sys) && SysInv(sys, s) && Settled(sys.owner, s, x) && Count(sys.owner, x.range) <= UNSIGNED
    ensures Honest(sys, x)
  {
    assert Truthful(sys.owner, s, x.range);
    if x.code.Success? {
      forall e: nat
        ensures !CodeFor(sys, x.range, Failed(e))
      {
        SuccessMeansNoFailure(sys, s, x, e);
      }
    } else {
      var t :| 0 <= t < |sys.owner| && sys.owner[t] == x.range && !s.phase[t].Open? && s.phase[t].code == s.ret[x.range];
      var b, i := PhaseHasProgram(sys, s, t);
      assert CodeFor(sys, x.range, x.code);
    }
  }

  lemma {:induction false} SuccessMeansNoFailure(sys: System, s: State, x: Response, e: nat)
    requires WellFormed(sys) && SysInv(sys, s) && Settled(sys.owner, s, x) && Count(sys.owner, x.range) <= UNSIGNED
    requires x.code.Success?
    ensures !CodeFor(sys, x.range, Failed(e))
  {
    assert Truthful(sys.owner, s, x.range);
    forall b, i | 0 <= b < |sys.programs| && 0 <= i < |sys.programs[b]| && sys.owner[sys.programs[b][i].task] == x.range
      ensures sys.programs[b][i].code.Success?
    {
      TaskCounted(sys, s, b, i);
    }
  }

  ghost predicate AllDone(sys: System, s: State) {
    |s.pc| == |sys.programs| && forall b :: 0 <= b < |s.pc| ==> s.pc[b] == |sys.programs[b]|
  }

  lemma {:induction false} AllClosed(sys: System, s: State)
    requires WellFormed(sys) && SysInv(sys, s) && AllDone(sys, s)
    ensures forall t :: 0 <= t < |sys.owner| ==> s.phase[t].Closed?
  {
    forall t | 0 <= t < |sys.owner|
      ensures s.phase[t].Closed?
    {
      assert Appears(sys, t);
      var b, i :| AppearsAt(sys, b, i, t);
      assert InPlace(sys, s, b, i);
    }
  }

  /** Once every batch is through, each range - of no bytes or many - has one response for every 2^32 tasks
      begun: exactly one if and only if it has no more than that. And that one is Success if and only if
      every batch finished its part of the range with Success. */
  lemma {:induction false} ExactlyOneResponse(sys: System, run: seq<State>, r: nat)
    requires WellFormed(sys) && Run(sys, run) && AllDone(sys, run[|run| - 1]) && r < sys.ranges
    ensures
      var s := run[|run| - 1];
      && Answers(s.responses, r) == Ones(Count(sys.owner, r))
      && (Answers(s.responses, r) == 1 <==> Count(sys.owner, r) <= UNSIGNED)
      && (Count(sys.owner, r) <= UNSIGNED ==> (Response(r, Success) in s.responses <==> forall e: nat :: !CodeFor(sys, r, Failed(e))))
  {
    Reachable(sys, run, |run| - 1);
    var s := run[|run| - 1];
    AllClosed(sys, s);
    assert Accounted(sys.owner, s, r) && HasTask(sys.owner, r);
    var t :| 0 <= t < |sys.owner| && sys.owner[t] == r;
    CountPositive(sys.owner, r, t);
    TallyZero(sys.owner, s.phase, r, Waits);
    TallyZero(sys.owner, s.phase, r, Lasts);
    OnesOf(Count(sys.owner, r));
    OnesOf(0);
    if Count(sys.owner, r) <= UNSIGNED { OneIsHonest(sys, s, r); }
    hide *;
  }

  lemma {:induction false} OneIsHonest(sys: System, s: State, r: nat)
    requires WellFormed(sys) && SysInv(sys, s) && Answers(s.responses, r) > 0 && Count(sys.owner, r) <= UNSIGNED
    ensures Response(r, Success) in s.responses <==> forall e: nat :: !CodeFor(sys, r, Failed(e))
  {
    var k := AnswerAt(s.responses, r);
    assert Settled(sys.owner, s, s.responses[k]);
    SettledIsHonest(sys, s, s.responses[k]);
    forall x | x in s.responses && x.range == r
      ensures x == s.responses[k]
    {
      var l :| 0 <= l < |s.responses| && s.responses[l] == x;
      assert Settled(sys.owner, s, s.responses[l]);
    }
  }

  lemma {:induction false} AnswerAt(responses: seq<Response>, r: nat) returns (k: nat)
    requires Answers(responses, r) > 0
    ensures k < |responses| && responses[k].range == r
  {
    k := |responses| - 1;
    if responses[k].range != r { k := AnswerAt(responses[..k], r); }
  }

  ghost predicate CanStep(sys: System, s: State, b: nat) { exists s' :: ThreadStep(sys, s, s', b) }

  function Work(phase: seq<Phase>): nat {
    if phase == [] then 0 else Work(phase[..|phase| - 1]) + Steps(phase[|phase| - 1])
  }

  lemma {:induction false} WorkUpdate(phase: seq<Phase>, t: nat, p: Phase)
    requires t < |phase|
    ensures Work(phase[t := p]) + Steps(phase[t]) == Work(phase) + Steps(p)
  {
    var n := |phase| - 1;
    if t == n {
      assert phase[t := p][..n] == phase[..n];
    } else {
      assert phase[t := p][..n] == phase[..n][t := p];
      WorkUpdate(phase[..n], t, p);
    }
  }

  lemma {:induction false} WorkOfOpen(phase: seq<Phase>)
    requires forall t :: 0 <= t < |phase| ==> phase[t] == Open
    ensures Work(phase) == 3 * |phase|
  {
    if phase != [] { WorkOfOpen(phase[..|phase| - 1]); }
  }

  /** A thread that is not through can always take a step: nothing ever waits for another thread. */
  lemma {:induction false} NeverStuck(sys: System, run: seq<State>, b: nat)
    requires WellFormed(sys) && Run(sys, run) && b < |sys.programs|
    requires var s := run[|run| - 1]; |s.pc| == |sys.programs| && s.pc[b] < |sys.programs[b]|
    ensures CanStep(sys, run[|run| - 1], b)
  {
    Reachable(sys, run, |run| - 1);
    var s := run[|run| - 1];
    var f := sys.programs[b][s.pc[b]];
    var r := sys.owner[f.task];
    assert InPlace(sys, s, b, s.pc[b]);
    hide Accounted, Truthful, Settled, WellFormed;
    var m := match s.phase[f.task]
      case Open => s.(phase := s.phase[f.task := Stored(f.code)], ret := if f.code.Success? then s.ret else s.ret[r := f.code])
      case Stored(c) => s.(phase := s.phase[f.task := if s.remaining[r] == 1 then Last(c) else Closed(c)],
                           remaining := s.remaining[r := if s.remaining[r] == 0 then UNSIGNED - 1 else s.remaining[r] - 1])
      case Last(c) => s.(phase := s.phase[f.task := Closed(c)], responses := s.responses + [Response(r, s.ret[r])])
      case Closed(_) => s;
    assert TaskStep(sys.owner, s, m, f.task, f.code);
    var s' := m.(pc := if m.phase[f.task].Closed? then s.pc[b := s.pc[b] + 1] else s.pc);
    assert Advanced(s, m, s', b, f.task);
    assert ThreadStep(sys, s, s', b);
  }

  /** Every schedule ends, after at most three steps a task. */
  lemma {:induction false} RunBounded(sys: System, run: seq<State>, n: nat)
    requires WellFormed(sys) && Run(sys, run) && n < |run|
    ensures n + Work(run[n].phase) <= 3 * |sys.owner|
  {
    if n == 0 {
      WorkOfOpen(run[0].phase);
    } else {
      hide WellFormed, Init, ThreadStep, Work;
      RunBounded(sys, run, n - 1);
      var s, s' := run[n - 1], run[n];
      var b: nat :| ThreadStep(sys, s, s', b);
      StepWorks(sys, s, s', b);
    }
  }

  lemma {:induction false} StepWorks(sys: System, s: State, s': State, b: nat)
    requires ThreadStep(sys, s, s', b)
    ensures Work(s'.phase) < Work(s.phase)
  {
    var f := sys.programs[b][s.pc[b]];
    var m: State :| TaskStep(sys.owner, s, m, f.task, f.code) && Advanced(s, m, s', b, f.task);
    assert s'.phase == s.phase[f.task := s'.phase[f.task]];
    WorkUpdate(s.phase, f.task, s'.phase[f.task]);
  }
}
