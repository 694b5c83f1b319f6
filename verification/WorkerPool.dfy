/** The shared deque (utils/deque) and the threads that take from it (utils/threadpool), until the pool
    is destroyed. Every method is split at its lock and semaphore boundaries. */
module WorkerPool {
  import opened Sequences

  /** Where a thread is: between two messages, parked in pop, past the semaphore of pop or try_pop, with
      a message whose flag is still to be read, past that reading and on its way into the handler, or
      returned from its routine. */
  datatype Thread = Ready | Parked | Took(blocking: bool) | Holds(message: nat) | Calling(message: nat) | Exited

  datatype State = State(perWorker: bool,      // threads own a worker each and use try_pop
                         deque: seq<nat>, sem: nat, dequeStopped: bool,
                         stopping: bool,       // the pool's flag
                         owed: nat,            // pushes past the lock, post still to come
                         stopPosts: nat,       // posts stop has still to make
                         threads: seq<Thread>,
                         pushed: seq<nat>, taken: seq<nat>, handled: seq<nat>, dropped: seq<nat>)

  datatype Step =
    | Push(message: nat)
    | PushPost
    | RaiseFlag
    | StopDeque
    | StopPost
    | Try(thread: nat)
    | Park(thread: nat)
    | Wake(thread: nat)
    | Lock(thread: nat)
    | Check(thread: nat)
    | Call(thread: nat)

  function Started(perWorker: bool, size: nat): State {
    State(perWorker, [], 0, false, false, 0, 0, seq(size, _ => Ready), [], [], [], [])
  }

  predicate Enabled(s: State, step: Step) {
    match step
    case Push(_) => !s.dequeStopped
    case PushPost => s.owed > 0
    case RaiseFlag => true
    case StopDeque => s.stopping && !s.dequeStopped
    case StopPost => s.stopPosts > 0
    case Try(t) => t < |s.threads| && s.threads[t].Ready? && s.perWorker
    case Park(t) => t < |s.threads| && s.threads[t].Ready?
    case Wake(t) => t < |s.threads| && s.threads[t].Parked? && s.sem > 0
    case Lock(t) => t < |s.threads| && s.threads[t].Took?
    case Check(t) => t < |s.threads| && s.threads[t].Holds?
    case Call(t) => t < |s.threads| && s.threads[t].Calling?
  }

  function Next(s: State, step: Step): State
    requires Enabled(s, step)
  {
    match step
    case Push(m) => s.(deque := s.deque + [m], owed := s.owed + 1, pushed := s.pushed + [m])
    case PushPost => s.(owed := s.owed - 1, sem := s.sem + 1)
    case RaiseFlag => s.(stopping := true)
    case StopDeque => s.(dequeStopped := true, stopPosts := |s.threads|)
    case StopPost => s.(stopPosts := s.stopPosts - 1, sem := s.sem + 1)
    case Try(t) => if s.sem == 0 then s else s.(sem := s.sem - 1, threads := s.threads[t := Took(false)])
    case Park(t) => s.(threads := s.threads[t := Parked])
    case Wake(t) => s.(sem := s.sem - 1, threads := s.threads[t := Took(true)])
    case Lock(t) =>
      if s.dequeStopped then
        if s.threads[t].blocking then s.(threads := s.threads[t := Exited])
        else s.(sem := s.sem + 1, threads := s.threads[t := Ready]) // try_pop puts the stop token back
      else if s.deque == [] then s // reading the front of an empty deque; PopNeverEmpty shows it never happens
      else s.(deque := s.deque[1..], taken := s.taken + [s.deque[0]], threads := s.threads[t := Holds(s.deque[0])])
    case Check(t) =>
      var m := s.threads[t].message;
      if s.stopping then s.(dropped := s.dropped + [m], threads := s.threads[t := if s.perWorker then Ready else Exited])
      else s.(threads := s.threads[t := Calling(m)])
    case Call(t) =>
      s.(handled := s.handled + [s.threads[t].message], threads := s.threads[t := Ready])
  }

  /** How often a log has a message. */
  function Times(log: seq<nat>, m: nat): nat { multiset(log)[m] }

  lemma {:induction false} TimesAppend(log: seq<nat>, x: nat, m: nat)
    ensures Times(log + [x], m) == Times(log, m) + if x == m then 1 else 0
  {
  }

  /** Whether a thread has the message taken and not handed on, and whether it is past reading the flag. */
  function InHand(m: nat): Thread -> nat {
    (t: Thread) => if (t.Holds? || t.Calling?) && t.message == m then 1 else 0
  }

  function Checked(m: nat): Thread -> nat {
    (t: Thread) => if t.Calling? && t.message == m then 1 else 0
  }

  function AtCall(t: Thread): nat { if t.Calling? then 1 else 0 }

  function HoldsToken(t: Thread): nat { if t.Took? then 1 else 0 }

  function Alive(t: Thread): nat { if t.Exited? then 0 else 1 }

  function Held(s: State): nat { Weight(s.threads, HoldsToken) }

  function Live(s: State): nat { Weight(s.threads, Alive) }

  /** Before stop the deque is as long as its tokens; after it there are tokens for every live thread. */
  ghost predicate Inv(s: State) {
    && s.pushed == s.taken + s.deque
    && (s.dequeStopped ==> s.stopping)
    && (!s.dequeStopped ==> |s.deque| == s.sem + s.owed + Held(s) && s.stopPosts == 0)
    && (s.dequeStopped ==> s.sem + s.owed + s.stopPosts + Held(s) >= Live(s))
  }

  /** However often a message was taken, so often it has been handled, has been dropped because of the
      flag, or is in the hands of a thread. */
  ghost predicate Kept(s: State, m: nat) {
    Times(s.taken, m) == Times(s.handled, m) + Times(s.dropped, m) + Weight(s.threads, InHand(m))
  }

  lemma {:induction false} AtMostAll(threads: seq<Thread>)
    ensures Weight(threads, Alive) <= |threads|
  {
    if threads != [] { AtMostAll(threads[..|threads| - 1]); }
  }

  lemma {:induction false} ThreadMoves(s: State, t: nat, next: Thread)
    requires t < |s.threads|
    ensures Weight(s.threads[t := next], HoldsToken) + HoldsToken(s.threads[t]) == Held(s) + HoldsToken(next)
    ensures Weight(s.threads[t := next], Alive) + Alive(s.threads[t]) == Live(s) + Alive(next)
  {
    WeightUpdate(s.threads, HoldsToken, t, next);
    WeightUpdate(s.threads, Alive, t, next);
  }

  lemma {:induction false} StepKeepsInv(s: State, step: Step)
    requires Inv(s) && Enabled(s, step)
    ensures Inv(Next(s, step))
  {
    hide Weight;
    match step
    case Push(m) =>
      assert s.taken + (s.deque + [m]) == (s.taken + s.deque) + [m];
    case StopDeque =>
      AtMostAll(s.threads);
    case Try(t) => ThreadMoves(s, t, Took(false));
    case Park(t) => ThreadMoves(s, t, Parked);
    case Wake(t) => ThreadMoves(s, t, Took(true));
    case Lock(t) =>
      if s.dequeStopped {
        ThreadMoves(s, t, if s.threads[t].blocking then Exited else Ready);
      } else if s.deque != [] {
        ThreadMoves(s, t, Holds(s.deque[0]));
        assert (s.taken + [s.deque[0]]) + s.deque[1..] == s.taken + s.deque;
      }
    case Check(t) =>
      ThreadMoves(s, t, Next(s, step).threads[t]);
    case Call(t) =>
      ThreadMoves(s, t, Ready);
    case _ =>
  }

  predicate OfThread(step: Step) {
    step.Try? || step.Park? || step.Wake? || step.Lock? || step.Check? || step.Call?
  }

  lemma {:induction false} OneThreadMoves(s: State, step: Step)
    requires Enabled(s, step) && OfThread(step)
    ensures step.thread < |s.threads| && Next(s, step).threads == s.threads[step.thread := Next(s, step).threads[step.thread]]
  {
  }

  /** What a thread's step does to the logs is what it does to the message in its hands. */
  ghost predicate Follows(s: State, s': State, before: Thread, after: Thread, m: nat) {
    && Times(s'.taken, m) - Times(s'.handled, m) - Times(s'.dropped, m) - InHand(m)(after)
       == Times(s.taken, m) - Times(s.handled, m) - Times(s.dropped, m) - InHand(m)(before)
    && (s.stopping ==>
          && s'.stopping && Times(s'.handled, m) + Checked(m)(after) == Times(s.handled, m) + Checked(m)(before)
          && |s'.handled| + AtCall(after) == |s.handled| + AtCall(before))
  }

  lemma {:induction false} TakenFollows(s: State, t: nat, m: nat)
    requires Enabled(s, Lock(t))
    ensures Follows(s, Next(s, Lock(t)), s.threads[t], Next(s, Lock(t)).threads[t], m)
  {
    hide Times;
    if s.dequeStopped || s.deque == [] {
    } else {
      TimesAppend(s.taken, s.deque[0], m);
    }
  }

  lemma {:induction false} CheckedFollows(s: State, t: nat, m: nat)
    requires Enabled(s, Check(t))
    ensures Follows(s, Next(s, Check(t)), s.threads[t], Next(s, Check(t)).threads[t], m)
  {
    TimesAppend(s.dropped, s.threads[t].message, m);
    hide Times;
  }

  lemma {:induction false} CalledFollows(s: State, t: nat, m: nat)
    requires Enabled(s, Call(t))
    ensures Follows(s, Next(s, Call(t)), s.threads[t], Next(s, Call(t)).threads[t], m)
  {
    TimesAppend(s.handled, s.threads[t].message, m);
    hide Times;
  }

  lemma {:induction false} WaitFollows(s: State, step: Step, m: nat)
    requires Enabled(s, step) && (step.Try? || step.Park? || step.Wake?)
    ensures Follows(s, Next(s, step), s.threads[step.thread], Next(s, step).threads[step.thread], m)
  {
    hide Times;
  }

  lemma {:induction false} LogsFollow(s: State, step: Step, m: nat)
    requires Enabled(s, step) && OfThread(step) && step.thread < |s.threads|
    ensures |Next(s, step).threads| == |s.threads|
    ensures Follows(s, Next(s, step), s.threads[step.thread], Next(s, step).threads[step.thread], m)
  {
    OneThreadMoves(s, step);
    hide Follows, Next;
    match step
    case Lock(t) => TakenFollows(s, t, m);
    case Check(t) => CheckedFollows(s, t, m);
    case Call(t) => CalledFollows(s, t, m);
    case _ => WaitFollows(s, step, m);
  }

  /** A thread's step moves its message and no other. */
  lemma {:induction false} StepKeepsMessages(s: State, step: Step, m: nat)
    requires Kept(s, m) && Enabled(s, step)
    ensures Kept(Next(s, step), m)
    ensures s.stopping ==> Next(s, step).stopping && SameWork(s, Next(s, step), m)
  {
    if OfThread(step) {
      OneThreadMoves(s, step);
      var t, next := step.thread, Next(s, step).threads[step.thread];
      LogsFollow(s, step, m);
      WeightUpdate(s.threads, InHand(m), t, next);
      WeightUpdate(s.threads, Checked(m), t, next);
      WeightUpdate(s.threads, AtCall, t, next);
      hide Next, Enabled, OfThread, Weight, InHand, Checked, Times;
    }
  }

  /** Between two states the messages handed on and those past the reading of the flag are the same. */
  ghost predicate SameWork(s: State, s': State, m: nat) {
    && Times(s'.handled, m) + Weight(s'.threads, Checked(m)) == Times(s.handled, m) + Weight(s.threads, Checked(m))
    && |s'.handled| + Weight(s'.threads, AtCall) == |s.handled| + Weight(s.threads, AtCall)
  }

  ghost predicate Run(states: seq<State>, steps: seq<Step>) {
    && |states| == |steps| + 1
    && (exists perWorker: bool, size: nat :: states[0] == Started(perWorker, size))
    && forall i :: 0 <= i < |steps| ==> Enabled(states[i], steps[i]) && states[i + 1] == Next(states[i], steps[i])
  }

  lemma {:induction false} NoneHeld(size: nat)
    ensures Weight(seq(size, _ => Ready), HoldsToken) == 0
  {
    WeightZero(seq(size, _ => Ready), HoldsToken);
  }

  lemma {:induction false} Reachable(states: seq<State>, steps: seq<Step>, n: nat)
    requires Run(states, steps) && n < |states|
    ensures Inv(states[n])
  {
    if n == 0 {
      var perWorker: bool, size: nat :| states[0] == Started(perWorker, size);
      NoneHeld(size);
    } else {
      Reachable(states, steps, n - 1);
      StepKeepsInv(states[n - 1], steps[n - 1]);
    }
  }

  lemma {:induction false} ReachableKept(states: seq<State>, steps: seq<Step>, n: nat, m: nat)
    requires Run(states, steps) && n < |states|
    ensures Kept(states[n], m)
  {
    if n == 0 {
      WeightZero(states[0].threads, InHand(m));
    } else {
      ReachableKept(states, steps, n - 1, m);
      StepKeepsMessages(states[n - 1], steps[n - 1], m);
    }
  }

  lemma {:induction false} Counted(threads: seq<Thread>, f: Thread -> nat, t: nat)
    requires t < |threads|
    ensures f(threads[t]) <= Weight(threads, f)
  {
    WeightAtLeast(threads, f, t);
  }

  /** No pop reads an empty deque: a thread past the semaphore of a deque not stopped finds a message. */
  lemma {:induction false} PopNeverEmpty(states: seq<State>, steps: seq<Step>, t: nat)
    requires Run(states, steps)
    ensures
      var s := states[|steps|];
      Enabled(s, Lock(t)) && !s.dequeStopped ==> s.deque != [] && Next(s, Lock(t)).threads[t] == Holds(s.deque[0])
  {
    Reachable(states, steps, |steps|);
    var s := states[|steps|];
    if t < |s.threads| { Counted(s.threads, HoldsToken, t); }
  }

  /** Each message goes one way only: taken at most once, in the order it was pushed, and then either
      handed to a handler once, dropped once because of the flag, or still in the hands of one thread. */
  lemma {:induction false} EachMessageOnce(states: seq<State>, steps: seq<Step>, m: nat)
    requires Run(states, steps)
    ensures
      var s := states[|steps|];
      && s.taken + s.deque == s.pushed
      && Times(s.pushed, m) == Times(s.handled, m) + Times(s.dropped, m) + Weight(s.threads, InHand(m)) + Times(s.deque, m)
  {
    Reachable(states, steps, |steps|);
    ReachableKept(states, steps, |steps|, m);
    var s := states[|steps|];
    assert multiset(s.taken + s.deque) == multiset(s.taken) + multiset(s.deque);
  }

  /** After stop there are at least as many tokens - available, held, or still to be posted - as threads
      that have not returned: putting one back in try_pop never costs another thread its own. */
  lemma {:induction false} TokensForAll(states: seq<State>, steps: seq<Step>)
    requires Run(states, steps)
    ensures
      var s := states[|steps|];
      s.dequeStopped ==> s.sem + s.owed + s.stopPosts + Held(s) >= Live(s)
  {
    Reachable(states, steps, |steps|);
  }

  /** Shutdown is complete. Once the deque is stopped, a parked thread is never left there: while it is
      parked some post is still to come, some thread is about to give its token up or return, or the
      thread itself can wake; and a thread that wakes returns. */
  lemma {:induction false} NobodyLeftParked(states: seq<State>, steps: seq<Step>, t: nat)
    requires Run(states, steps)
    requires
      var s := states[|steps|];
      s.dequeStopped && t < |s.threads| && s.threads[t].Parked?
    ensures
      var s := states[|steps|];
      && (Enabled(s, PushPost) || Enabled(s, StopPost) || Enabled(s, Wake(t)) || exists u :: Enabled(s, Lock(u)))
      && (Enabled(s, Wake(t)) ==> Next(Next(s, Wake(t)), Lock(t)).threads[t] == Exited)
  {
    Reachable(states, steps, |steps|);
    var s := states[|steps|];
    Counted(s.threads, Alive, t);
    if Held(s) > 0 {
      WeightPositive(s.threads, HoldsToken);
      var x :| x in s.threads && HoldsToken(x) > 0;
      var u: nat :| u < |s.threads| && s.threads[u] == x;
      assert Enabled(s, Lock(u));
    }
  }

  /** How far a thread is from returning once the deque is stopped. */
  function StepsLeft(t: Thread): nat {
    match t
    case Holds(_) => 5
    case Calling(_) => 4
    case Took(blocking) => if blocking then 1 else 4
    case Ready => 3
    case Parked => 2
    case Exited => 0
  }

  function Rank(s: State): nat { Weight(s.threads, StepsLeft) + s.owed + s.stopPosts }

  lemma {:induction false} RankFalls(s: State, step: Step)
    requires s.dequeStopped && s.stopping && Enabled(s, step) && step != RaiseFlag
    ensures if step.Try? then Rank(Next(s, step)) <= Rank(s) + 1 else Rank(Next(s, step)) < Rank(s)
  {
    if OfThread(step) {
      var t, next := step.thread, Next(s, step).threads[step.thread];
      WeightUpdate(s.threads, StepsLeft, t, next);
      assert Next(s, step).threads == s.threads[t := next];
    }
    hide Weight;
  }

  /** So shutdown ends. While a thread has not returned some step other than a try can be taken, every
      such step brings the end nearer, and a try, which a worker makes between two drains of what it has
      in flight, puts it off by one at most: when no step is left, every thread has returned. */
  lemma {:induction false} ShutdownEnds(states: seq<State>, steps: seq<Step>, t: nat) returns (step: Step)
    requires Run(states, steps)
    requires states[|steps|].dequeStopped && t < |states[|steps|].threads| && !states[|steps|].threads[t].Exited?
    ensures Enabled(states[|steps|], step) && step != RaiseFlag && !step.Try?
    ensures forall any :: Enabled(states[|steps|], any) && any != RaiseFlag ==>
      if any.Try? then Rank(Next(states[|steps|], any)) <= Rank(states[|steps|]) + 1
      else Rank(Next(states[|steps|], any)) < Rank(states[|steps|])
  {
    Reachable(states, steps, |steps|);
    var s := states[|steps|];
    forall any | Enabled(s, any) && any != RaiseFlag
      ensures if any.Try? then Rank(Next(s, any)) <= Rank(s) + 1 else Rank(Next(s, any)) < Rank(s)
    {
      RankFalls(s, any);
    }
    step := Progress(states, steps, t);
  }

  /** How many of the steps from i up to j are tries, and how many are any other but raising the flag. */
  function Tries(steps: seq<Step>, i: nat, j: nat): nat
    requires i <= j <= |steps|
    decreases j
  {
    if i == j then 0 else Tries(steps, i, j - 1) + if steps[j - 1].Try? then 1 else 0
  }

  function Others(steps: seq<Step>, i: nat, j: nat): nat
    requires i <= j <= |steps|
    decreases j
  {
    if i == j then 0 else Others(steps, i, j - 1) + if steps[j - 1].Try? || steps[j - 1].RaiseFlag? then 0 else 1
  }

  lemma {:induction false} StepsAreCounted(states: seq<State>, steps: seq<Step>, i: nat, j: nat)
    requires Run(states, steps) && i <= j <= |steps| && states[i].dequeStopped
    ensures states[j].dequeStopped
    ensures Rank(states[j]) + Others(steps, i, j) <= Rank(states[i]) + Tries(steps, i, j)
    decreases j - i
  {
    if i < j {
      StepsAreCounted(states, steps, i, j - 1);
      Reachable(states, steps, j - 1);
      StaysStopped(states[j - 1], steps[j - 1]);
      if steps[j - 1] != RaiseFlag { RankFalls(states[j - 1], steps[j - 1]); }
      hide Next, Enabled, Rank, Inv;
    }
  }

  lemma {:induction false} StaysStopped(s: State, step: Step)
    requires Enabled(s, step) && s.dequeStopped && Inv(s)
    ensures Next(s, step).dequeStopped && s.stopping
    ensures step.RaiseFlag? ==> Rank(Next(s, step)) == Rank(s)
  {
  }

  /** A shutdown with only finitely many tries ends, whatever the order: from the moment the deque is
      stopped, the other steps are no more than the rank and the tries together, and once as many have been
      taken every thread has returned. */
  lemma {:induction false} ShutdownBounded(states: seq<State>, steps: seq<Step>, i: nat, j: nat, t: nat)
    requires Run(states, steps) && i <= j <= |steps| && states[i].dequeStopped
    ensures Others(steps, i, j) <= Rank(states[i]) + Tries(steps, i, j)
    ensures Others(steps, i, j) == Rank(states[i]) + Tries(steps, i, j) && t < |states[j].threads| ==> states[j].threads[t].Exited?
  {
    StepsAreCounted(states, steps, i, j);
    if t < |states[j].threads| { Counted(states[j].threads, StepsLeft, t); }
  }

  lemma {:induction false} Progress(states: seq<State>, steps: seq<Step>, t: nat) returns (step: Step)
    requires Run(states, steps)
    requires states[|steps|].dequeStopped && t < |states[|steps|].threads| && !states[|steps|].threads[t].Exited?
    ensures Enabled(states[|steps|], step) && step != RaiseFlag && !step.Try?
  {
    var s := states[|steps|];
    match s.threads[t]
    case Ready => step := Park(t);
    case Took(_) => step := Lock(t);
    case Holds(_) => step := Check(t);
    case Calling(_) => step := Call(t);
    case Parked =>
      NobodyLeftParked(states, steps, t);
      if Enabled(s, PushPost) {
        step := PushPost;
      } else if Enabled(s, StopPost) {
        step := StopPost;
      } else if Enabled(s, Wake(t)) {
        step := Wake(t);
      } else {
        var u :| Enabled(s, Lock(u));
        step := Lock(u);
      }
  }

  /** From the moment the flag is raised the messages handed on and those past its reading are the same
      ones. So a message taken later is never handled, and each thread hands on at most the one message
      whose reading of the flag came before. */
  lemma {:induction false} OnlyCheckedWork(states: seq<State>, steps: seq<Step>, i: nat, j: nat, m: nat)
    requires Run(states, steps) && i <= j < |states| && states[i].stopping
    ensures states[j].stopping && SameWork(states[i], states[j], m)
    ensures Times(states[j].handled, m) <= Times(states[i].handled, m) + Weight(states[i].threads, Checked(m))
    ensures |states[j].handled| <= |states[i].handled| + |states[i].threads|
    decreases j - i
  {
    if i < j {
      OnlyCheckedWork(states, steps, i, j - 1, m);
      ReachableKept(states, steps, j - 1, m);
      StepKeepsMessages(states[j - 1], steps[j - 1], m);
    }
    OneEach(states[i].threads);
    hide Next, Enabled, Weight, Kept, Times;
  }

  lemma {:induction false} OneEach(threads: seq<Thread>)
    ensures Weight(threads, AtCall) <= |threads|
  {
    if threads != [] { OneEach(threads[..|threads| - 1]); }
  }

  /** The one thread of a pool of one, with its one message. */
  function Alone(deque: seq<nat>, sem: nat, owed: nat, stopping: bool, thread: Thread, m: nat, taken: seq<nat>, handled: seq<nat>): State {
    State(false, deque, sem, false, stopping, owed, 0, [thread], [m], taken, handled, [])
  }

  ghost predicate Leads(s: State, step: Step, s': State) { Enabled(s, step) && Next(s, step) == s' }

  lemma {:induction false} AloneTakes(m: nat)
    ensures Leads(Started(false, 1), Push(m), Alone([m], 0, 1, false, Ready, m, [], []))
    ensures Leads(Alone([m], 0, 1, false, Ready, m, [], []), PushPost, Alone([m], 1, 0, false, Ready, m, [], []))
    ensures Leads(Alone([m], 1, 0, false, Ready, m, [], []), Park(0), Alone([m], 1, 0, false, Parked, m, [], []))
    ensures Leads(Alone([m], 1, 0, false, Parked, m, [], []), Wake(0), Alone([m], 0, 0, false, Took(true), m, [], []))
  {
  }

  lemma {:induction false} AloneHandles(m: nat)
    ensures Leads(Alone([m], 0, 0, false, Took(true), m, [], []), Lock(0), Alone([], 0, 0, false, Holds(m), m, [m], []))
    ensures Leads(Alone([], 0, 0, false, Holds(m), m, [m], []), Check(0), Alone([], 0, 0, false, Calling(m), m, [m], []))
    ensures Leads(Alone([], 0, 0, false, Calling(m), m, [m], []), RaiseFlag, Alone([], 0, 0, true, Calling(m), m, [m], []))
    ensures Leads(Alone([], 0, 0, true, Calling(m), m, [m], []), Call(0), Alone([], 0, 0, true, Ready, m, [m], [m]))
  {
  }

  /** And that one can be: the flag goes up between its reading and the call. */
  lemma {:induction false} FlagBetween(m: nat) returns (states: seq<State>, steps: seq<Step>, i: nat)
    ensures Run(states, steps) && i < |states| && states[i].stopping
    ensures states[i].handled == [] && states[|steps|].handled == [m]
  {
    steps := [Push(m), PushPost, Park(0), Wake(0), Lock(0), Check(0), RaiseFlag, Call(0)];
    states := [Started(false, 1),
               Alone([m], 0, 1, false, Ready, m, [], []),
               Alone([m], 1, 0, false, Ready, m, [], []),
               Alone([m], 1, 0, false, Parked, m, [], []),
               Alone([m], 0, 0, false, Took(true), m, [], []),
               Alone([], 0, 0, false, Holds(m), m, [m], []),
               Alone([], 0, 0, false, Calling(m), m, [m], []),
               Alone([], 0, 0, true, Calling(m), m, [m], []),
               Alone([], 0, 0, true, Ready, m, [m], [m])];
    i := 7;
    AloneTakes(m);
    AloneHandles(m);
    hide Enabled, Next;
  }
}
