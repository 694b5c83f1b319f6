/** The responder (common/shared_queue): many producers, one consumer, and a semaphore whose posts come
    after the lock is released. Every method is split at its lock and semaphore boundaries. */
module ResponderQueue {
  import opened Machine

  datatype Mode = FinishOnDrain | Persistent

  /** What pop last gave back; Drained and Stopped are the two reasons for FinishedError. */
  datatype Result = None | Popped(response: nat) | TimedOut | Drained | Stopped

  /** Where the consumer is inside pop. */
  datatype Consumer = Outside | Entered | Waiting | Holding

  datatype State = State(mode: Mode, running: nat, queue: seq<nat>, sem: nat, stopped: bool,
                         owed: nat,           // producers past the lock, post still to come
                         stopOwed: bool,      // stop past the lock, post still to come
                         consumer: Consumer, result: Result,
                         accepted: seq<nat>,  // every response ever queued
                         popped: seq<nat>,    // every response ever popped
                         expected: nat,       // responses announced, by the constructor and increment
                         wraps: nat)          // how often the outstanding count has passed its range

  datatype Step =
    | Increment(count: nat)
    | PushLock(response: nat)
    | PushPost
    | StopLock
    | StopPost
    | PopEnter
    | PopCheck
    | PopWait
    | PopTimeout
    | PopLock

  function Announced(mode: Mode, expected: nat): State
    requires expected < UNSIGNED
  {
    State(mode, expected, [], 0, false, 0, false, Outside, None, [], [], expected, 0)
  }

  predicate Enabled(s: State, step: Step) {
    match step
    case Increment(n) => n < UNSIGNED
    case PushLock(_) => true
    case PushPost => s.owed > 0
    case StopLock => true
    case StopPost => s.stopOwed
    case PopEnter => s.consumer.Outside?
    case PopCheck => s.consumer.Entered?
    case PopWait => s.consumer.Waiting? && s.sem > 0
    case PopTimeout => s.consumer.Waiting?
    case PopLock => s.consumer.Holding?
  }

  /** One atomic step. */
  function Next(s: State, step: Step): State
    requires Enabled(s, step)
  {
    match step
    case Increment(n) =>
      var total := s.running + n;
      if total < UNSIGNED then s.(running := total, expected := s.expected + n)
      else s.(running := total - UNSIGNED, expected := s.expected + n, wraps := s.wraps + 1)
    case PushLock(r) =>
      if s.stopped || s.running == 0 then s
      else s.(queue := s.queue + [r], running := s.running - 1, owed := s.owed + 1, accepted := s.accepted + [r])
    case PushPost =>
      s.(owed := s.owed - 1, sem := s.sem + 1)
    case StopLock =>
      if s.stopped then s else s.(stopped := true, stopOwed := true)
    case StopPost =>
      s.(stopOwed := false, sem := s.sem + 1)
    case PopEnter =>
      if s.stopped then s.(result := Stopped) else s.(consumer := Entered)
    case PopCheck =>
      if s.mode.FinishOnDrain? && s.running == 0 && s.queue == [] then s.(consumer := Outside, result := Drained)
      else s.(consumer := Waiting)
    case PopWait =>
      s.(sem := s.sem - 1, consumer := Holding)
    case PopTimeout =>
      s.(consumer := Outside, result := TimedOut)
    case PopLock =>
      if s.stopped then s.(consumer := Outside, result := Stopped)
      else if s.queue == [] then s // the assertion in the source; Reachable shows it never fires
      else s.(consumer := Outside, result := Popped(s.queue[0]), queue := s.queue[1..], popped := s.popped + [s.queue[0]])
  }

  function Held(s: State): nat { if s.consumer.Holding? then 1 else 0 }

  /** The token accounting, and what a consumer that waits can count on. */
  ghost predicate Inv(s: State) {
    && s.running < UNSIGNED
    && s.accepted == s.popped + s.queue
    && s.expected == |s.accepted| + s.running + UNSIGNED * s.wraps
    && (!s.stopped ==> |s.queue| == s.sem + s.owed + Held(s) && !s.stopOwed)
    && (s.stopped && (s.consumer.Entered? || s.consumer.Waiting?) ==> s.sem + s.owed + (if s.stopOwed then 1 else 0) > 0)
    && (s.mode.FinishOnDrain? && !s.stopped && s.consumer.Waiting? && s.wraps == 0 ==> s.running > 0 || s.queue != [])
  }

  lemma {:induction false} StepKeepsInv(s: State, step: Step)
    requires Inv(s) && Enabled(s, step)
    ensures Inv(Next(s, step))
  {
    match step
    case PushLock(r) =>
      assert s.popped + (s.queue + [r]) == (s.popped + s.queue) + [r];
    case PopLock =>
      if s.queue != [] { assert (s.popped + [s.queue[0]]) + s.queue[1..] == s.popped + s.queue; }
    case _ =>
  }

  /** A run: the steps of all threads, in any order in which each can take its next one. */
  ghost predicate Run(states: seq<State>, steps: seq<Step>) {
    && |states| == |steps| + 1
    && (exists mode: Mode, expected: nat :: expected < UNSIGNED && states[0] == Announced(mode, expected))
    && forall i :: 0 <= i < |steps| ==> Enabled(states[i], steps[i]) && states[i + 1] == Next(states[i], steps[i])
  }

  lemma {:induction false} Reachable(states: seq<State>, steps: seq<Step>, n: nat)
    requires Run(states, steps) && n < |states|
    ensures Inv(states[n])
  {
    if n > 0 {
      Reachable(states, steps, n - 1);
      StepKeepsInv(states[n - 1], steps[n - 1]);
    }
  }

  /** The emptiness assertion of pop never fires: before stop, a consumer that holds a token finds a
      response, and what it takes is the oldest not yet taken. */
  lemma {:induction false} PopNeverEmpty(states: seq<State>, steps: seq<Step>)
    requires Run(states, steps)
    ensures
      var s := states[|steps|];
      s.accepted == s.popped + s.queue &&
      (s.consumer.Holding? && !s.stopped ==>
         && s.queue != []
         && Next(s, PopLock).popped == s.popped + [s.queue[0]] && Next(s, PopLock).queue == s.queue[1..]
         && Next(s, PopLock).result == Popped(s.queue[0]))
  {
    Reachable(states, steps, |steps|);
  }

  /** Before stop the queue is as long as the semaphore's value, the posts still owed, and the token the
      consumer holds. */
  lemma {:induction false} TokensMatch(states: seq<State>, steps: seq<Step>)
    requires Run(states, steps)
    ensures
      var s := states[|steps|];
      !s.stopped ==> |s.queue| == s.sem + s.owed + Held(s)
  {
    Reachable(states, steps, |steps|);
  }

  /** The consumer is about to be told that nothing more is expected. */
  predicate SeesDrained(s: State) {
    s.consumer.Entered? && Next(s, PopCheck).consumer.Outside?
  }

  /** Then every response queued was popped; and every response announced was, if and only if no more are
      outstanding than the count can hold. */
  lemma {:induction false} DrainedMeansAll(states: seq<State>, steps: seq<Step>)
    requires Run(states, steps) && SeesDrained(states[|steps|])
    ensures
      var s := states[|steps|];
      && s.mode.FinishOnDrain? && s.popped == s.accepted
      && (|s.popped| == s.expected <==> s.expected - |s.popped| < UNSIGNED)
  {
    Reachable(states, steps, |steps|);
  }

  /** Two announcements that together pass the range leave a count of zero: the queue calls itself
      drained with 2^32 responses still to come. */
  lemma {:induction false} WrapDrains()
    ensures
      var s := Next(Announced(FinishOnDrain, UNSIGNED - 1), Increment(1));
      SeesDrained(Next(s, PopEnter)) && s.expected == UNSIGNED && s.popped == []
  {
  }

  /** No wakeup is lost. A consumer that waits with nothing to take is owed something: every response in
      the queue has its post coming; a queue that owns its end, and has no more outstanding than its count
      can hold, still expects a response; and once stopped, a post is on its way. */
  lemma {:induction false} NoLostWakeup(states: seq<State>, steps: seq<Step>)
    requires Run(states, steps)
    ensures
      var s := states[|steps|];
      s.consumer.Waiting? && s.sem == 0 ==>
        && (!s.stopped ==> |s.queue| == s.owed)
        && (!s.stopped && s.mode.FinishOnDrain? && s.expected - |s.accepted| < UNSIGNED ==> s.running > 0 || Enabled(s, PushPost))
        && (s.stopped ==> Enabled(s, PushPost) || Enabled(s, StopPost))
  {
    Reachable(states, steps, |steps|);
  }

  /** That bound is needed. A consumer begins to wait for the one response announced; an announcement of
      2^32 - 1 more wraps the count to nothing. From then on every response pushed is turned away, nothing
      is queued and no post is owed: the consumer waits for nothing, with 2^32 responses to come. */
  lemma {:induction false} WrapStrands() returns (states: seq<State>, steps: seq<Step>)
    ensures Run(states, steps)
    ensures
      var s := states[|steps|];
      && s.consumer.Waiting? && !s.stopped && s.sem == 0 && s.owed == 0 && s.queue == []
      && s.expected == UNSIGNED && s.accepted == []
      && forall r :: Next(s, PushLock(r)) == s
  {
    var s0 := Announced(FinishOnDrain, 1);
    var s1 := Next(s0, PopEnter);
    var s2 := Next(s1, PopCheck);
    steps := [PopEnter, PopCheck, Increment(UNSIGNED - 1)];
    states := [s0, s1, s2, Next(s2, Increment(UNSIGNED - 1))];
  }
}
