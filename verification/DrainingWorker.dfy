/** The worker that finishes what is queued before it stops (utils/draining_worker over utils/deque):
    its pushers, its one thread, and the caller of stop, split at lock and semaphore boundaries. */
module DrainingWorker {

  datatype Entry = Message(message: nat) | Last

  datatype Thread = NotStarted | Waiting | Holding | Handling(message: nat) | Ended

  /** Where the call of stop is that found the worker not stopped. */
  datatype Stopper = NotCalled | Exchanged | Queued | Joining | Returned

  datatype State = State(queue: seq<Entry>, sem: nat,
                         entered: seq<nat>,   // pushes past their check, not yet in the queue
                         owed: nat,           // pushes in the queue, post still to come
                         started: bool, stopped: bool, thread: Thread, stopper: Stopper,
                         pushed: seq<nat>, handled: seq<nat>)

  datatype Step =
    | PushEnter(message: nat)
    | PushLock(k: nat)
    | PushPost
    | StopExchange
    | StopLock
    | StopPost
    | StopJoin
    | Wait
    | Pop
    | Handle

  const UNUSED: State := State([], 0, [], 0, false, false, NotStarted, NotCalled, [], [])

  /** A push after stop, and a stop with a push in flight, are what the caller must not do. */
  predicate Enabled(s: State, step: Step) {
    match step
    case PushEnter(_) => !s.stopped
    case PushLock(k) => k < |s.entered|
    case PushPost => s.owed > 0
    case StopExchange => !s.stopped && s.entered == [] && s.owed == 0
    case StopLock => s.stopper.Exchanged?
    case StopPost => s.stopper.Queued?
    case StopJoin => s.stopper.Joining? && s.thread.Ended?
    case Wait => s.thread.Waiting? && s.sem > 0
    case Pop => s.thread.Holding?
    case Handle => s.thread.Handling?
  }

  function Next(s: State, step: Step): State
    requires Enabled(s, step)
  {
    match step
    case PushEnter(m) =>
      s.(entered := s.entered + [m], started := true, thread := if s.started then s.thread else Waiting)
    case PushLock(k) =>
      s.(entered := s.entered[..k] + s.entered[k + 1..], queue := s.queue + [Message(s.entered[k])],
         owed := s.owed + 1, pushed := s.pushed + [s.entered[k]])
    case PushPost => s.(owed := s.owed - 1, sem := s.sem + 1)
    case StopExchange => s.(stopped := true, stopper := if s.started then Exchanged else Returned)
    case StopLock => s.(queue := s.queue + [Last], stopper := Queued)
    case StopPost => s.(sem := s.sem + 1, stopper := Joining)
    case StopJoin => s.(stopper := Returned)
    case Wait => s.(sem := s.sem - 1, thread := Holding)
    case Pop =>
      if s.queue == [] then s // never: NeverEmpty
      else s.(queue := s.queue[1..], thread := if s.queue[0].Last? then Ended else Handling(s.queue[0].message))
    case Handle => s.(handled := s.handled + [s.thread.message], thread := Waiting)
  }

  function Messages(queue: seq<Entry>): seq<nat> {
    if queue == [] then []
    else (if queue[0].Last? then [] else [queue[0].message]) + Messages(queue[1..])
  }

  lemma {:induction false} MessagesAppend(queue: seq<Entry>, e: Entry)
    ensures Messages(queue + [e]) == Messages(queue) + if e.Last? then [] else [e.message]
  {
    if queue != [] {
      assert (queue + [e])[1..] == queue[1..] + [e];
      MessagesAppend(queue[1..], e);
    }
  }

  ghost predicate Clean(queue: seq<Entry>) { forall k :: 0 <= k < |queue| ==> queue[k].Message? }

  /** The sentinel is the last entry, or there is none. */
  ghost predicate Sealed(queue: seq<Entry>) {
    queue != [] && queue[|queue| - 1].Last? && forall k :: 0 <= k < |queue| - 1 ==> queue[k].Message?
  }

  function Current(s: State): seq<nat> { if s.thread.Handling? then [s.thread.message] else [] }

  ghost predicate Inv(s: State) {
    && s.pushed == s.handled + Current(s) + Messages(s.queue)
    && |s.queue| == s.sem + s.owed + (if s.stopper.Queued? then 1 else 0) + (if s.thread.Holding? then 1 else 0)
    && (s.stopped <==> !s.stopper.NotCalled?) && (s.stopped ==> s.entered == [] && s.owed == 0)
    && (!s.started <==> s.thread.NotStarted?) && (!s.started ==> s.entered == [] && s.queue == [] && s.pushed == [])
    && (s.stopper.Exchanged? || s.stopper.Queued? || s.stopper.Joining? ==> s.started)
    && (s.stopper.NotCalled? || s.stopper.Exchanged? ==> Clean(s.queue) && !s.thread.Ended?)
    && (s.stopper.Queued? || s.stopper.Joining? ==>
          if s.thread.Ended? then s.queue == [] else Sealed(s.queue))
    && (s.stopper.Returned? ==> s.queue == [] && (s.thread.Ended? || s.thread.NotStarted?))
  }

  lemma {:induction false} PushKeepsInv(s: State, step: Step)
    requires Inv(s) && Enabled(s, step) && (step.PushEnter? || step.PushLock? || step.PushPost?)
    ensures Inv(Next(s, step))
  {
    if step.PushLock? { MessagesAppend(s.queue, Message(s.entered[step.k])); }
  }

  lemma {:induction false} StopKeepsInv(s: State, step: Step)
    requires Inv(s) && Enabled(s, step)
    requires step.StopExchange? || step.StopLock? || step.StopPost? || step.StopJoin?
    ensures Inv(Next(s, step))
  {
    if step.StopLock? { MessagesAppend(s.queue, Last); }
  }

  lemma {:induction false} WaitKeepsInv(s: State)
    requires Inv(s) && Enabled(s, Wait)
    ensures Inv(Next(s, Wait))
  {
  }

  lemma {:induction false} PopKeepsInv(s: State)
    requires Inv(s) && Enabled(s, Pop)
    ensures Inv(Next(s, Pop))
  {
    if s.queue[0].Last? { assert |s.queue| == 1; }
  }

  lemma {:induction false} HandleKeepsInv(s: State)
    requires Inv(s) && Enabled(s, Handle)
    ensures Inv(Next(s, Handle))
  {
  }

  lemma {:induction false} StepKeepsInv(s: State, step: Step)
    requires Inv(s) && Enabled(s, step)
    ensures Inv(Next(s, step))
  {
    hide Inv, Enabled, Next;
    if step.PushEnter? || step.PushLock? || step.PushPost? {
      PushKeepsInv(s, step);
    } else if step.Wait? {
      WaitKeepsInv(s);
    } else if step.Pop? {
      PopKeepsInv(s);
    } else if step.Handle? {
      HandleKeepsInv(s);
    } else {
      StopKeepsInv(s, step);
    }
  }

  ghost predicate Run(states: seq<State>, steps: seq<Step>) {
    && |states| == |steps| + 1 && states[0] == UNUSED
    && forall i :: 0 <= i < |steps| ==> Enabled(states[i], steps[i]) && states[i + 1] == Next(states[i], steps[i])
  }

  lemma {:induction false} Reachable(states: seq<State>, steps: seq<Step>, n: nat)
    requires Run(states, steps) && n < |states|
    ensures Inv(states[n])
  {
    if n > 0 {
      Reachable(states, steps, n - 1);
      StepKeepsInv(states[n - 1], steps[n - 1]);
    }
  }

  /** When stop returns, every message ever pushed has been handled, once each and in push order. */
  lemma {:induction false} StopDrains(states: seq<State>, steps: seq<Step>)
    requires Run(states, steps)
    ensures
      var s := states[|steps|];
      && s.handled <= s.pushed
      && (s.stopper.Returned? ==> s.handled == s.pushed && s.entered == [])
  {
    Reachable(states, steps, |steps|);
  }

  lemma {:induction false} NeverEmpty(states: seq<State>, steps: seq<Step>)
    requires Run(states, steps)
    ensures Enabled(states[|steps|], Pop) ==> states[|steps|].queue != []
  {
    Reachable(states, steps, |steps|);
  }

  /** How much is left to do once stop has been called. */
  function Left(s: State): nat {
    3 * |s.queue|
    + (match s.stopper
       case NotCalled => 7
       case Exchanged => 6
       case Queued => 2
       case Joining => 1
       case Returned => 0)
    + (match s.thread
       case NotStarted => 0
       case Waiting => 2
       case Holding => 1
       case Handling(_) => 3
       case Ended => 0)
  }

  /** stop does return: after it has been called some step can always be taken until it has, and each
      one leaves less to do. */
  lemma {:induction false} StopReturns(states: seq<State>, steps: seq<Step>) returns (step: Step)
    requires Run(states, steps) && states[|steps|].stopped && !states[|steps|].stopper.Returned?
    ensures Enabled(states[|steps|], step)
    ensures forall any :: Enabled(states[|steps|], any) ==> Left(Next(states[|steps|], any)) < Left(states[|steps|])
  {
    Reachable(states, steps, |steps|);
    var s := states[|steps|];
    step := match s.stopper
      case Exchanged => StopLock
      case Queued => StopPost
      case _ =>
        match s.thread
        case Waiting => Wait
        case Holding => Pop
        case Handling(_) => Handle
        case _ => StopJoin;
  }
}
