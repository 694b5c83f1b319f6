/** The accounting every engine owes its caller (posix_io/io_engine, flush and wait_for_completions). */
module IoLedger {

  const EINTR: int := 4
  const EAGAIN: int := 11
  const EBUSY: int := 16

  datatype Code = Success | UnknownError | FsAsyncEngineError

  datatype WaitMode = Block | NonBlocking

  /** A signal arrived and nothing was done: EINTR, or a restart code that leaked out of the kernel. */
  predicate IsTransient(error: int) { error == EINTR || error == 512 || error == 513 || error == 514 || error == 516 }

  /** A refused submit that will be tried again: the queue is full, or the call was interrupted. */
  predicate CanDefer(error: int) { error == EAGAIN || error == EBUSY || IsTransient(error) }

  /** A read's answer: bytes when not negative, else minus an errno. */
  datatype Completion = Completion(id: nat, res: int)

  /** Every read an engine was ever given, and where each of them is now. `issued` are the reads that
      left the queue, in the order they left it; `pending` those still staged. */
  datatype Ledger = Ledger(issued: seq<nat>, pending: seq<nat>, held: multiset<nat>, failed: seq<Completion>,
                           answered: seq<Completion>)
  {
    /** All reads in the order they were staged: no operation but Stage changes it. */
    function Log(): seq<nat> { issued + pending }

    /** A read that was issued is with the kernel, refused and waiting for the caller, or answered. */
    ghost predicate Balanced() {
      multiset(issued) == held + multiset(Ids(failed)) + multiset(Ids(answered))
    }

    /** What the caller has in flight: issued, less answered. */
    function Outstanding(): int { |issued| - |answered| }
  }

  function Ids(cs: seq<Completion>): seq<nat> {
    if cs == [] then [] else Ids(cs[..|cs| - 1]) + [cs[|cs| - 1].id]
  }

  lemma {:induction false} IdsAppend(cs: seq<Completion>, more: seq<Completion>)
    ensures Ids(cs + more) == Ids(cs) + Ids(more) && |Ids(cs)| == |cs|
  {
    if more == [] {
      assert cs + more == cs;
      if cs != [] { IdsAppend(cs[..|cs| - 1], []); assert cs[..|cs| - 1] + [] == cs[..|cs| - 1]; }
    } else {
      var n := |more| - 1;
      assert (cs + more)[..|cs + more| - 1] == cs + more[..n];
      IdsAppend(cs, more[..n]);
    }
  }

  function Upto<T>(s: seq<T>, n: nat): (front: seq<T>)
    requires n <= |s|
    ensures |front| == n
  {
    s[..n]
  }

  function After<T>(s: seq<T>, n: nat): (rest: seq<T>)
    requires n <= |s|
    ensures |rest| == |s| - n
  {
    s[n..]
  }

  const EMPTY: Ledger := Ledger([], [], multiset{}, [], [])

  function Stage(l: Ledger, id: nat): Ledger {
    l.(pending := l.pending + [id])
  }

  /** The first n staged reads go to the kernel. */
  function Issue(l: Ledger, n: nat): Ledger
    requires n <= |l.pending|
  {
    l.(pending := After(l.pending, n), held := l.held + multiset(Upto(l.pending, n)), issued := l.issued + Upto(l.pending, n))
  }

  /** The first staged read is refused; the answer it is owed is kept for the caller, and counted. */
  function Refuse(l: Ledger, res: int): Ledger
    requires l.pending != []
  {
    l.(pending := After(l.pending, 1), failed := l.failed + [Completion(l.pending[0], res)], issued := l.issued + [l.pending[0]])
  }

  /** Reads the kernel has finished are given to the caller. */
  function Reap(l: Ledger, out: seq<Completion>): Ledger {
    l.(held := l.held - multiset(Ids(out)), answered := l.answered + out)
  }

  /** The first n refused reads are given to the caller. */
  function ReapFailed(l: Ledger, n: nat): Ledger
    requires n <= |l.failed|
  {
    l.(failed := After(l.failed, n), answered := l.answered + Upto(l.failed, n))
  }

  lemma {:induction false} NothingMoves(l: Ledger)
    ensures Issue(l, 0) == l && ReapFailed(l, 0) == l && Reap(l, []) == l && multiset(Ids([])) <= l.held
  {
    assert l.pending[..0] == [] && l.pending[0..] == l.pending;
    assert l.failed[..0] == [] && l.failed[0..] == l.failed;
    assert l.answered + [] == l.answered;
  }

  lemma {:induction false} StageBalanced(l: Ledger, id: nat)
    requires l.Balanced()
    ensures Stage(l, id).Balanced() && Stage(l, id).Log() == l.Log() + [id]
  {
  }

  lemma {:induction false} IssueBalanced(l: Ledger, n: nat)
    requires l.Balanced() && n <= |l.pending|
    ensures Issue(l, n).Balanced() && Issue(l, n).Log() == l.Log()
  {
    assert l.pending == l.pending[..n] + l.pending[n..];
  }

  lemma {:induction false} RefuseBalanced(l: Ledger, res: int)
    requires l.Balanced() && l.pending != []
    ensures Refuse(l, res).Balanced() && Refuse(l, res).Log() == l.Log()
  {
    IdsOne(l.failed, Completion(l.pending[0], res));
    hide Ids;
    assert [l.pending[0]] + After(l.pending, 1) == l.pending;
  }

  lemma {:induction false} IdsOne(cs: seq<Completion>, c: Completion)
    ensures Ids(cs + [c]) == Ids(cs) + [c.id]
  {
    assert (cs + [c])[..|cs|] == cs;
  }

  lemma {:induction false} ReapBalanced(l: Ledger, out: seq<Completion>)
    requires l.Balanced() && multiset(Ids(out)) <= l.held
    ensures Reap(l, out).Balanced() && Reap(l, out).Log() == l.Log()
  {
    IdsAppend(l.answered, out);
  }

  lemma {:induction false} ReapFailedBalanced(l: Ledger, n: nat)
    requires l.Balanced() && n <= |l.failed|
    ensures ReapFailed(l, n).Balanced() && ReapFailed(l, n).Log() == l.Log()
  {
    assert l.failed == l.failed[..n] + l.failed[n..];
    IdsAppend(l.failed[..n], l.failed[n..]);
    IdsAppend(l.answered, l.failed[..n]);
  }

  /** The contract of out_issued: what the caller counts as in flight is exactly what the kernel holds
      and the refusals not yet collected. A count of zero therefore means no destination is still a
      write target and no answer is still owed. */
  lemma {:induction false} CountIsExact(l: Ledger)
    requires l.Balanced()
    ensures l.Outstanding() == |l.held| + |l.failed|
    ensures l.Outstanding() == 0 ==> l.held == multiset{} && l.failed == []
  {
    IdsAppend(l.failed, []);
    IdsAppend(l.answered, []);
    assert l.failed + [] == l.failed && l.answered + [] == l.answered;
    assert |multiset(l.issued)| == |l.issued|;
  }

  /** Where ids are not reused, each read has at most one answer, only after a flush counted it, and is
      in exactly one place: waiting, with the kernel, refused, or answered. */
  lemma {:induction false} OneAnswerEach(l: Ledger, id: nat)
    requires l.Balanced() && multiset(l.Log())[id] == 1
    ensures (if id in l.pending then 1 else 0) + l.held[id] + multiset(Ids(l.failed))[id] + multiset(Ids(l.answered))[id] == 1
    ensures id in Ids(l.answered) ==> id in l.issued && id !in l.held && id !in l.pending
  {
    assert multiset(l.pending)[id] <= 1;
    assert id in l.pending <==> multiset(l.pending)[id] > 0;
    assert id in l.issued <==> multiset(l.issued)[id] > 0;
    assert id in Ids(l.answered) <==> multiset(Ids(l.answered))[id] > 0;
  }

  lemma {:induction false} Removed(s: seq<nat>, i: nat)
    requires i < |s|
    ensures multiset(s[..i] + s[i + 1..]) + multiset{s[i]} == multiset(s)
  {
    assert s == s[..i] + [s[i]] + s[i + 1..];
  }
}
