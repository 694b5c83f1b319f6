/** Retrying failed object reads (impl/object_storage_worker/object_storage_retry): a deadline for each
    chunk, jittered delays, and the queue of retries by due time. Time is any number that never falls. */
module RetrySchedule {
  import opened Machine

  const BASE_MS: nat := 100
  const CAP_MS: nat := 1000

  datatype Option<+T> = None | Some(value: T)

  /** A retry waiting for its time. */
  datatype Entry = Entry(due: int, handle: nat)

  datatype Schedule = Schedule(delay: nat, retryCount: nat)

  /* ---- delays ---- */

  lemma {:induction false} PowerGrows(m: nat, n: nat)
    requires m <= n
    ensures 1 <= Power2(m) <= Power2(n)
  {
    if m < n { PowerGrows(m, n - 1); } else if m > 0 { PowerGrows(m - 1, n - 1); }
  }

  /** Stopping the shift at four changes nothing: by then the cap has taken over. */
  lemma {:induction false} ShiftEnough(n: nat)
    ensures Min(CAP_MS, BASE_MS * Power2(Min(n, 4))) == Min(CAP_MS, BASE_MS * Power2(n))
  {
    assert Power2(4) == 16 by { assert Power2(1) == 2 && Power2(2) == 4 && Power2(3) == 8; }
    if n > 4 { PowerGrows(4, n); }
  }

  /** Full jitter: anything from no delay to an exponential that starts at the base, doubles with every
      retry, and is capped. */
  ghost predicate Jittered(retryCount: nat, delay: nat) {
    delay <= LongestDelay(retryCount)
  }

  ghost function LongestDelay(retryCount: nat): nat {
    Min(CAP_MS, BASE_MS * if retryCount > 0 then Power2(retryCount - 1) else 1)
  }

  /** retry_delay. */
  method RetryDelay(retryCount: nat) returns (delay: nat)
    ensures Jittered(retryCount, delay)
  {
    var shift := Min(if retryCount > 0 then retryCount - 1 else 0, 4);
    var upper := Min(CAP_MS, BASE_MS * Power2(shift));
    if retryCount > 0 { ShiftEnough(retryCount - 1); }
    delay :| delay <= upper;
  }

  /* ---- the queue ---- */

  ghost predicate Sorted(entries: seq<Entry>) {
    forall i, j :: 0 <= i < j < |entries| ==> entries[i].due <= entries[j].due
  }

  /** As a multimap inserts: after every entry due no later. */
  function Insert(entries: seq<Entry>, e: Entry): seq<Entry> {
    if entries == [] || entries[|entries| - 1].due <= e.due then entries + [e]
    else Insert(entries[..|entries| - 1], e) + [entries[|entries| - 1]]
  }

  lemma {:induction false} InsertMembers(entries: seq<Entry>, e: Entry)
    ensures multiset(Insert(entries, e)) == multiset(entries) + multiset{e}
  {
    if entries != [] {
      var n := |entries| - 1;
      assert entries == entries[..n] + [entries[n]];
      if entries[n].due > e.due { InsertMembers(entries[..n], e); }
    }
  }

  lemma {:induction false} InsertSorted(entries: seq<Entry>, e: Entry)
    requires Sorted(entries)
    ensures Sorted(Insert(entries, e))
  {
    if entries != [] && entries[|entries| - 1].due > e.due {
      var n := |entries| - 1;
      var front := Insert(entries[..n], e);
      InsertSorted(entries[..n], e);
      forall i | 0 <= i < |front|
        ensures front[i].due <= entries[n].due
      {
        var k := InsertedFrom(entries[..n], e, i);
      }
    }
  }

  /** What the i-th entry after an insertion was: the new one, or the k-th before it. */
  lemma {:induction false} InsertedFrom(entries: seq<Entry>, e: Entry, i: nat) returns (k: nat)
    requires i < |Insert(entries, e)|
    ensures Insert(entries, e)[i] == e || (k < |entries| && Insert(entries, e)[i] == entries[k])
  {
    k := 0;
    if entries != [] {
      var n := |entries| - 1;
      if entries[n].due <= e.due {
        k := i;
      } else if i < |Insert(entries[..n], e)| {
        k := InsertedFrom(entries[..n], e, i);
      } else {
        k := n;
      }
    }
  }

  /** Every entry scheduled is waiting or popped; what was popped was due by now, in due order, and is due
      no later than anything still waiting. */
  ghost predicate Disciplined(delayed: seq<Entry>, popped: seq<Entry>, entered: multiset<Entry>, clock: int) {
    && Sorted(delayed) && Sorted(popped)
    && entered == multiset(popped) + multiset(delayed)
    && (forall i :: 0 <= i < |popped| ==> popped[i].due <= clock)
    && (forall i, j :: 0 <= i < |popped| && 0 <= j < |delayed| ==> popped[i].due <= delayed[j].due)
  }

  lemma {:induction false} LaterDisciplined(delayed: seq<Entry>, popped: seq<Entry>, entered: multiset<Entry>, clock: int, now: int)
    requires Disciplined(delayed, popped, entered, clock) && clock <= now
    ensures Disciplined(delayed, popped, entered, now)
  {
  }

  lemma {:induction false} ScheduleDisciplined(delayed: seq<Entry>, popped: seq<Entry>, entered: multiset<Entry>, clock: int, e: Entry)
    requires Disciplined(delayed, popped, entered, clock) && e.due >= clock
    ensures Disciplined(Insert(delayed, e), popped, entered + multiset{e}, clock)
  {
    InsertSorted(delayed, e);
    InsertMembers(delayed, e);
    var after := Insert(delayed, e);
    hide Insert, Sorted;
    forall i, j | 0 <= i < |popped| && 0 <= j < |after|
      ensures popped[i].due <= after[j].due
    {
      var k := InsertedFrom(delayed, e, j);
    }
  }

  lemma {:induction false} PopDisciplined(delayed: seq<Entry>, popped: seq<Entry>, entered: multiset<Entry>, clock: int)
    requires Disciplined(delayed, popped, entered, clock) && delayed != [] && delayed[0].due <= clock
    ensures Disciplined(delayed[1..], popped + [delayed[0]], entered, clock)
  {
    assert delayed == [delayed[0]] + delayed[1..];
    assert multiset(delayed) == multiset{delayed[0]} + multiset(delayed[1..]);
  }

  predicate Counted(retryCount: nat, scheduled: nat) { retryCount == scheduled % UNSIGNED }

  lemma {:induction false} NextCount(retryCount: nat, scheduled: nat)
    requires Counted(retryCount, scheduled)
    ensures Counted(NextRetry(retryCount), scheduled + 1)
  {
  }

  function NextRetry(retryCount: nat): nat { (retryCount + 1) % UNSIGNED }

  /** Whether an attempt may begin: the initial one always, one after a retry only before the deadline that
      the first attempt fixed. */
  predicate Allowed(scheduled: nat, first: int, timeout: int, now: int) {
    scheduled % UNSIGNED == 0 || (timeout > 0 && now < first + timeout)
  }

  /** What the scheduler keeps for one chunk. */
  class ChunkState {
    var deadline: Option<int>
    var retryCount: nat

    /** When its first attempt began, and how many retries were ever scheduled. */
    ghost var first: Option<int>
    ghost var scheduled: nat

    /** The deadline is the first attempt's time plus the timeout, once there has been one: it never moves. */
    ghost predicate Valid(timeout: int)
      reads this
    {
      && Counted(retryCount, scheduled)
      && deadline == (if timeout > 0 && first.Some? then Some(first.value + timeout) else None)
      && (first.None? ==> scheduled == 0)
    }

    constructor ()
      ensures deadline == None && retryCount == 0 && first == None && scheduled == 0
    {
      deadline, retryCount, first, scheduled := None, 0, None, 0;
    }

    lemma DeadlineFixed(timeout: int)
      requires Valid(timeout) && timeout > 0 && first.Some?
      ensures deadline == Some(first.value + timeout)
    {
    }

    lemma HasBegun(timeout: int)
      requires Valid(timeout) && deadline.Some?
      ensures first.Some?
    {
    }

    method CountRetry(next: nat, timeout: int)
      requires Valid(timeout) && first.Some? && next == NextRetry(retryCount)
      modifies this`retryCount, this`scheduled
      ensures Valid(timeout) && retryCount == next && scheduled == old(scheduled) + 1
    {
      NextCount(retryCount, scheduled);
      hide Counted, NextRetry;
      retryCount := next;
      scheduled := scheduled + 1;
    }
  }

  class ObjectStorageRetry {
    const timeout: int
    var delayed: seq<Entry>

    /** The last time seen; the entries popped, in order; the entries scheduled since the last clear. */
    ghost var clock: int
    ghost var popped: seq<Entry>
    ghost var entered: multiset<Entry>

    ghost predicate Valid()
      reads this
    {
      Disciplined(delayed, popped, entered, clock)
    }

    constructor (retryTimeout: int, now: int)
      ensures Valid() && timeout == retryTimeout && delayed == [] && popped == [] && clock == now
    {
      timeout, delayed, clock, popped, entered := retryTimeout, [], now, [], multiset{};
    }

    /** Fixes the deadline at the first attempt. The initial attempt is always allowed; a later one only
        before the deadline. */
    method BeginAttempt(state: ChunkState, now: int) returns (allowed: bool)
      requires Valid() && state.Valid(timeout) && now >= clock
      modifies this`clock, state`deadline, state`first
      ensures Valid() && state.Valid(timeout) && clock == now
      ensures state.first == (if old(state.first).Some? then old(state.first) else Some(now))
      ensures allowed <==> Allowed(state.scheduled, state.first.value, timeout, now)
    {
      if state.deadline.None? && timeout > 0 {
        state.deadline := Some(now + timeout);
      }
      if state.first.None? { state.first := Some(now); }
      clock := now;
      allowed := state.retryCount == 0 || (state.deadline.Some? && now < state.deadline.value);
    }

    /** Schedules a retry after a jittered delay, if that comes before the deadline. */
    method ScheduleRetry(state: ChunkState, handle: nat, now: int) returns (result: Option<Schedule>)
      requires Valid() && state.Valid(timeout) && now >= clock
      modifies this`clock, this`delayed, this`entered, state`retryCount, state`scheduled
      ensures Valid() && state.Valid(timeout) && clock == now
      ensures result.Some? ==>
                && state.deadline.Some? && now <= now + result.value.delay < state.deadline.value
                && delayed == Insert(old(delayed), Entry(now + result.value.delay, handle))
                && entered == old(entered) + multiset{Entry(now + result.value.delay, handle)}
                && state.scheduled == old(state.scheduled) + 1 && result.value.retryCount == state.retryCount
                && Jittered(state.retryCount, result.value.delay)
      ensures result.None? ==> delayed == old(delayed) && entered == old(entered) && state.scheduled == old(state.scheduled)
      ensures state.deadline.None? || now >= state.deadline.value ==> result.None?
      ensures result.None? && state.deadline.Some? ==>
                now + LongestDelay(NextRetry(state.retryCount)) >= state.deadline.value
    {
      LaterDisciplined(delayed, popped, entered, clock, now);
      hide Disciplined, Insert, Jittered, LongestDelay, NextRetry;
      clock := now;
      result := Propose(state, now);
      if result.None? { return; }
      Delay(Entry(now + result.value.delay, handle));
      state.CountRetry(result.value.retryCount, timeout);
    }

    /** A jittered delay that ends before the deadline, if the one drawn does. */
    method Propose(state: ChunkState, now: int) returns (result: Option<Schedule>)
      requires state.Valid(timeout)
      ensures state.deadline.None? || now >= state.deadline.value ==> result.None?
      ensures result.None? && state.deadline.Some? ==>
                now + LongestDelay(NextRetry(state.retryCount)) >= state.deadline.value
      ensures result.Some? ==>
                && state.deadline.Some? && state.first.Some? && now + result.value.delay < state.deadline.value
                && result.value.retryCount == NextRetry(state.retryCount)
                && Jittered(result.value.retryCount, result.value.delay)
    {
      if state.deadline.None? || now >= state.deadline.value { return None; }
      state.HasBegun(timeout);
      var nextRetryCount := NextRetry(state.retryCount);
      hide NextRetry, LongestDelay, Counted;
      var delay := RetryDelay(nextRetryCount);
      if now + delay >= state.deadline.value { return None; }
      result := Some(Schedule(delay, nextRetryCount));
    }

    method Delay(e: Entry)
      requires Valid() && e.due >= clock
      modifies this`delayed, this`entered
      ensures Valid() && delayed == Insert(old(delayed), e) && entered == old(entered) + multiset{e}
    {
      ScheduleDisciplined(delayed, popped, entered, clock, e);
      hide Disciplined, Insert;
      delayed := Insert(delayed, e);
      entered := entered + multiset{e};
    }

    /** The earliest entry, if its time has come. */
    method PopDue(now: int) returns (handle: Option<nat>)
      requires Valid() && now >= clock
      modifies this`clock, this`delayed, this`popped
      ensures Valid() && clock == now && entered == old(entered)
      ensures handle.Some? <==> old(delayed) != [] && old(delayed)[0].due <= now
      ensures handle.Some? ==> old(delayed) == [Entry(old(delayed)[0].due, handle.value)] + delayed &&
                               popped == old(popped) + [old(delayed)[0]]
      ensures handle.None? ==> delayed == old(delayed) && popped == old(popped)
    {
      LaterDisciplined(delayed, popped, entered, clock, now);
      clock := now;
      var due := NextDue();
      if due.None? || due.value > now { return None; }
      PopDisciplined(delayed, popped, entered, clock);
      assert delayed == [delayed[0]] + delayed[1..];
      hide Disciplined;
      handle := Some(delayed[0].handle);
      popped := popped + [delayed[0]];
      delayed := delayed[1..];
    }

    /** When the next retry is due: no waiting entry is due sooner. */
    function NextDue(): (due: Option<int>)
      requires Valid()
      reads this
      ensures due.None? <==> delayed == []
      ensures due.Some? ==> (exists i :: 0 <= i < |delayed| && delayed[i].due == due.value) &&
                            forall i :: 0 <= i < |delayed| ==> due.value <= delayed[i].due
    {
      if delayed == [] then None else Some(delayed[0].due)
    }

    method Clear()
      requires Valid()
      modifies this`delayed, this`entered, this`popped
      ensures Valid() && delayed == [] && popped == [] && entered == multiset{}
    {
      delayed, popped, entered := [], [], multiset{};
    }

    /** Retries leave in due order, none is lost and none is doubled. */
    lemma InDueOrder(i: nat, j: nat)
      requires Valid() && i < j < |popped + delayed|
      ensures (popped + delayed)[i].due <= (popped + delayed)[j].due
      ensures entered == multiset(popped + delayed)
    {
    }
  }

  lemma {:induction false} CapHolds(retryCount: nat)
    ensures LongestDelay(retryCount) <= 1000
  {
  }

  /** The count of retries wraps, and then passes for none. A chunk with two seconds to its deadline, all of
      whose retries are scheduled at once, gets every one of 2^32: none can be refused, because no delay
      reaches the deadline. The attempt after them is allowed long after the deadline. */
  method WrapAllowsLate() returns (retries: nat, deadline: int, now: int, allowed: bool)
    ensures retries == UNSIGNED && now > deadline && allowed
  {
    hide *;
    var retry := new ObjectStorageRetry(2000, 0);
    var state := new ChunkState();
    StartsValid(state, 2000);
    allowed := retry.BeginAttempt(state, 0);
    state.DeadlineFixed(2000);
    retries, deadline, now := 0, state.deadline.value, 3000;
    while retries < UNSIGNED
      invariant retries <= UNSIGNED && retry.Valid() && state.Valid(2000) && retry.clock == 0
      invariant state.scheduled == retries && state.first == Some(0) && state.deadline == Some(deadline) && deadline == 2000
    {
      var result := retry.ScheduleRetry(state, 0, 0);
      CapHolds(NextRetry(state.retryCount));
      if result.None? { break; }
      retries := retries + 1;
    }
    AllowedAgain(0, 2000, now);
    allowed := retry.BeginAttempt(state, now);
  }

  lemma {:induction false} StartsValid(state: ChunkState, timeout: int)
    requires state.deadline == None && state.retryCount == 0 && state.first == None && state.scheduled == 0
    ensures state.Valid(timeout) && UNSIGNED > 0
  {
  }

  lemma {:induction false} AllowedAgain(first: int, timeout: int, now: int)
    ensures Allowed(UNSIGNED, first, timeout, now)
  {
  }
}
