/** One range read as several object requests, and one answer for it (gcs/client and azure/client,
    async_read): how the range is cut, and how the completions agree on who answers. */
module SplitJoin {
  import opened Machine
  import opened Sequences
  import Responses

  datatype Range = Range(offset: nat, length: nat, dst: nat)

  datatype Piece = Piece(offset: nat, size: nat, dst: nat)

  /** How many requests a range takes; with a cache in front, always one. */
  function Pieces(length: nat, chunk: nat, cached: bool): (n: nat)
    requires chunk > 0
    ensures n >= 1
  {
    if cached || length / chunk < 1 then 1 else length / chunk
  }

  /** The pieces follow each other, in the object and in memory, over the whole range; each but the last
      is one chunk, and the last is what is left. */
  ghost predicate Tiles(r: Range, pieces: seq<Piece>, offset: nat) {
    if pieces == [] then offset == r.offset
    else
      var last := pieces[|pieces| - 1];
      && Tiles(r, pieces[..|pieces| - 1], last.offset)
      && r.offset <= last.offset && last.dst == r.dst + (last.offset - r.offset)
      && last.offset + last.size == offset
  }

  ghost predicate Chunked(pieces: seq<Piece>, n: nat, chunk: nat) {
    forall i :: 0 <= i < |pieces| && i < n - 1 ==> pieces[i].size == chunk
  }

  lemma {:induction false} TilesAppend(r: Range, pieces: seq<Piece>, p: Piece)
    requires Tiles(r, pieces, p.offset) && r.offset <= p.offset && p.dst == r.dst + (p.offset - r.offset)
    ensures Tiles(r, pieces + [p], p.offset + p.size)
  {
    assert (pieces + [p])[..|pieces|] == pieces;
  }

  /** Every byte of the range is in exactly one piece, which takes it to its own address. */
  lemma {:induction false} TilesCover(r: Range, pieces: seq<Piece>, end: nat, o: nat)
    requires Tiles(r, pieces, end) && r.offset <= o < end
    ensures exists k :: 0 <= k < |pieces| && Holds(pieces[k], o) && pieces[k].dst + (o - pieces[k].offset) == r.dst + (o - r.offset)
    ensures forall k, l :: 0 <= k < |pieces| && 0 <= l < |pieces| && Holds(pieces[k], o) && Holds(pieces[l], o) ==> k == l
  {
    var n := |pieces| - 1;
    var last := pieces[n];
    if o < last.offset {
      TilesCover(r, pieces[..n], last.offset, o);
      var k :| 0 <= k < n && Holds(pieces[..n][k], o) && pieces[..n][k].dst + (o - pieces[..n][k].offset) == r.dst + (o - r.offset);
      assert Holds(pieces[k], o);
      assert forall j :: 0 <= j < n ==> pieces[j] == pieces[..n][j];
    } else {
      assert Holds(last, o);
      forall k | 0 <= k < n
        ensures !Holds(pieces[k], o)
      {
        assert pieces[k] == pieces[..n][k];
        TilesEnd(r, pieces[..n], last.offset, k);
      }
    }
  }

  predicate Holds(p: Piece, o: nat) { p.offset <= o < p.offset + p.size }

  lemma {:induction false} TilesEnd(r: Range, pieces: seq<Piece>, end: nat, k: nat)
    requires Tiles(r, pieces, end) && k < |pieces|
    ensures pieces[k].offset + pieces[k].size <= end
  {
    var n := |pieces| - 1;
    if k < n {
      assert pieces[k] == pieces[..n][k];
      TilesEnd(r, pieces[..n], pieces[n].offset, k);
    }
  }

  /* ---- cutting ---- */

  /** What a piece is in 64 bits. */
  function OnMachine(p: Piece): Piece { Piece(Wrap64(p.offset), p.size, Wrap64(p.dst)) }

  ghost predicate Launches(pieces: seq<Piece>, cut: seq<Piece>) {
    |cut| <= |pieces| && forall k :: 0 <= k < |cut| ==> pieces[k] == OnMachine(cut[k])
  }

  /** How many bytes i pieces of one chunk hold. */
  function Bytes(i: nat, chunk: nat): nat { i * chunk }

  lemma {:induction false} BytesNext(i: nat, chunk: nat)
    ensures Bytes(0, chunk) == 0 && Bytes(i + 1, chunk) == Bytes(i, chunk) + chunk
  {
    Distribute(i, 1, chunk);
  }

  /** All pieces but the last fit, and what they leave is less than two chunks, and no less than one if
      there is more than one piece. */
  lemma {:induction false} LastPiece(length: nat, chunk: nat, cached: bool, n: nat)
    requires chunk > 0 && n == Pieces(length, chunk, cached)
    ensures
      var fit := Bytes(n - 1, chunk);
      && fit <= length
      && (n > 1 ==> fit + chunk <= length)
      && (!cached ==> length < fit + 2 * chunk)
  {
    DivMod(length, chunk);
    BytesNext(n - 1, chunk);
  }

  lemma {:induction false} BytesRise(i: nat, j: nat, chunk: nat)
    requires i < j
    ensures Bytes(i, chunk) + chunk <= Bytes(j, chunk)
  {
    Gap(i, j, chunk);
  }

  ghost predicate LastHolds(last: Piece, chunk: nat, cached: bool, n: nat) {
    && (n > 1 ==> chunk <= last.size)
    && (!cached ==> last.size < 2 * chunk)
  }

  /** The whole cut: every piece but the last is one chunk, and the last takes the rest. */
  ghost predicate WholeCut(r: Range, chunk: nat, cached: bool, n: nat, cut: seq<Piece>) {
    |cut| == n > 0 && Tiles(r, cut, r.offset + r.length) && LastHolds(cut[n - 1], chunk, cached, n)
  }

  /** Where the loop stands while its index still tells the pieces apart: `at` bytes are cut. */
  ghost predicate Cutting(r: Range, chunk: nat, cached: bool, n: nat, cut: seq<Piece>, at: nat) {
    && |cut| <= n && Tiles(r, cut, r.offset + at) && Chunked(cut, n, chunk) && at <= r.length
    && (|cut| < n ==> at == Bytes(|cut|, chunk))
    && (|cut| == n ==> WholeCut(r, chunk, cached, n, cut))
  }

  /** The sizes add up: a chunk before the last piece, and the rest there. */
  lemma {:induction false} SizeFits(length: nat, chunk: nat, cached: bool, n: nat, i: nat)
    requires chunk > 0 && n == Pieces(length, chunk, cached) && i < n
    ensures
      var at := Bytes(i, chunk);
      && at <= length
      && (i < n - 1 ==> at + chunk == Bytes(i + 1, chunk) <= length)
      && (n > 1 ==> chunk <= length - at)
      && (i == n - 1 && !cached ==> length - at < 2 * chunk)
  {
    LastPiece(length, chunk, cached, n);
    BytesNext(i, chunk);
    if i < n - 1 { BytesRise(i, n - 1, chunk); }
  }

  lemma {:induction false} ChunkedAppend(cut: seq<Piece>, n: nat, chunk: nat, p: Piece)
    requires Chunked(cut, n, chunk) && |cut| < n && (|cut| < n - 1 ==> p.size == chunk)
    ensures Chunked(cut + [p], n, chunk)
  {
  }

  lemma {:induction false} CutNext(r: Range, chunk: nat, cached: bool, n: nat, cut: seq<Piece>, at: nat)
    requires chunk > 0 && n == Pieces(r.length, chunk, cached) && |cut| < n
    requires Cutting(r, chunk, cached, n, cut, at)
    ensures
      var size := if |cut| == n - 1 then r.length - at else chunk;
      && at + size <= r.length
      && Cutting(r, chunk, cached, n, cut + [Piece(r.offset + at, size, r.dst + at)], at + size)
  {
    var i := |cut|;
    hide Bytes, Pieces, Tiles, Chunked;
    SizeFits(r.length, chunk, cached, n, i);
    var p := Piece(r.offset + at, if i == n - 1 then r.length - at else chunk, r.dst + at);
    ChunkedAppend(cut, n, chunk, p);
    TilesAppend(r, cut, p);
  }

  /** Where the loop stands when its index never reaches the last piece: all chunks, on and on. */
  ghost predicate Running(r: Range, chunk: nat, cut: seq<Piece>, at: nat) {
    && Tiles(r, cut, r.offset + at) && at == Bytes(|cut|, chunk)
    && forall k :: 0 <= k < |cut| ==> cut[k].size == chunk
  }

  lemma {:induction false} RunNext(r: Range, chunk: nat, cut: seq<Piece>, at: nat)
    requires Running(r, chunk, cut, at)
    ensures Running(r, chunk, cut + [Piece(r.offset + at, chunk, r.dst + at)], at + chunk)
  {
    BytesNext(|cut|, chunk);
    hide Bytes;
    TilesAppend(r, cut, Piece(r.offset + at, chunk, r.dst + at));
  }

  /** The cursors of the loop, all in 64 bits, after `at` bytes. */
  ghost predicate Cursors(r: Range, at: nat, total: nat, offset: nat, buffer: nat) {
    && offset == Wrap64(r.offset + at) && buffer == Wrap64(r.dst + at)
    && (at <= r.length ==> total == r.length - at)
  }

  function Sub64(a: nat, b: nat): nat
    requires a <= MAX_SIZE && b <= MAX_SIZE
    ensures Sub64(a, b) <= MAX_SIZE
  {
    if b <= a then a - b else a + MAX_SIZE + 1 - b
  }

  lemma {:induction false} CursorsMove(r: Range, at: nat, total: nat, offset: nat, buffer: nat, size: nat)
    requires Cursors(r, at, total, offset, buffer) && total <= MAX_SIZE && size <= MAX_SIZE
    ensures Cursors(r, at + size, Sub64(total, size), Add64(offset, size), Add64(buffer, size))
  {
    WrapAgain(r.offset + at, size);
    WrapAgain(r.dst + at, size);
  }

  lemma {:induction false} CursorsAt(r: Range, at: nat, total: nat, offset: nat, buffer: nat)
    requires Cursors(r, at, total, offset, buffer)
    ensures forall size: nat :: Piece(offset, size, buffer) == OnMachine(Piece(r.offset + at, size, r.dst + at))
    ensures at <= r.length ==> total == r.length - at
  {
  }

  lemma {:induction false} AddBounds(a: nat, b: nat)
    ensures Add64(a, b) <= MAX_SIZE
  {
  }

  lemma {:induction false} WrapAgain(a: nat, b: nat)
    ensures Add64(Wrap64(a), b) == Wrap64(a + b)
  {
    var m := MAX_SIZE + 1;
    DivMod(a, m);
    DivMod(a % m + b, m);
    Distribute(a / m, (a % m + b) / m, m);
    RemainderUnique(a + b, m, a / m + (a % m + b) / m, (a % m + b) % m);
  }

  lemma {:induction false} CutWithin(r: Range, chunk: nat, cached: bool, n: nat, cut: seq<Piece>, at: nat)
    requires Cutting(r, chunk, cached, n, cut, at)
    ensures at <= r.length
  {
  }

  ghost predicate Underway(r: Range, chunk: nat, cached: bool, n: nat, cut: seq<Piece>, at: nat) {
    if n <= UNSIGNED then Cutting(r, chunk, cached, n, cut, at) else Running(r, chunk, cut, at)
  }

  /** The loop's index after k passes. */
  function Index(k: nat): nat { k % UNSIGNED }

  lemma {:induction false} IndexMoves(k: nat, n: nat)
    ensures Index(k + 1) == (Index(k) + 1) % UNSIGNED
    ensures k < UNSIGNED ==> Index(k) == k
    ensures n <= UNSIGNED && k < n ==> Index(k) == k
    ensures n > UNSIGNED ==> Index(k) < n - 1
    ensures n >= UNSIGNED ==> Index(k) < n
  {
  }

  /** One pass of the cutting, whose index is still the number of the piece or has no piece to name. */
  lemma {:induction false} Pass(r: Range, chunk: nat, cached: bool, n: nat, cut: seq<Piece>, at: nat, total: nat)
    requires chunk > 0 && n == Pieces(r.length, chunk, cached) && (n <= UNSIGNED ==> |cut| < n)
    requires Underway(r, chunk, cached, n, cut, at) && (at <= r.length ==> total == r.length - at)
    ensures
      var size := if Index(|cut|) == n - 1 then total else chunk;
      Underway(r, chunk, cached, n, cut + [Piece(r.offset + at, size, r.dst + at)], at + size)
  {
    IndexMoves(|cut|, n);
    hide Index, Pieces, Cutting, Running;
    if n <= UNSIGNED {
      CutWithin(r, chunk, cached, n, cut, at);
      CutNext(r, chunk, cached, n, cut, at);
    } else {
      RunNext(r, chunk, cut, at);
    }
  }

  /** How many of the first k pieces are cuts of the range; past 2^32 all of them start as one. */
  function CutOf(n: nat, k: nat): nat {
    if n <= UNSIGNED then Min(n, k) else k
  }

  lemma {:induction false} CutMoves(n: nat, k: nat)
    ensures CutOf(n, k) <= k
    ensures if CutOf(n, k + 1) == k + 1 then CutOf(n, k) == k && (n <= UNSIGNED ==> k < n) else CutOf(n, k + 1) == CutOf(n, k)
  {
  }

  lemma {:induction false} Starts(r: Range, chunk: nat, cached: bool)
    requires 0 < chunk && r.offset <= MAX_SIZE && r.length <= MAX_SIZE && r.dst <= MAX_SIZE
    ensures Index(0) == 0 && CutOf(Pieces(r.length, chunk, cached), 0) == 0 && UNSIGNED > 0
    ensures Cursors(r, 0, r.length, r.offset, r.dst) && Launches([], [])
    ensures Underway(r, chunk, cached, Pieces(r.length, chunk, cached), [], 0)
  {
    BytesNext(0, chunk);
    hide Bytes, Pieces;
  }

  /** What the end of the loop means. */
  lemma {:induction false} Stops(r: Range, chunk: nat, cached: bool, n: nat, cut: seq<Piece>, at: nat, k: nat, stopAt: nat)
    requires n > 0 && Underway(r, chunk, cached, n, cut, at) && |cut| == CutOf(n, k)
    requires k <= stopAt && (n < UNSIGNED ==> k <= n) && !(Index(k) < n && k < stopAt)
    ensures k == if n < UNSIGNED then Min(n, stopAt) else stopAt
    ensures n <= UNSIGNED ==> |cut| == Min(n, stopAt) && Chunked(cut, n, chunk) && (n <= stopAt ==> WholeCut(r, chunk, cached, n, cut))
    ensures n > UNSIGNED ==> |cut| == stopAt && Running(r, chunk, cut, Bytes(stopAt, chunk))
  {
    IndexMoves(k, n);
    hide Index, Tiles, Chunked, WholeCut, Bytes;
  }

  lemma {:induction false} LaunchesMore(pieces: seq<Piece>, cut: seq<Piece>, p: Piece)
    requires Launches(pieces, cut) && |cut| == |pieces|
    ensures Launches(pieces + [OnMachine(p)], cut + [p])
  {
  }

  lemma {:induction false} LaunchesOther(pieces: seq<Piece>, cut: seq<Piece>, p: Piece)
    requires Launches(pieces, cut)
    ensures Launches(pieces + [p], cut)
  {
  }

  /** The loop of async_read: cuts and launches one request a pass, unless a stop is seen; here the poll
      of pass `stopAt` is the first to see one.

      Below 2^32 pieces the loop ends by itself; from 2^32 on its `unsigned` index is always below their
      number and only a stop ends it. Up to 2^32 the first n pieces are the right ones. Beyond that none
      of them is the last, and they go on past the end of the range. */
  method Split(r: Range, chunk: nat, cached: bool, stopAt: nat) returns (pieces: seq<Piece>, n: nat, ghost cut: seq<Piece>)
    requires 0 < chunk <= MAX_SIZE && r.offset <= MAX_SIZE && r.length <= MAX_SIZE && r.dst <= MAX_SIZE
    ensures n == Pieces(r.length, chunk, cached)
    ensures |pieces| == if n < UNSIGNED then Min(n, stopAt) else stopAt
    ensures Launches(pieces, cut)
    ensures n <= UNSIGNED ==> |cut| == Min(n, stopAt) && Chunked(cut, n, chunk) && (n <= stopAt ==> WholeCut(r, chunk, cached, n, cut))
    ensures n > UNSIGNED ==> |cut| == stopAt && Running(r, chunk, cut, Bytes(stopAt, chunk))
  {
    hide *;
    n := Pieces(r.length, chunk, cached);
    pieces := [];
    cut := [];
    var total: nat, offset: nat, buffer: nat := r.length, r.offset, r.dst;
    ghost var at: nat := 0;
    var i := 0;
    Starts(r, chunk, cached);
    while i < n && |pieces| < stopAt
      invariant i == Index(|pieces|) && |pieces| <= stopAt && (n < UNSIGNED ==> |pieces| <= n)
      invariant total <= MAX_SIZE && offset <= MAX_SIZE && buffer <= MAX_SIZE
      invariant |cut| == CutOf(n, |pieces|)
      invariant |pieces| == |cut| ==> Cursors(r, at, total, offset, buffer)
      invariant Launches(pieces, cut)
      invariant Underway(r, chunk, cached, n, cut, at)
      decreases stopAt - |pieces|
    {
      IndexMoves(|pieces|, n);
      CutMoves(n, |pieces|);
      var bytesize := if i == n - 1 then total else chunk;
      var piece := Piece(offset, bytesize, buffer);
      if CutOf(n, |pieces| + 1) == |pieces| + 1 {
        CursorsAt(r, at, total, offset, buffer);
        CursorsMove(r, at, total, offset, buffer, bytesize);
        Pass(r, chunk, cached, n, cut, at, total);
        LaunchesMore(pieces, cut, Piece(r.offset + at, bytesize, r.dst + at));
        cut, at := cut + [Piece(r.offset + at, bytesize, r.dst + at)], at + bytesize;
      } else {
        LaunchesOther(pieces, cut, piece);
      }
      AddBounds(offset, bytesize);
      AddBounds(buffer, bytesize);
      pieces := pieces + [piece];
      total := Sub64(total, bytesize);
      offset := Add64(offset, bytesize);
      buffer := Add64(buffer, bytesize);
      i := (i + 1) % UNSIGNED;
    }
    IndexMoves(|pieces|, n);
    Stops(r, chunk, cached, n, cut, at, |pieces|, stopAt);
  }

  /* ---- joining ---- */

  type Code = Responses.Code

  /** A launched piece: in flight, past its decision with a response to push, or over. */
  datatype Phase = Flying | MustPush(code: Code) | Over(code: Code)

  datatype State = State(counter: nat, ok: bool, phase: seq<Phase>, responses: seq<Code>)

  datatype Step = Succeed(piece: nat) | Fail(piece: nat, error: nat) | Push(piece: nat)

  /** `count` pieces were meant, `launched` of them were; stop may have cut it short. The counter is
      built from their number in 32 bits. */
  function Launched(count: nat, launched: nat): State {
    State(count % UNSIGNED, true, seq(launched, _ => Flying), [])
  }

  predicate Enabled(s: State, step: Step) {
    && step.piece < |s.phase|
    && if step.Push? then s.phase[step.piece].MustPush? else s.phase[step.piece].Flying?
  }

  function Next(s: State, step: Step): State
    requires Enabled(s, step)
  {
    match step
    case Succeed(i) =>
      s.(counter := if s.counter == 0 then UNSIGNED - 1 else s.counter - 1,
         phase := s.phase[i := if s.counter == 1 then MustPush(Responses.Success) else Over(Responses.Success)])
    case Fail(i, e) =>
      s.(ok := false, phase := s.phase[i := if s.ok then MustPush(Responses.Failed(e)) else Over(Responses.Failed(e))])
    case Push(i) =>
      s.(responses := s.responses + [s.phase[i].code], phase := s.phase[i := Over(s.phase[i].code)])
  }

  function Succeeded(p: Phase): nat { if !p.Flying? && p.code.Success? then 1 else 0 }

  function Failures(p: Phase): nat { if !p.Flying? && p.code.Failed? then 1 else 0 }

  function Due(p: Phase): nat { if p.MustPush? then 1 else 0 }

  /** The counter is always right in 32 bits, whatever the number of pieces. */
  ghost predicate Counted(s: State, count: nat) {
    && |s.phase| <= count && Weight(s.phase, Succeeded) <= |s.phase|
    && s.counter == (count - Weight(s.phase, Succeeded)) % UNSIGNED
  }

  ghost predicate Inv(s: State, count: nat) {
    && Counted(s, count)
    && (s.ok <==> Weight(s.phase, Failures) == 0)
    && Weight(s.phase, Succeeded) + Weight(s.phase, Failures) <= |s.phase|
    && |s.responses| + Weight(s.phase, Due) == (if Weight(s.phase, Succeeded) == count || !s.ok then 1 else 0)
    && (forall k :: 0 <= k < |s.responses| ==> Right(s, count, s.responses[k]))
    && (forall i :: 0 <= i < |s.phase| && s.phase[i].MustPush? ==> Right(s, count, s.phase[i].code))
  }

  /** The right answer: Success when every piece meant has succeeded, else the error of one that failed. */
  ghost predicate Right(s: State, count: nat, code: Code) {
    if code.Success? then |s.phase| == count && forall i :: 0 <= i < count ==> Succeeded(s.phase[i]) == 1
    else exists i :: 0 <= i < |s.phase| && !s.phase[i].Flying? && s.phase[i].code == code
  }

  lemma {:induction false} BothCounted(phase: seq<Phase>)
    ensures Weight(phase, Succeeded) + Weight(phase, Failures) <= |phase|
    ensures Weight(phase, Succeeded) == |phase| ==> forall i :: 0 <= i < |phase| ==> Succeeded(phase[i]) == 1
  {
    if phase != [] { BothCounted(phase[..|phase| - 1]); }
  }

  lemma {:induction false} PieceMoves(s: State, i: nat, p: Phase)
    requires i < |s.phase|
    ensures
      var after := s.phase[i := p];
      && Weight(after, Succeeded) + Succeeded(s.phase[i]) == Weight(s.phase, Succeeded) + Succeeded(p)
      && Weight(after, Failures) + Failures(s.phase[i]) == Weight(s.phase, Failures) + Failures(p)
      && Weight(after, Due) + Due(s.phase[i]) == Weight(s.phase, Due) + Due(p)
  {
    WeightUpdate(s.phase, Succeeded, i, p);
    WeightUpdate(s.phase, Failures, i, p);
    WeightUpdate(s.phase, Due, i, p);
  }

  /** An answer that was right stays right. */
  lemma {:induction false} StaysRight(s: State, step: Step, count: nat, code: Code)
    requires Enabled(s, step) && Right(s, count, code)
    ensures Right(Next(s, step), count, code)
  {
    if code.Success? {
      assert Succeeded(s.phase[step.piece]) == 1;
    } else {
      var i :| 0 <= i < |s.phase| && !s.phase[i].Flying? && s.phase[i].code == code;
      assert !Next(s, step).phase[i].Flying? && Next(s, step).phase[i].code == code;
    }
  }

  /** A piece in flight has not succeeded, so the counter stands for at least one. */
  lemma {:induction false} FlyingNotCounted(phase: seq<Phase>, i: nat)
    requires i < |phase| && phase[i].Flying?
    ensures Weight(phase, Succeeded) < |phase|
  {
    BothCounted(phase);
    assert Succeeded(phase[i]) == 0;
  }

  /** What one less is, in 32 bits. */
  lemma {:induction false} OneLess(left: nat)
    requires left > 0
    ensures (left - 1) % UNSIGNED == if left % UNSIGNED == 0 then UNSIGNED - 1 else left % UNSIGNED - 1
    ensures left <= UNSIGNED ==> (left % UNSIGNED == 1 <==> left == 1)
  {
  }

  lemma {:induction false} StepCounted(s: State, step: Step, count: nat)
    requires Counted(s, count) && Enabled(s, step)
    ensures Counted(Next(s, step), count)
  {
    hide Weight;
    var s' := Next(s, step);
    PieceMoves(s, step.piece, s'.phase[step.piece]);
    BothCounted(s'.phase);
    var done := Weight(s.phase, Succeeded);
    if step.Succeed? {
      FlyingNotCounted(s.phase, step.piece);
      OneLess(count - done);
      assert Weight(s'.phase, Succeeded) == done + 1;
    } else {
      assert Weight(s'.phase, Succeeded) == done;
    }
  }

  lemma {:induction false} StepCounts(s: State, step: Step, count: nat)
    requires Inv(s, count) && Enabled(s, step) && count <= UNSIGNED
    ensures
      var s' := Next(s, step);
      && (s'.ok <==> Weight(s'.phase, Failures) == 0)
      && |s'.responses| + Weight(s'.phase, Due) == (if Weight(s'.phase, Succeeded) == count || !s'.ok then 1 else 0)
  {
    PieceMoves(s, step.piece, Next(s, step).phase[step.piece]);
    BothCounted(Next(s, step).phase);
    if !step.Push? {
      FlyingNotCounted(s.phase, step.piece);
      OneLess(count - Weight(s.phase, Succeeded));
    }
    hide Weight, Right;
  }

  lemma {:induction false} StepRight(s: State, step: Step, count: nat, i: nat)
    requires Inv(s, count) && Enabled(s, step) && count <= UNSIGNED
    requires i < |s.phase| && Next(s, step).phase[i].MustPush?
    ensures Right(Next(s, step), count, Next(s, step).phase[i].code)
  {
    var s' := Next(s, step);
    if i != step.piece {
      StaysRight(s, step, count, s.phase[i].code);
    } else if step.Succeed? {
      StepCounted(s, step, count);
      FlyingNotCounted(s.phase, i);
      OneLess(count - Weight(s.phase, Succeeded));
      PieceMoves(s, i, s'.phase[i]);
      BothCounted(s'.phase);
    } else {
      assert !s'.phase[i].Flying? && s'.phase[i].code == s'.phase[i].code;
    }
  }

  lemma {:induction false} StepKeepsInv(s: State, step: Step, count: nat)
    requires Inv(s, count) && Enabled(s, step) && count <= UNSIGNED
    ensures Inv(Next(s, step), count)
  {
    var s' := Next(s, step);
    StepCounted(s, step, count);
    StepCounts(s, step, count);
    BothCounted(s'.phase);
    forall k | 0 <= k < |s'.responses|
      ensures Right(s', count, s'.responses[k])
    {
      StaysRight(s, step, count, if k < |s.responses| then s.responses[k] else s.phase[step.piece].code);
    }
    forall i | 0 <= i < |s'.phase| && s'.phase[i].MustPush?
      ensures Right(s', count, s'.phase[i].code)
    {
      StepRight(s, step, count, i);
    }
    hide Weight, Right, Counted, Next;
  }

  /** A run of completions, of any number of pieces meant. */
  ghost predicate Run(states: seq<State>, steps: seq<Step>, count: nat) {
    && |states| == |steps| + 1 && 0 < count
    && |states[0].phase| <= count && states[0] == Launched(count, |states[0].phase|)
    && forall i :: 0 <= i < |steps| ==> Enabled(states[i], steps[i]) && states[i + 1] == Next(states[i], steps[i])
  }

  lemma {:induction false} StartsZero(s: State, count: nat)
    requires 0 < count && |s.phase| <= count && s == Launched(count, |s.phase|)
    ensures Counted(s, count) && Inv(s, count)
  {
    WeightZero(s.phase, Succeeded);
    WeightZero(s.phase, Failures);
    WeightZero(s.phase, Due);
  }

  /** In every run the counter is what is left, in 32 bits. */
  lemma {:induction false} CounterIsWhatIsLeft(states: seq<State>, steps: seq<Step>, count: nat, n: nat)
    requires Run(states, steps, count) && n < |states|
    ensures Counted(states[n], count)
  {
    if n == 0 {
      StartsZero(states[0], count);
    } else {
      CounterIsWhatIsLeft(states, steps, count, n - 1);
      StepCounted(states[n - 1], steps[n - 1], count);
    }
  }

  lemma {:induction false} Reachable(states: seq<State>, steps: seq<Step>, count: nat, n: nat)
    requires Run(states, steps, count) && n < |states| && count <= UNSIGNED
    ensures Inv(states[n], count) && |states[n].phase| == |states[0].phase|
  {
    if n == 0 {
      StartsZero(states[0], count);
    } else {
      Reachable(states, steps, count, n - 1);
      StepKeepsInv(states[n - 1], steps[n - 1], count);
    }
  }

  /** At most one response, and the one there is is right. */
  ghost predicate Answers(s: State, count: nat) {
    |s.responses| <= 1 && (s.responses != [] ==> Right(s, count, s.responses[0]))
  }

  ghost predicate JoinIsRight(count: nat) {
    forall states, steps :: Run(states, steps, count) ==> Answers(states[|steps|], count)
  }

  /** In every order of completions there is never more than one response, and the one there is is right:
      that holds for as many pieces as the counter has values, and for no more. */
  lemma {:induction false} JoinRightUpTo(count: nat)
    requires count > 0
    ensures JoinIsRight(count) <==> count <= UNSIGNED
  {
    if count <= UNSIGNED {
      forall states, steps | Run(states, steps, count)
        ensures Answers(states[|steps|], count)
      {
        Reachable(states, steps, count, |steps|);
      }
    } else {
      var states, steps := AnswersEarly(count);
      assert !Answers(states[|steps|], count);
    }
  }

  function Succeeds(count: nat, k: nat): State
    requires k <= count
  {
    State((count - k) % UNSIGNED, true, seq(count, i => if i < k then Over(Responses.Success) else Flying), [])
  }

  /** The first k pieces succeed; before the counter comes down to nothing none of them answers. */
  lemma {:induction false} Successes(count: nat, k: nat) returns (states: seq<State>, steps: seq<Step>)
    requires count > 0 && k <= (count - 1) % UNSIGNED
    ensures Run(states, steps, count) && |steps| == k && states[k] == Succeeds(count, k)
  {
    if k == 0 {
      states, steps := [Succeeds(count, 0)], [];
      assert Succeeds(count, 0) == Launched(count, count);
    } else {
      states, steps := Successes(count, k - 1);
      var s := states[k - 1];
      OneMoreSucceeds(count, k);
      states, steps := states + [Next(s, Succeed(k - 1))], steps + [Succeed(k - 1)];
    }
  }

  lemma {:induction false} OneMoreSucceeds(count: nat, k: nat)
    requires count > 0 && 0 < k <= (count - 1) % UNSIGNED
    ensures Enabled(Succeeds(count, k - 1), Succeed(k - 1))
    ensures Next(Succeeds(count, k - 1), Succeed(k - 1)) == Succeeds(count, k)
  {
    var left := count - (k - 1);
    OneLess(left);
    NotYetOne(count, k);
    assert Next(Succeeds(count, k - 1), Succeed(k - 1)).phase == Succeeds(count, k).phase;
  }

  lemma {:induction false} NotYetOne(count: nat, k: nat)
    requires count > 0 && 0 < k <= (count - 1) % UNSIGNED
    ensures (count - (k - 1)) % UNSIGNED != 1
  {
  }

  /** With more pieces than the counter has values, Success is pushed while pieces are still in flight:
      with one more, the very first success pushes it. */
  lemma {:induction false} AnswersEarly(count: nat) returns (states: seq<State>, steps: seq<Step>)
    requires count > UNSIGNED
    ensures Run(states, steps, count) && |steps| == (count - 1) % UNSIGNED + 2
    ensures
      var s := states[|steps|];
      && s.responses == [Responses.Success]
      && |s.phase| == count && forall i :: (count - 1) % UNSIGNED < i < count ==> s.phase[i].Flying?
    ensures !Answers(states[|steps|], count)
  {
    var k := (count - 1) % UNSIGNED;
    states, steps := Successes(count, k);
    var s := states[k];
    assert (count - k) % UNSIGNED == 1;
    var t := Next(s, Succeed(k));
    var u := Next(t, Push(k));
    states, steps := states + [t, u], steps + [Succeed(k), Push(k)];
    assert u.phase[count - 1].Flying? && Succeeded(u.phase[count - 1]) == 0;
  }

  ghost predicate AllOver(s: State) { forall i :: 0 <= i < |s.phase| ==> s.phase[i].Over? }

  ghost predicate SomeFailed(s: State) { exists i :: 0 <= i < |s.phase| && s.phase[i].Over? && s.phase[i].code.Failed? }

  /** Once every launched piece is over there is exactly one response if and only if a piece failed or
      none was left unlaunched by a stop: Success when none failed, an error when one did. A stop that
      leaves pieces unlaunched while all others succeed leaves the range unanswered. */
  lemma {:induction false} ExactlyOne(states: seq<State>, steps: seq<Step>, count: nat)
    requires Run(states, steps, count) && AllOver(states[|steps|]) && count <= UNSIGNED
    ensures
      var s := states[|steps|];
      && (|s.responses| == 1 <==> SomeFailed(s) || |s.phase| == count)
      && (|s.responses| == 1 ==> (s.responses[0].Success? <==> !SomeFailed(s)))
  {
    Reachable(states, steps, count, |steps|);
    var s := states[|steps|];
    BothCounted(s.phase);
    WeightZero(s.phase, Due);
    AllCounted(s.phase);
    if !s.ok {
      WeightPositive(s.phase, Failures);
      var p :| p in s.phase && Failures(p) > 0;
      var i :| 0 <= i < |s.phase| && s.phase[i] == p;
      assert SomeFailed(s);
    }
    if SomeFailed(s) {
      var i :| 0 <= i < |s.phase| && s.phase[i].Over? && s.phase[i].code.Failed?;
      WeightAtLeast(s.phase, Failures, i);
    }
    if |s.responses| == 1 { assert Right(s, count, s.responses[0]); }
  }

  lemma {:induction false} AllCounted(phase: seq<Phase>)
    requires forall i :: 0 <= i < |phase| ==> phase[i].Over?
    ensures Weight(phase, Succeeded) + Weight(phase, Failures) == |phase|
  {
    if phase != [] { AllCounted(phase[..|phase| - 1]); }
  }
}
