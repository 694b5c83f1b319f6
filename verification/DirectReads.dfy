/** Direct reads: alignment (posix_io/alignment), and measuring the block a mount needs by trial reads
    (posix_io/mount_capabilities, the ladder). */
module DirectReads {
  import opened Machine

  const MAX_PROBE_BLOCK: nat := 65536

  /* ---- alignment ---- */

  /** A block of 0 or 1 is no rule to follow. */
  function Usable(block: nat): (step: nat)
    ensures step > 0
  {
    if block == 0 then 1 else block
  }

  predicate IsCongruent(fileOffset: nat, address: nat, block: nat) {
    address % Usable(block) == fileOffset % Usable(block)
  }

  lemma {:induction false} AddMod(x: nat, y: nat, d: nat)
    requires d > 0
    ensures (x + y) % d == (x % d + y % d) % d
  {
    DivMod(x, d);
    DivMod(y, d);
    DivMod(x % d + y % d, d);
    var q, p, s := x / d, y / d, (x % d + y % d) / d;
    Distribute(q, p, d);
    Distribute(q + p, s, d);
    RemainderUnique(x + y, d, q + p + s, (x % d + y % d) % d);
  }

  ghost predicate Aligns(shift: nat, x: nat, d: nat)
    requires d > 0
  {
    (x + shift) % d == 0
  }

  /** Two positions are congruent if and only if one shift makes both aligned. */
  lemma {:induction false} CongruentByShift(fileOffset: nat, address: nat, block: nat)
    ensures
      var d := Usable(block);
      IsCongruent(fileOffset, address, block) <==> exists shift :: Aligns(shift, fileOffset, d) && Aligns(shift, address, d)
  {
    var d := Usable(block);
    DivMod(fileOffset, d);
    DivMod(address, d);
    if IsCongruent(fileOffset, address, block) {
      var shift := d - fileOffset % d;
      ShiftAligns(fileOffset, d, shift);
      ShiftAligns(address, d, shift);
      assert Aligns(shift, fileOffset, d) && Aligns(shift, address, d);
    }
    forall shift | Aligns(shift, fileOffset, d) && Aligns(shift, address, d)
      ensures IsCongruent(fileOffset, address, block)
    {
      AlignedRemainder(fileOffset, d, shift);
      AlignedRemainder(address, d, shift);
    }
  }

  lemma {:induction false} ShiftAligns(x: nat, d: nat, shift: nat)
    requires d > 0 && shift == d - x % d
    ensures Aligns(shift, x, d)
  {
    DivMod(x, d);
    assert (x / d + 1) * d == (x / d) * d + d;
    RemainderUnique(x + shift, d, x / d + 1, 0);
  }

  /** The shift that aligns a position fixes its remainder. */
  lemma {:induction false} AlignedRemainder(x: nat, d: nat, shift: nat)
    requires d > 0 && Aligns(shift, x, d)
    ensures x % d == if shift % d == 0 then 0 else d - shift % d
  {
    AddMod(x, shift, d);
    DivMod(x, d);
    DivMod(shift, d);
    var sum := x % d + shift % d;
    DivMod(sum, d);
    if sum < d {
      RemainderUnique(sum, d, 0, sum);
    } else {
      RemainderUnique(sum, d, 1, sum - d);
    }
  }

  ghost predicate IsPower2(x: nat) { exists k: nat :: x == Power2(k) }

  lemma {:induction false} PowersDivide(j: nat, k: nat)
    requires j <= k
    ensures Power2(k) % Power2(j) == 0
    ensures j < k ==> Power2(j) < Power2(k)
  {
    if j < k {
      PowersDivide(j, k - 1);
      var q := Power2(k - 1) / Power2(j);
      DivMod(Power2(k - 1), Power2(j));
      assert Power2(k) == (2 * q) * Power2(j);
      RemainderUnique(Power2(k), Power2(j), 2 * q, 0);
    } else {
      RemainderUnique(Power2(k), Power2(j), 1, 0);
    }
  }

  /** Of two powers of two the smaller divides the larger, and only then. */
  lemma {:induction false} PowerDivides(p: nat, q: nat)
    requires IsPower2(p) && IsPower2(q)
    ensures p > 0 && (q % p == 0 <==> p <= q)
  {
    var j: nat :| p == Power2(j);
    var k: nat :| q == Power2(k);
    if j <= k {
      PowersDivide(j, k);
    } else {
      PowersDivide(k, j);
      RemainderUnique(q, p, 0, q);
    }
  }

  /** Congruence at a block is congruence at every block that divides it - for powers of two, at every
      smaller one, which is why the maximum of two alignments can be tested once. */
  lemma {:induction false} CongruentBelow(fileOffset: nat, address: nat, block: nat, smaller: nat)
    requires IsPower2(block) && IsPower2(smaller) && smaller <= block && IsCongruent(fileOffset, address, block)
    ensures IsCongruent(fileOffset, address, smaller)
  {
    PowerDivides(smaller, block);
    ModOfMod(fileOffset, block, smaller);
    ModOfMod(address, block, smaller);
  }

  lemma {:induction false} ModOfMod(x: nat, d: nat, e: nat)
    requires d > 0 && e > 0 && d % e == 0
    ensures x % d % e == x % e
  {
    DivMod(x, d);
    DivMod(d, e);
    DivMod(x % d, e);
    var q, m, p := x / d, d / e, (x % d) / e;
    Associate(q, m, e);
    Distribute(q * m, p, e);
    RemainderUnique(x, e, q * m + p, x % d % e);
  }

  datatype AlignedRead = AlignedRead(offset: nat, bytesize: nat, buffer: int, head: nat)

  function Expand(offset: nat, bytesize: nat, buffer: nat, block: nat): AlignedRead {
    var step := Usable(block);
    var head := offset % step;
    var wantedEnd := head + bytesize;
    AlignedRead(offset - head, wantedEnd + (step - wantedEnd % step) % step, buffer - head, head)
  }

  /** Rounding up gives the least multiple that is not below. */
  lemma {:induction false} RoundUp(x: nat, d: nat)
    requires d > 0
    ensures
      var up := x + (d - x % d) % d;
      && up >= x && up % d == 0
      && forall y: nat :: y >= x && y % d == 0 ==> y >= up
  {
    DivMod(x, d);
    var up := x + (d - x % d) % d;
    if x % d == 0 {
      RemainderUnique(d, d, 1, 0);
    } else {
      RemainderUnique(d - x % d, d, 0, d - x % d);
      ShiftAligns(x, d, d - x % d);
    }
    forall y: nat | y >= x && y % d == 0
      ensures y >= up
    {
      DivMod(y, d);
      if y < up { NoneBetween(x, y, d); }
    }
  }

  lemma {:induction false} NoneBetween(x: nat, y: nat, d: nat)
    requires d > 0 && x <= y && y % d == 0 && x % d > 0
    ensures y >= x - x % d + d
  {
    DivMod(x, d);
    DivMod(y, d);
    Gap(x / d, y / d, d);
    Gap(y / d, x / d, d);
  }

  /** The expanded read starts and ends aligned, holds the wanted bytes, and nothing smaller would do. */
  lemma {:induction false} ExpandIsLeastCover(offset: nat, bytesize: nat, buffer: nat, block: nat)
    ensures
      var d, out := Usable(block), Expand(offset, bytesize, buffer, block);
      && out.offset % d == 0 && out.bytesize % d == 0
      && out.offset + out.head == offset && offset + bytesize <= out.offset + out.bytesize
      && (forall o: nat :: o <= offset && o % d == 0 ==> o <= out.offset)
      && (forall end: nat :: end >= offset + bytesize && end % d == 0 ==> end >= out.offset + out.bytesize)
  {
    var d, out := Usable(block), Expand(offset, bytesize, buffer, block);
    DivMod(offset, d);
    RemainderUnique(out.offset, d, offset / d, 0);
    RoundUp(out.head + bytesize, d);
    forall o: nat | o <= offset && o % d == 0
      ensures o <= out.offset
    {
      AlignedBelow(o, offset, d);
    }
    forall end: nat | end >= offset + bytesize && end % d == 0
      ensures end >= out.offset + out.bytesize
    {
      AlignedAbove(out.offset, end, d);
      assert end - out.offset >= out.head + bytesize;
    }
  }

  lemma {:induction false} AlignedBelow(o: nat, x: nat, d: nat)
    requires d > 0 && o <= x && o % d == 0
    ensures o <= x - x % d
  {
    DivMod(o, d);
    DivMod(x, d);
    Gap(x / d, o / d, d);
    Gap(o / d, x / d, d);
  }

  lemma {:induction false} AlignedAbove(o: nat, end: nat, d: nat)
    requires d > 0 && o <= end && o % d == 0 && end % d == 0
    ensures (end - o) % d == 0
  {
    DivMod(o, d);
    DivMod(end, d);
    var q, p := o / d, end / d;
    Gap(p, q, d);
    Distribute(p - q, q, d);
    RemainderUnique(end - o, d, p - q, 0);
  }

  /** Where file and memory were in step, the address comes out aligned too, and not below zero. */
  lemma {:induction false} ExpandKeepsInStep(offset: nat, bytesize: nat, buffer: nat, block: nat)
    requires IsCongruent(offset, buffer, block)
    ensures
      var d, out := Usable(block), Expand(offset, bytesize, buffer, block);
      && 0 <= out.buffer && out.buffer % d == 0
      && buffer - out.buffer == offset - out.offset == out.head
  {
    var d := Usable(block);
    DivMod(buffer, d);
    RemainderUnique(buffer - buffer % d, d, buffer / d, 0);
  }

  datatype Configured = Block(size: bv64) | InvalidParameter

  /** usable_direct_block: accepted as given exactly when it is one of the powers of two from 512 to the
      largest probe; anything else is refused, never replaced. */
  function UsableDirectBlock(configured: bv64): (r: Configured)
    ensures r.Block? <==> configured == 512 || configured == 1024 || configured == 2048 || configured == 4096 ||
                          configured == 8192 || configured == 16384 || configured == 32768 || configured == 65536
    ensures r.Block? ==> r.size == configured
  {
    var powerOfTwo := configured != 0 && (configured & (configured - 1)) == 0;
    if !powerOfTwo || configured < 512 || configured > 65536 then InvalidParameter else Block(configured)
  }

  /* ---- trial reads ---- */

  /** A mount's requirements on a direct read's memory, length and file offset, or none it would serve. */
  datatype Mount = Needs(memory: nat, length: nat, offset: nat) | RefusesAll {
    ghost predicate Valid() {
      Needs? ==>
        && IsPower2(memory) && IsPower2(length) && IsPower2(offset)
        && memory <= MAX_PROBE_BLOCK && length <= MAX_PROBE_BLOCK && offset <= MAX_PROBE_BLOCK
    }

    /** The block that satisfies all three. */
    function Block(): nat
      requires Needs?
    {
      Max(Max(memory, length), offset)
    }

    /** pread of `length` bytes at `offset` into `buffer`: refused for alignment or not. */
    ghost predicate Serves(buffer: nat, size: nat, position: nat) {
      Needs? && memory > 0 && length > 0 && offset > 0 &&
      buffer % memory == 0 && size % length == 0 && position % offset == 0
    }
  }

  /** direct_read_at: reads one block at one block's distance from memory aligned to the largest, at the
      given offset. */
  ghost predicate DirectReadAt(mount: Mount, base: nat, block: nat, offset: nat) {
    mount.Serves(base + block, block, offset)
  }

  lemma {:induction false} Doubled(k: nat)
    ensures Power2(k + 1) == 2 * Power2(k)
  {
  }

  /** A rung is placed so that memory, length and offset are all aligned to it and none to twice it. */
  lemma {:induction false} PlacedStrictly(base: nat, rung: nat)
    requires IsPower2(rung) && rung <= MAX_PROBE_BLOCK && base % MAX_PROBE_BLOCK == 0 && IsPower2(MAX_PROBE_BLOCK)
    ensures rung % rung == 0 && rung % (2 * rung) != 0
    ensures (base + rung) % rung == 0
    ensures rung < MAX_PROBE_BLOCK ==> (base + rung) % (2 * rung) != 0
    ensures base + rung + rung <= base + 2 * MAX_PROBE_BLOCK
  {
    RemainderUnique(rung, rung, 1, 0);
    RemainderUnique(rung, 2 * rung, 0, rung);
    PowerDivides(rung, MAX_PROBE_BLOCK);
    ModOfMod(base, MAX_PROBE_BLOCK, rung);
    ZeroMod(rung);
    AddMod(base, rung, rung);
    if rung < MAX_PROBE_BLOCK {
      var k: nat :| rung == Power2(k);
      Doubled(k);
      NextPower(rung, MAX_PROBE_BLOCK);
      PowerDivides(2 * rung, MAX_PROBE_BLOCK);
      ModOfMod(base, MAX_PROBE_BLOCK, 2 * rung);
      ZeroMod(2 * rung);
      AddMod(base, rung, 2 * rung);
    }
  }

  lemma {:induction false} ZeroMod(d: nat)
    requires d > 0
    ensures 0 % d == 0
  {
    RemainderUnique(0, d, 0, 0);
  }

  lemma {:induction false} NextPower(p: nat, q: nat)
    requires IsPower2(p) && IsPower2(q) && p < q
    ensures 2 * p <= q
  {
    var j: nat :| p == Power2(j);
    var k: nat :| q == Power2(k);
    if k <= j { PowersDivide(k, j); }
    if j + 1 < k { PowersDivide(j + 1, k); }
    Doubled(j);
  }

  /** A rung's trial read is served exactly when the rung is at least the block the mount needs. */
  lemma {:induction false} TrialExact(mount: Mount, base: nat, rung: nat)
    requires mount.Valid() && IsPower2(rung) && rung <= MAX_PROBE_BLOCK
    requires base % MAX_PROBE_BLOCK == 0 && IsPower2(MAX_PROBE_BLOCK)
    ensures DirectReadAt(mount, base, rung, rung) <==> mount.Needs? && mount.Block() <= rung
  {
    if mount.Needs? {
      PowerDivides(mount.memory, rung);
      PowerDivides(mount.length, rung);
      PowerDivides(mount.offset, rung);
      PowerDivides(mount.memory, MAX_PROBE_BLOCK);
      ModOfMod(base, MAX_PROBE_BLOCK, mount.memory);
      ZeroMod(mount.memory);
      AddMod(base, rung, mount.memory);
      DivMod(rung, mount.memory);
      SmallMod(rung % mount.memory, mount.memory);
    }
  }

  lemma {:induction false} SmallMod(x: nat, d: nat)
    requires x < d
    ensures x % d == x
  {
    RemainderUnique(x, d, 0, x);
  }

  ghost predicate UsableLadder(rungs: seq<nat>) {
    && rungs != [] && rungs[|rungs| - 1] == MAX_PROBE_BLOCK
    && (forall i :: 0 <= i < |rungs| ==> IsPower2(rungs[i]) && rungs[i] <= MAX_PROBE_BLOCK)
    && (forall i, j :: 0 <= i < j < |rungs| ==> rungs[i] < rungs[j])
  }

  function PowerOfTwo(n: nat): bool {
    n == 1 || (n > 1 && n % 2 == 0 && PowerOfTwo(n / 2))
  }

  lemma {:induction false} PowerOfTwoExact(n: nat)
    ensures PowerOfTwo(n) <==> IsPower2(n)
  {
    if n == 1 {
      assert Power2(0) == 1;
    } else if n > 1 && n % 2 == 0 {
      PowerOfTwoExact(n / 2);
      if IsPower2(n / 2) {
        var k: nat :| n / 2 == Power2(k);
        Doubled(k);
      }
    }
    if IsPower2(n) && n > 1 { PowerHalves(n); }
  }

  lemma {:induction false} PowerHalves(n: nat)
    requires IsPower2(n) && n > 1
    ensures n % 2 == 0 && IsPower2(n / 2)
  {
    var k: nat :| n == Power2(k);
    assert n == 2 * Power2(k - 1);
  }

  /** ladder_is_usable: every rung a power of two that divides the largest and comes after the one below
      it, and the last one the largest. */
  method CheckLadder(rungs: seq<nat>) returns (usable: bool)
    ensures usable <==> UsableLadder(rungs)
  {
    LadderIsUsable();
    for i := 0 to |rungs|
      invariant forall j :: 0 <= j < i ==> IsPower2(rungs[j]) && rungs[j] <= MAX_PROBE_BLOCK
      invariant forall j, k :: 0 <= j < k < i ==> rungs[j] < rungs[k]
    {
      var rung := rungs[i];
      PowerOfTwoExact(rung);
      if rung == 0 || !PowerOfTwo(rung) { return false; }
      PowerDivides(rung, MAX_PROBE_BLOCK);
      if rung > MAX_PROBE_BLOCK || MAX_PROBE_BLOCK % rung != 0 { return false; }
      if i != 0 && rung <= rungs[i - 1] { return false; }
    }
    usable := |rungs| != 0 && rungs[|rungs| - 1] == MAX_PROBE_BLOCK;
  }

  const LADDER: seq<nat> := [512, 4096, 16384, MAX_PROBE_BLOCK]

  lemma {:induction false} LadderIsUsable()
    ensures UsableLadder(LADDER)
  {
    assert Power2(4) == 16 by { assert Power2(1) == 2 && Power2(2) == 4 && Power2(3) == 8; }
    assert Power2(9) == 512 by { assert Power2(5) == 32 && Power2(6) == 64 && Power2(7) == 128 && Power2(8) == 256; }
    assert Power2(12) == 4096 by { assert Power2(10) == 1024 && Power2(11) == 2048; }
    assert Power2(16) == 65536 by { assert Power2(13) == 8192 && Power2(14) == 16384 && Power2(15) == 32768; }
    assert Power2(14) == 16384 by { assert Power2(13) == 8192; }
    assert IsPower2(512) && IsPower2(4096) && IsPower2(16384) && IsPower2(MAX_PROBE_BLOCK);
  }

  datatype LadderBlock = LadderBlock(block: nat, measured: bool)

  /** The file holds a trial read of this rung: one block, one block in. */
  predicate Fits(size: nat, rung: nat) { size >= rung + rung }

  /** What the ladder must answer: the least rung that meets the mount's need, if the file can hold the
      trial of it; no block at all if every rung was tried and refused; and where the file was too short
      to tell, an unmeasured block that is no smaller than the page and above every rung refused. */
  ghost predicate Answers(mount: Mount, rungs: seq<nat>, size: nat, page: nat, r: LadderBlock) {
    && (r.measured && r.block != 0 ==>
          && r.block in rungs && mount.Needs? && mount.Block() <= r.block
          && forall k :: 0 <= k < |rungs| && rungs[k] < r.block ==> rungs[k] < mount.Block())
    && (r.measured && r.block == 0 ==> mount.RefusesAll? && forall k :: 0 <= k < |rungs| ==> Fits(size, rungs[k]))
    && (!r.measured ==>
          && r.block >= page && r.block > 0
          && (forall k :: 0 <= k < |rungs| && Fits(size, rungs[k]) ==> rungs[k] < r.block)
          && (mount.Needs? ==> forall k :: 0 <= k < |rungs| && Fits(size, rungs[k]) ==> rungs[k] < mount.Block()))
  }

  /** ladder_direct_block over any usable ladder. The measured answer comes exactly when the file is long
      enough for the rung that decides: the least that meets the need, or, of a mount that serves none,
      the last. */
  method LadderDirectBlock(mount: Mount, rungs: seq<nat>, size: nat, page: nat) returns (r: LadderBlock)
    requires mount.Valid() && UsableLadder(rungs)
    ensures Answers(mount, rungs, size, page, r)
    ensures r.measured <==> exists k: nat :: k < |rungs| && Fits(size, rungs[k]) && Decides(mount, rungs, k)
  {
    var untested := 0;
    var i := 0;
    while i < |rungs|
      invariant 0 <= i <= |rungs| && untested == 0
      invariant forall k :: 0 <= k < i ==> Fits(size, rungs[k]) && !(mount.Needs? && mount.Block() <= rungs[k])
    {
      var candidate := rungs[i];
      if size < candidate + candidate {
        untested := candidate;
        break;
      }
      var accepted := Accepts(mount, candidate);
      if accepted {
        assert Fits(size, rungs[i]) && Decides(mount, rungs, i);
        return LadderBlock(candidate, true);
      }
      i := i + 1;
    }
    if untested != 0 {
      return LadderBlock(Max(untested, page), false);
    }
    LastDecides(mount, rungs);
    assert Fits(size, rungs[|rungs| - 1]);
    r := LadderBlock(0, true);
  }

  /** The rung on which the ladder's answer turns. */
  ghost predicate Decides(mount: Mount, rungs: seq<nat>, k: nat)
    requires k < |rungs|
  {
    if mount.RefusesAll? then k == |rungs| - 1
    else mount.Block() <= rungs[k] && forall l :: 0 <= l < k ==> rungs[l] < mount.Block()
  }

  lemma {:induction false} LastDecides(mount: Mount, rungs: seq<nat>)
    requires mount.Valid() && UsableLadder(rungs)
    ensures mount.Needs? ==> mount.Block() <= rungs[|rungs| - 1]
    ensures mount.RefusesAll? ==> Decides(mount, rungs, |rungs| - 1)
  {
  }

  /** The trial itself, wherever the allocator put its aligned memory. */
  method Accepts(mount: Mount, rung: nat) returns (accepted: bool)
    requires mount.Valid() && IsPower2(rung) && rung <= MAX_PROBE_BLOCK
    ensures accepted <==> mount.Needs? && mount.Block() <= rung
  {
    LadderIsUsable();
    var page: nat :| true;
    var base: nat := page * MAX_PROBE_BLOCK;
    RemainderUnique(base, MAX_PROBE_BLOCK, page, 0);
    TrialExact(mount, base, rung);
    accepted := mount.Needs? && (base + rung) % mount.memory == 0 && rung % mount.length == 0 && rung % mount.offset == 0;
  }
}
