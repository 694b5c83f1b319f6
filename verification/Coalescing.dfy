/** Merging a file's ranges into contiguous transfers (cpp/streamer/impl/assigner, first step). */
module Coalescing {
  import opened Machine
  import opened Sequences
  import opened ReadTypes

  datatype Outcome<+T> = Ok(value: T) | InvalidParameter

  /** A range of the request, with its file and its place in that file's list. */
  datatype RangeRef = RangeRef(file: nat, index: nat, range: Range)

  /** The first n ranges a transfer stands for, told apart again. */
  function ExpandTo(t: Transfer, n: nat): seq<RangeRef>
    requires n <= |t.rangeSizes|
  {
    if n == 0 then []
    else ExpandTo(t, n - 1) +
         [RangeRef(t.file, t.firstRange + n - 1,
                   Range(RangeOffset(t, n - 1), t.rangeSizes[n - 1], RangeDst(t, n - 1)))]
  }

  function Expand(t: Transfer): seq<RangeRef> {
    ExpandTo(t, |t.rangeSizes|)
  }

  function ExpandAll(ts: seq<Transfer>): seq<RangeRef> {
    if ts == [] then [] else ExpandAll(ts[..|ts| - 1]) + Expand(ts[|ts| - 1])
  }

  function FlattenFile(file: nat, ranges: seq<Range>, n: nat): seq<RangeRef>
    requires n <= |ranges|
  {
    if n == 0 then [] else FlattenFile(file, ranges, n - 1) + [RangeRef(file, n - 1, ranges[n - 1])]
  }

  /** All ranges of the first n files, in the order the caller gave them. */
  function Flatten(files: seq<FileRanges>, n: nat): seq<RangeRef>
    requires n <= |files|
  {
    if n == 0 then []
    else Flatten(files, n - 1) + FlattenFile(n - 1, files[n - 1].ranges, |files[n - 1].ranges|)
  }

  function TotalOf(refs: seq<RangeRef>): nat {
    if refs == [] then 0 else TotalOf(refs[..|refs| - 1]) + refs[|refs| - 1].range.size
  }

  lemma {:induction false} TotalConcat(a: seq<RangeRef>, b: seq<RangeRef>)
    ensures TotalOf(a + b) == TotalOf(a) + TotalOf(b)
  {
    if b == [] {
      assert a + b == a;
    } else {
      assert (a + b)[..|a + b| - 1] == a + b[..|b| - 1];
      TotalConcat(a, b[..|b| - 1]);
    }
  }

  lemma TotalAppend(a: seq<RangeRef>, r: RangeRef)
    ensures TotalOf(a + [r]) == TotalOf(a) + r.range.size
  {
    assert (a + [r])[..|a|] == a;
  }

  /** The fields of a range are machine words. */
  ghost predicate IsWord(r: Range) { r.offset <= MAX_SIZE && r.size <= MAX_SIZE && r.dst <= MAX_SIZE }

  ghost predicate Words(files: seq<FileRanges>) {
    forall i, j :: 0 <= i < |files| && 0 <= j < |files[i].ranges| ==> IsWord(files[i].ranges[j])
  }

  /** The extension test: the next range starts where the transfer ends, in the file and in memory. */
  predicate Adjacent(t: Transfer, offset: nat, dst: nat) {
    Add64(t.offset, t.size) == offset && Add64(t.dst, t.size) == dst
  }

  /** What the test is for. */
  predicate Continues(t: Transfer, offset: nat, dst: nat) {
    t.offset + t.size == offset && t.dst + t.size == dst
  }

  /** s starts where the end of r lands once it has wrapped: the machine takes it for the continuation. */
  predicate WrapsInto(r: Range, s: Range) {
    && (r.offset + r.size > MAX_SIZE || r.dst + r.size > MAX_SIZE)
    && Add64(r.offset, r.size) == s.offset && Add64(r.dst, r.size) == s.dst
  }

  /** No range of the first n is taken for the continuation of its neighbour by a wrapped sum. */
  ghost predicate NoWrapBelow(ranges: seq<Range>, n: nat) {
    n <= |ranges| && forall i, j :: 0 <= i < j < n && j == i + 1 ==> !WrapsInto(ranges[i], ranges[j])
  }

  ghost predicate NoWrappedNeighbours(files: seq<FileRanges>) {
    forall f :: 0 <= f < |files| ==> NoWrapBelow(files[f].ranges, |files[f].ranges|)
  }

  ghost predicate Merged(t: Transfer) {
    t.rangeSizes != [] && t.size == Sum(t.rangeSizes) && t.tasks == []
  }

  ghost predicate AllMerged(ts: seq<Transfer>) { forall k :: 0 <= k < |ts| ==> Merged(ts[k]) }

  /** Nothing more could be merged: a transfer ends where its file's next one does not start. */
  ghost predicate Maximal(ts: seq<Transfer>) {
    forall k, l :: 0 <= k < l < |ts| && l == k + 1 && ts[k].file == ts[l].file ==>
      !Continues(ts[k], ts[l].offset, ts[l].dst)
  }

  ghost predicate FilesBelow(ts: seq<Transfer>, n: nat) {
    forall k :: 0 <= k < |ts| ==> ts[k].file < n
  }

  /** What coalescing must give back: transfers that expand to exactly the ranges of the request. */
  ghost predicate Coalesced(files: seq<FileRanges>, ts: seq<Transfer>) {
    ExpandAll(ts) == Flatten(files, |files|) && AllMerged(ts) && Maximal(ts) && FilesBelow(ts, |files|)
  }

  /** The machine's test differs from the exact one precisely where a sum wraps and its remainder is what
      the next range happens to start with. */
  lemma {:induction false} AdjacentExact(t: Transfer, offset: nat, dst: nat)
    requires offset <= MAX_SIZE && dst <= MAX_SIZE
    ensures (Adjacent(t, offset, dst) <==> Continues(t, offset, dst)) <==>
              (t.offset + t.size <= MAX_SIZE && t.dst + t.size <= MAX_SIZE) || !Adjacent(t, offset, dst)
    ensures Continues(t, offset, dst) ==> Adjacent(t, offset, dst)
  {
  }

  lemma {:induction false} ExpandToGrown(t: Transfer, x: nat, n: nat)
    requires n <= |t.rangeSizes|
    ensures ExpandTo(Grown(t, x), n) == ExpandTo(t, n)
  {
    if n > 0 {
      ExpandToGrown(t, x, n - 1);
      assert (t.rangeSizes + [x])[..n - 1] == t.rangeSizes[..n - 1];
    }
  }

  /** The transfer with one more range, of x bytes. */
  function Grown(t: Transfer, x: nat): Transfer {
    t.(size := t.size + x, rangeSizes := t.rangeSizes + [x])
  }

  function Single(file: nat, index: nat, r: Range): Transfer {
    Transfer(file, r.offset, r.size, r.dst, index, [r.size], [])
  }

  /** What the transfer holds a range of x bytes to be once it is merged: it starts where the transfer ends. */
  function Appended(t: Transfer, x: nat): RangeRef {
    RangeRef(t.file, t.firstRange + |t.rangeSizes|, Range(t.offset + t.size, x, t.dst + t.size))
  }

  lemma {:induction false} Extend(t: Transfer, x: nat)
    requires Merged(t)
    ensures Merged(Grown(t, x)) && Expand(Grown(t, x)) == Expand(t) + [Appended(t, x)]
  {
    var n := |t.rangeSizes|;
    var grown := Grown(t, x);
    SumAppend(t.rangeSizes, x);
    ExpandToGrown(t, x, n);
    assert grown.rangeSizes[..n] == t.rangeSizes;
  }

  lemma {:induction false} Open(file: nat, index: nat, r: Range)
    ensures Merged(Single(file, index, r)) && Expand(Single(file, index, r)) == [RangeRef(file, index, r)]
  {
    assert Sum([r.size]) == Sum([r.size][..0]) + r.size;
    assert ExpandTo(Single(file, index, r), 1) == ExpandTo(Single(file, index, r), 0) + [RangeRef(file, index, r)];
  }

  /** The open transfer, if there is one, is the last. */
  ghost predicate Loose(ts: seq<Transfer>, open: nat) {
    (open == |ts| || open + 1 == |ts|) && AllMerged(ts)
  }

  lemma {:induction false} ExtendLast(ts: seq<Transfer>, open: nat, x: nat)
    requires Loose(ts, open) && open < |ts|
    ensures Loose(ts[open := Grown(ts[open], x)], open)
    ensures ExpandAll(ts[open := Grown(ts[open], x)]) == ExpandAll(ts) + [Appended(ts[open], x)]
  {
    Extend(ts[open], x);
    hide Merged, Expand, Grown, Appended;
    var after := ts[open := Grown(ts[open], x)];
    assert after[..open] == ts[..open];
  }

  lemma {:induction false} OpenNew(ts: seq<Transfer>, open: nat, file: nat, index: nat, r: Range)
    requires Loose(ts, open)
    ensures Loose(ts + [Single(file, index, r)], |ts|)
    ensures ExpandAll(ts + [Single(file, index, r)]) == ExpandAll(ts) + [RangeRef(file, index, r)]
  {
    Open(file, index, r);
    hide Merged, Expand, Single;
    assert (ts + [Single(file, index, r)])[..|ts|] == ts;
  }

  /** Where the pass over a file stands while no merge was wrong: the open transfer holds the file's last
      ranges and ends with the last of them. */
  ghost predicate SoFar(ts: seq<Transfer>, open: nat, file: nat, ranges: seq<Range>, n: nat) {
    && Maximal(ts) && n <= |ranges|
    && if n == 0 then open == |ts| && FilesBelow(ts, file)
       else
         && open + 1 == |ts| && ts[open].file == file && ts[open].firstRange + |ts[open].rangeSizes| == n
         && ts[open].offset + ts[open].size == ranges[n - 1].offset + ranges[n - 1].size
         && ts[open].dst + ts[open].size == ranges[n - 1].dst + ranges[n - 1].size
         && FilesBelow(ts, file + 1)
  }

  lemma {:induction false} ExtendRight(ts: seq<Transfer>, open: nat, file: nat, ranges: seq<Range>, n: nat)
    requires SoFar(ts, open, file, ranges, n) && n < |ranges| && open < |ts|
    requires Continues(ts[open], ranges[n].offset, ranges[n].dst)
    ensures SoFar(ts[open := Grown(ts[open], ranges[n].size)], open, file, ranges, n + 1)
    ensures Appended(ts[open], ranges[n].size) == RangeRef(file, n, ranges[n])
  {
  }

  lemma {:induction false} OpenRight(ts: seq<Transfer>, open: nat, file: nat, ranges: seq<Range>, n: nat)
    requires SoFar(ts, open, file, ranges, n) && n < |ranges|
    requires open < |ts| ==> !Continues(ts[open], ranges[n].offset, ranges[n].dst)
    ensures SoFar(ts + [Single(file, n, ranges[n])], |ts|, file, ranges, n + 1)
  {
  }

  /** While no merge was wrong, the next one is exactly when the neighbour's wrapped end is hit. */
  lemma {:induction false} NextMerge(ts: seq<Transfer>, open: nat, file: nat, ranges: seq<Range>, n: nat)
    requires SoFar(ts, open, file, ranges, n) && n < |ranges| && open < |ts| && IsWord(ranges[n])
    ensures n > 0
    ensures Adjacent(ts[open], ranges[n].offset, ranges[n].dst) <==>
              Continues(ts[open], ranges[n].offset, ranges[n].dst) || WrapsInto(ranges[n - 1], ranges[n])
    ensures WrapsInto(ranges[n - 1], ranges[n]) ==> !Continues(ts[open], ranges[n].offset, ranges[n].dst)
  {
  }

  /** One pass of coalesce over a range: extend the open transfer when it passes the test, else open a new
      one. Whatever wraps, one range of that size is added; it is the right one as long as the range is not
      hit by its neighbour's wrapped end, and a wrong one if it is. */
  method CoalesceRange(ts: seq<Transfer>, open: nat, file: nat, ranges: seq<Range>, n: nat)
    returns (ts': seq<Transfer>, open': nat, ghost added: RangeRef)
    requires Loose(ts, open) && n < |ranges| && IsWord(ranges[n])
    ensures Loose(ts', open') && ExpandAll(ts') == ExpandAll(ts) + [added] && added.range.size == ranges[n].size
    ensures SoFar(ts, open, file, ranges, n) && (n == 0 || !WrapsInto(ranges[n - 1], ranges[n])) ==>
              SoFar(ts', open', file, ranges, n + 1) && added == RangeRef(file, n, ranges[n])
    ensures SoFar(ts, open, file, ranges, n) && n > 0 && WrapsInto(ranges[n - 1], ranges[n]) ==>
              added != RangeRef(file, n, ranges[n])
  {
    var range := ranges[n];
    ghost var right := SoFar(ts, open, file, ranges, n);
    if right && open < |ts| { NextMerge(ts, open, file, ranges, n); }
    if open < |ts| && Adjacent(ts[open], range.offset, range.dst) {
      ExtendLast(ts, open, range.size);
      added := Appended(ts[open], range.size);
      if right && Continues(ts[open], range.offset, range.dst) { ExtendRight(ts, open, file, ranges, n); }
      var current := ts[open];
      ts' := ts[open := current.(size := current.size + range.size, rangeSizes := current.rangeSizes + [range.size])];
      open' := open;
    } else {
      OpenNew(ts, open, file, n, range);
      added := RangeRef(file, n, range);
      if right { OpenRight(ts, open, file, ranges, n); }
      open' := |ts|;
      ts' := ts + [Transfer(file, range.offset, range.size, range.dst, n, [range.size], [])];
    }
  }

  lemma {:induction false} FlattenLength(files: seq<FileRanges>, n: nat)
    requires n < |files|
    ensures TotalOf(Flatten(files, n + 1)) <= TotalOf(Flatten(files, |files|))
    decreases |files| - n
  {
    if n + 1 < |files| {
      FlattenLength(files, n + 1);
      TotalConcat(Flatten(files, n + 1), FlattenFile(n + 1, files[n + 1].ranges, |files[n + 1].ranges|));
    }
  }

  lemma {:induction false} FlattenFileTotal(file: nat, ranges: seq<Range>, n: nat)
    requires n < |ranges|
    ensures TotalOf(FlattenFile(file, ranges, n + 1)) <= TotalOf(FlattenFile(file, ranges, |ranges|))
    ensures TotalOf(FlattenFile(file, ranges, n + 1)) == TotalOf(FlattenFile(file, ranges, n)) + ranges[n].size
    decreases |ranges| - n
  {
    TotalAppend(FlattenFile(file, ranges, n), RangeRef(file, n, ranges[n]));
    if n + 1 < |ranges| { FlattenFileTotal(file, ranges, n + 1); }
  }

  ghost predicate Closed(ts: seq<Transfer>, n: nat) { Maximal(ts) && FilesBelow(ts, n) }

  /** What the transfers expand to, beside what they should: as many ranges, of the same total. */
  ghost predicate Alike(got: seq<RangeRef>, wanted: seq<RangeRef>) {
    |got| == |wanted| && TotalOf(got) == TotalOf(wanted)
  }

  lemma {:induction false} AlikeNext(got: seq<RangeRef>, wanted: seq<RangeRef>, x: RangeRef, y: RangeRef)
    requires Alike(got, wanted) && x.range.size == y.range.size
    ensures Alike(got + [x], wanted + [y])
    ensures got + [x] == wanted + [y] <==> got == wanted && x == y
  {
    TotalAppend(got, x);
    TotalAppend(wanted, y);
    if got + [x] == wanted + [y] {
      assert got == (got + [x])[..|got|] && wanted == (wanted + [y])[..|wanted|];
      assert x == (got + [x])[|got|] && y == (wanted + [y])[|wanted|];
    }
  }

  /** Where the pass over one file stands after n ranges, begun with `before` expanding to what it should or
      not: it still does exactly if it did and no neighbour's wrapped end was hit. */
  ghost predicate Passing(ts: seq<Transfer>, open: nat, file: nat, ranges: seq<Range>, n: nat,
                          wanted: seq<RangeRef>, right0: bool)
    requires n <= |ranges|
  {
    && Loose(ts, open) && Alike(ExpandAll(ts), wanted + FlattenFile(file, ranges, n))
    && (right0 && NoWrapBelow(ranges, n) <==> ExpandAll(ts) == wanted + FlattenFile(file, ranges, n))
    && (right0 && NoWrapBelow(ranges, n) ==> SoFar(ts, open, file, ranges, n))
  }

  lemma {:induction false} PassingNext(ts: seq<Transfer>, open: nat, file: nat, ranges: seq<Range>, n: nat,
                                       wanted: seq<RangeRef>, right0: bool, ts': seq<Transfer>, open': nat, added: RangeRef)
    requires n < |ranges| && Passing(ts, open, file, ranges, n, wanted, right0)
    requires Loose(ts', open') && ExpandAll(ts') == ExpandAll(ts) + [added] && added.range.size == ranges[n].size
    requires SoFar(ts, open, file, ranges, n) && (n == 0 || !WrapsInto(ranges[n - 1], ranges[n])) ==>
               SoFar(ts', open', file, ranges, n + 1) && added == RangeRef(file, n, ranges[n])
    requires SoFar(ts, open, file, ranges, n) && n > 0 && WrapsInto(ranges[n - 1], ranges[n]) ==>
               added != RangeRef(file, n, ranges[n])
    ensures Passing(ts', open', file, ranges, n + 1, wanted, right0)
  {
    var sofar, y := wanted + FlattenFile(file, ranges, n), RangeRef(file, n, ranges[n]);
    AlikeNext(ExpandAll(ts), sofar, added, y);
    assert wanted + FlattenFile(file, ranges, n + 1) == sofar + [y];
    NoWrapNext(ranges, n);
    hide NoWrapBelow, SoFar, Loose, Alike, ExpandAll, WrapsInto;
  }

  lemma {:induction false} NoWrapNext(ranges: seq<Range>, n: nat)
    requires n < |ranges|
    ensures NoWrapBelow(ranges, n + 1) <==> NoWrapBelow(ranges, n) && (n == 0 || !WrapsInto(ranges[n - 1], ranges[n]))
  {
    hide WrapsInto;
  }

  /** The pass over one file: no transfer is open at its start, so none ever spans two files. */
  method CoalesceFile(ts: seq<Transfer>, file: nat, ranges: seq<Range>, total: nat, ghost wanted: seq<RangeRef>)
    returns (ts': seq<Transfer>, total': Outcome<nat>)
    requires AllMerged(ts) && total <= MAX_SIZE && Alike(ExpandAll(ts), wanted) && (forall i :: 0 <= i < |ranges| ==> IsWord(ranges[i]))
    requires ExpandAll(ts) == wanted ==> Closed(ts, file)
    ensures total' == Summed(total + TotalOf(FlattenFile(file, ranges, |ranges|)))
    ensures total'.Ok? ==> AllMerged(ts') && Alike(ExpandAll(ts'), wanted + FlattenFile(file, ranges, |ranges|))
    ensures total'.Ok? ==> (ExpandAll(ts') == wanted + FlattenFile(file, ranges, |ranges|) <==>
                              ExpandAll(ts) == wanted && NoWrapBelow(ranges, |ranges|))
    ensures total'.Ok? && ExpandAll(ts') == wanted + FlattenFile(file, ranges, |ranges|) ==> Closed(ts', file + 1)
  {
    hide *;
    ts' := ts;
    ghost var right0 := ExpandAll(ts) == wanted;
    var open: nat, totalBytes: nat := |ts|, total;
    PassingStarts(ts, file, ranges, wanted);
    for i := 0 to |ranges|
      invariant Passing(ts', open, file, ranges, i, wanted, right0)
      invariant totalBytes == total + TotalOf(FlattenFile(file, ranges, i)) <= MAX_SIZE
    {
      var range := ranges[i];
      FlattenFileTotal(file, ranges, i);
      if totalBytes > MAX_SIZE - range.size {
        SummedMeans(totalBytes + range.size, total + TotalOf(FlattenFile(file, ranges, |ranges|)));
        total' := Outcome.InvalidParameter;
        return;
      }
      totalBytes := totalBytes + range.size;
      ts', open := Passed(ts', open, file, ranges, i, wanted, right0);
    }
    SummedMeans(totalBytes, totalBytes);
    PassingEnds(ts', open, file, ranges, wanted, right0);
    total' := Ok(totalBytes);
  }

  lemma {:induction false} PassingStarts(ts: seq<Transfer>, file: nat, ranges: seq<Range>, wanted: seq<RangeRef>)
    requires AllMerged(ts) && Alike(ExpandAll(ts), wanted) && (ExpandAll(ts) == wanted ==> Closed(ts, file))
    ensures Passing(ts, |ts|, file, ranges, 0, wanted, ExpandAll(ts) == wanted) && TotalOf(FlattenFile(file, ranges, 0)) == 0
  {
    assert wanted + FlattenFile(file, ranges, 0) == wanted;
    hide AllMerged, Alike, ExpandAll;
  }

  lemma {:induction false} PassingEnds(ts: seq<Transfer>, open: nat, file: nat, ranges: seq<Range>, wanted: seq<RangeRef>, right0: bool)
    requires Passing(ts, open, file, ranges, |ranges|, wanted, right0)
    ensures AllMerged(ts) && Alike(ExpandAll(ts), wanted + FlattenFile(file, ranges, |ranges|))
    ensures ExpandAll(ts) == wanted + FlattenFile(file, ranges, |ranges|) <==> right0 && NoWrapBelow(ranges, |ranges|)
    ensures ExpandAll(ts) == wanted + FlattenFile(file, ranges, |ranges|) ==> Closed(ts, file + 1)
  {
    hide NoWrapBelow, AllMerged, Alike, ExpandAll;
  }

  method Passed(ts: seq<Transfer>, open: nat, file: nat, ranges: seq<Range>, n: nat, ghost wanted: seq<RangeRef>, ghost right0: bool)
    returns (ts': seq<Transfer>, open': nat)
    requires n < |ranges| && IsWord(ranges[n]) && Passing(ts, open, file, ranges, n, wanted, right0)
    ensures Passing(ts', open', file, ranges, n + 1, wanted, right0)
  {
    ghost var added;
    ts', open', added := CoalesceRange(ts, open, file, ranges, n);
    PassingNext(ts, open, file, ranges, n, wanted, right0, ts', open', added);
  }

  /** A total that fits a size_t, or none. */
  function Summed(total: nat): Outcome<nat> {
    if total <= MAX_SIZE then Ok(total) else InvalidParameter
  }

  /** The first n files' ranges, all rightly merged. */
  ghost predicate RightBelow(files: seq<FileRanges>, n: nat) {
    n <= |files| && forall f :: 0 <= f < n ==> NoWrapBelow(files[f].ranges, |files[f].ranges|)
  }

  /** The whole pass, on any request. Refused exactly when the byte total does not fit a size_t; otherwise
      the transfers are right if and only if no range is hit by its neighbour's wrapped end. Either way
      there is one range in them for each of the request, and the bytes add up. */
  method Coalesce(files: seq<FileRanges>) returns (result: Outcome<nat>, ts: seq<Transfer>)
    requires Words(files)
    ensures result == Summed(TotalOf(Flatten(files, |files|)))
    ensures result.Ok? ==> (Coalesced(files, ts) <==> NoWrappedNeighbours(files))
    ensures result.Ok? ==> AllMerged(ts) && Alike(ExpandAll(ts), Flatten(files, |files|))
  {
    hide *;
    var totalBytes: nat := 0;
    ts := [];
    NoneCovered(files);
    for f := 0 to |files|
      invariant Covered(ts, files, f) && totalBytes == TotalOf(Flatten(files, f)) <= MAX_SIZE
    {
      FlattenLength(files, f);
      SummedMeans(TotalOf(Flatten(files, f + 1)), TotalOf(Flatten(files, |files|)));
      ts, result := CoalesceNext(ts, files, f, totalBytes);
      if result.InvalidParameter? { return; }
      totalBytes := result.value;
    }
    SummedMeans(totalBytes, totalBytes);
    AllCovered(ts, files);
    result := Ok(totalBytes);
  }

  lemma {:induction false} SummedMeans(a: nat, b: nat)
    requires a <= b
    ensures Summed(a) == if a <= MAX_SIZE then Ok(a) else Outcome.InvalidParameter
    ensures Summed(a).InvalidParameter? ==> Summed(b) == Summed(a)
  {
  }

  lemma {:induction false} NoneCovered(files: seq<FileRanges>)
    ensures Covered([], files, 0) && TotalOf(Flatten(files, 0)) == 0 <= MAX_SIZE
  {
  }

  lemma {:induction false} AllCovered(ts: seq<Transfer>, files: seq<FileRanges>)
    requires Covered(ts, files, |files|)
    ensures Coalesced(files, ts) <==> NoWrappedNeighbours(files)
    ensures AllMerged(ts) && Alike(ExpandAll(ts), Flatten(files, |files|))
  {
    hide NoWrapBelow, AllMerged, Alike, ExpandAll, Flatten, Maximal, FilesBelow;
  }

  /** One more file. */
  method CoalesceNext(ts: seq<Transfer>, files: seq<FileRanges>, f: nat, total: nat)
    returns (ts': seq<Transfer>, total': Outcome<nat>)
    requires Words(files) && f < |files| && Covered(ts, files, f) && total == TotalOf(Flatten(files, f)) <= MAX_SIZE
    ensures total' == Summed(TotalOf(Flatten(files, f + 1)))
    ensures total'.Ok? ==> Covered(ts', files, f + 1)
  {
    var ranges := files[f].ranges;
    TotalConcat(Flatten(files, f), FlattenFile(f, ranges, |ranges|));
    ts', total' := CoalesceFile(ts, f, ranges, total, Flatten(files, f));
    if total'.Ok? { CoveredNext(ts, ts', files, f); }
    hide Covered, AllMerged, Alike, NoWrapBelow, Closed;
  }

  /** Where the pass stands after n files. */
  ghost predicate Covered(ts: seq<Transfer>, files: seq<FileRanges>, n: nat) {
    && n <= |files| && AllMerged(ts) && Alike(ExpandAll(ts), Flatten(files, n))
    && (ExpandAll(ts) == Flatten(files, n) <==> RightBelow(files, n))
    && (ExpandAll(ts) == Flatten(files, n) ==> Closed(ts, n))
  }

  lemma {:induction false} CoveredNext(ts: seq<Transfer>, ts': seq<Transfer>, files: seq<FileRanges>, f: nat)
    requires f < |files| && Covered(ts, files, f) && AllMerged(ts')
    requires
      var ranges := files[f].ranges;
      var wanted := Flatten(files, f) + FlattenFile(f, ranges, |ranges|);
      && Alike(ExpandAll(ts'), wanted)
      && (ExpandAll(ts') == wanted <==> ExpandAll(ts) == Flatten(files, f) && NoWrapBelow(ranges, |ranges|))
      && (ExpandAll(ts') == wanted ==> Closed(ts', f + 1))
    ensures Covered(ts', files, f + 1)
  {
    hide AllMerged, Alike, NoWrapBelow, Closed, ExpandAll;
  }

  /** A request that Coalesce accepts and merges wrongly: the first range's end wraps, in the file and in
      memory, to where the second one starts. */
  method WrapMerges() returns (files: seq<FileRanges>, result: Outcome<nat>, ts: seq<Transfer>)
    ensures files == [FileRanges("f", [Range(MAX_SIZE, 4, MAX_SIZE), Range(3, 5, 3)])] && Words(files)
    ensures result == Ok(9) && !Coalesced(files, ts)
  {
    var ranges := [Range(MAX_SIZE, 4, MAX_SIZE), Range(3, 5, 3)];
    files := [FileRanges("f", ranges)];
    assert WrapsInto(ranges[0], ranges[1]);
    assert !NoWrapBelow(files[0].ranges, |files[0].ranges|);
    FlattenFileTotal(0, ranges, 0);
    FlattenFileTotal(0, ranges, 1);
    TotalConcat(Flatten(files, 0), FlattenFile(0, ranges, 2));
    assert Flatten(files, 1) == Flatten(files, 0) + FlattenFile(0, ranges, 2);
    result, ts := Coalesce(files);
  }
}
