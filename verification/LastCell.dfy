/** Which requests the splitter's second assert fails (impl/chunk_splitter, reached from impl/streamer): a
    condition on the ranges as the caller gave them, whatever workers and slices there are. */
module LastCell {
  import opened Machine
  import opened Sequences
  import opened ReadTypes
  import opened ChunkSplitter
  import opened Batches
  import opened Coalescing

  /** Range i starts where the one before it ends, in the file and in memory. */
  predicate Follows(ranges: seq<Range>, i: nat) {
    && 0 < i < |ranges|
    && ranges[i].offset == ranges[i - 1].offset + ranges[i - 1].size
    && ranges[i].dst == ranges[i - 1].dst + ranges[i - 1].size
  }

  /** Range i is empty and follows one whose last byte is in the last cell of the chunk grid, or one that is
      empty, follows none itself, and lies in that cell. */
  predicate RangeTrips(ranges: seq<Range>, c: nat, i: nat)
    requires c > 0
  {
    && Follows(ranges, i) && ranges[i].size == 0
    && if ranges[i - 1].size > 0 then InLastCell(ranges[i].offset - 1, c)
       else !Follows(ranges, i - 1) && InLastCell(ranges[i].offset, c)
  }

  ghost predicate FilesTrip(files: seq<FileRanges>, c: nat)
    requires c > 0
  {
    exists f: nat, i: nat :: f < |files| && RangeTrips(files[f].ranges, c, i)
  }

  ghost predicate SomeTransferTrips(ts: seq<Transfer>, c: nat)
    requires c > 0
  {
    exists k: nat :: k < |ts| && TransferTrips(ts[k], c, |ts[k].rangeSizes|)
  }

  /** The transfers are the request's ranges, merged as far as they can be. */
  ghost predicate MergedFrom(files: seq<FileRanges>, ts: seq<Transfer>) {
    && ExpandAll(ts) == Flatten(files, |files|) && Maximal(ts)
    && forall k :: 0 <= k < |ts| ==> ts[k].rangeSizes != [] && Sum(ts[k].rangeSizes) == ts[k].size
  }

  /* ---- places in the two lists of ranges ---- */

  function RefOf(t: Transfer, j: nat): RangeRef
    requires j < |t.rangeSizes|
  {
    RangeRef(t.file, t.firstRange + j, Range(RangeOffset(t, j), t.rangeSizes[j], RangeDst(t, j)))
  }

  lemma {:induction false} ExpandToAt(t: Transfer, n: nat, j: nat)
    requires j < n <= |t.rangeSizes|
    ensures |ExpandTo(t, n)| == n && ExpandTo(t, n)[j] == RefOf(t, j)
  {
    ExpandToLength(t, n - 1);
    if j < n - 1 { ExpandToAt(t, n - 1, j); }
  }

  lemma {:induction false} ExpandToLength(t: Transfer, n: nat)
    requires n <= |t.rangeSizes|
    ensures |ExpandTo(t, n)| == n
  {
    if n > 0 { ExpandToLength(t, n - 1); }
  }

  /** Where the k-th transfer's ranges begin. */
  function Base(ts: seq<Transfer>, k: nat): nat
    requires k <= |ts|
  {
    |ExpandAll(ts[..k])|
  }

  lemma {:induction false} BaseStep(ts: seq<Transfer>, k: nat)
    requires k < |ts|
    ensures Base(ts, k + 1) == Base(ts, k) + |ts[k].rangeSizes|
  {
    assert ts[..k + 1][..k] == ts[..k];
    ExpandToLength(ts[k], |ts[k].rangeSizes|);
  }

  lemma {:induction false} ExpandAllAt(ts: seq<Transfer>, k: nat, j: nat)
    requires k < |ts| && j < |ts[k].rangeSizes|
    ensures Base(ts, k) + j < |ExpandAll(ts)| && ExpandAll(ts)[Base(ts, k) + j] == RefOf(ts[k], j)
  {
    var n := |ts| - 1;
    ExpandToAt(ts[k], |ts[k].rangeSizes|, j);
    if k < n {
      ExpandAllAt(ts[..n], k, j);
      assert ts[..n][..k] == ts[..k];
    }
  }

  lemma {:induction false} ExpandAllFrom(ts: seq<Transfer>, p: nat) returns (k: nat, j: nat)
    requires p < |ExpandAll(ts)|
    ensures k < |ts| && j < |ts[k].rangeSizes| && p == Base(ts, k) + j && ExpandAll(ts)[p] == RefOf(ts[k], j)
  {
    var n := |ts| - 1;
    ExpandToLength(ts[n], |ts[n].rangeSizes|);
    if p < |ExpandAll(ts[..n])| {
      k, j := ExpandAllFrom(ts[..n], p);
      assert ts[..n][..k] == ts[..k];
    } else {
      k, j := n, p - |ExpandAll(ts[..n])|;
      ExpandToAt(ts[n], |ts[n].rangeSizes|, j);
    }
  }

  lemma {:induction false} FlattenFileAt(file: nat, ranges: seq<Range>, n: nat)
    requires n <= |ranges|
    ensures |FlattenFile(file, ranges, n)| == n
    ensures forall i :: 0 <= i < n ==> FlattenFile(file, ranges, n)[i] == RangeRef(file, i, ranges[i])
  {
    if n > 0 { FlattenFileAt(file, ranges, n - 1); }
  }

  lemma {:induction false} FlattenAt(files: seq<FileRanges>, n: nat, f: nat, i: nat)
    requires f < n <= |files| && i < |files[f].ranges|
    ensures |Flatten(files, f)| + i < |Flatten(files, n)|
    ensures Flatten(files, n)[|Flatten(files, f)| + i] == RangeRef(f, i, files[f].ranges[i])
  {
    FlattenFileAt(n - 1, files[n - 1].ranges, |files[n - 1].ranges|);
    if f < n - 1 { FlattenAt(files, n - 1, f, i); }
  }

  lemma {:induction false} FlattenFrom(files: seq<FileRanges>, n: nat, p: nat) returns (f: nat, i: nat)
    requires n <= |files| && p < |Flatten(files, n)|
    ensures f < n && i < |files[f].ranges| && p == |Flatten(files, f)| + i
    ensures Flatten(files, n)[p] == RangeRef(f, i, files[f].ranges[i])
  {
    FlattenFileAt(n - 1, files[n - 1].ranges, |files[n - 1].ranges|);
    if p < |Flatten(files, n - 1)| {
      f, i := FlattenFrom(files, n - 1, p);
    } else {
      f, i := n - 1, p - |Flatten(files, n - 1)|;
    }
  }

  /* ---- the same range in both ---- */

  /** The j-th range of the transfer is the one the request gave under its number. */
  ghost predicate GivenAs(files: seq<FileRanges>, t: Transfer, j: nat) {
    && j < |t.rangeSizes| && t.file < |files| && t.firstRange + j < |files[t.file].ranges|
    && files[t.file].ranges[t.firstRange + j] == Range(RangeOffset(t, j), t.rangeSizes[j], RangeDst(t, j))
  }

  lemma {:induction false} RangeGiven(files: seq<FileRanges>, ts: seq<Transfer>, k: nat, j: nat)
    requires ExpandAll(ts) == Flatten(files, |files|) && k < |ts| && j < |ts[k].rangeSizes|
    ensures GivenAs(files, ts[k], j) && Base(ts, k) + j == |Flatten(files, ts[k].file)| + ts[k].firstRange + j
  {
    ExpandAllAt(ts, k, j);
    var f, i := FlattenFrom(files, |files|, Base(ts, k) + j);
  }

  /** And every range of the request is some transfer's. */
  lemma {:induction false} GivenBy(files: seq<FileRanges>, ts: seq<Transfer>, f: nat, i: nat) returns (k: nat, j: nat)
    requires ExpandAll(ts) == Flatten(files, |files|) && f < |files| && i < |files[f].ranges|
    ensures k < |ts| && j < |ts[k].rangeSizes| && ts[k].file == f && ts[k].firstRange + j == i
    ensures Base(ts, k) + j == |Flatten(files, f)| + i && GivenAs(files, ts[k], j)
  {
    FlattenAt(files, |files|, f, i);
    k, j := ExpandAllFrom(ts, |Flatten(files, f)| + i);
  }

  lemma {:induction false} OffsetStep(t: Transfer, j: nat)
    requires j < |t.rangeSizes|
    ensures RangeOffset(t, j + 1) == RangeOffset(t, j) + t.rangeSizes[j] && RangeDst(t, j + 1) == RangeDst(t, j) + t.rangeSizes[j]
    ensures RangeOffset(t, 0) == t.offset && RangeDst(t, 0) == t.dst
  {
    SumPrefixStep(t.rangeSizes, j);
  }

  /** Inside a transfer every range follows the one before it. */
  lemma {:induction false} InsideFollows(files: seq<FileRanges>, t: Transfer, j: nat)
    requires 0 < j && GivenAs(files, t, j) && GivenAs(files, t, j - 1)
    ensures Follows(files[t.file].ranges, t.firstRange + j)
  {
    OffsetStep(t, j - 1);
  }

  /** The first range of a transfer follows none. */
  lemma {:induction false} FirstFollowsNot(files: seq<FileRanges>, ts: seq<Transfer>, k: nat)
    requires MergedFrom(files, ts) && k < |ts| && ts[k].file < |files|
    ensures !Follows(files[ts[k].file].ranges, ts[k].firstRange)
  {
    var t, ranges := ts[k], files[ts[k].file].ranges;
    RangeGiven(files, ts, k, 0);
    if t.firstRange > 0 {
      var l, j := GivenBy(files, ts, t.file, t.firstRange - 1);
      BaseStep(ts, l);
      NeighbourBefore(ts, l, j, k);
      LastRangeEnds(files, ts[l]);
      OffsetStep(t, 0);
    }
  }

  /** The range before a transfer's first is the last of the transfer before it. */
  lemma {:induction false} NeighbourBefore(ts: seq<Transfer>, l: nat, j: nat, k: nat)
    requires l < |ts| && k < |ts| && j < |ts[l].rangeSizes| && ts[k].rangeSizes != []
    requires forall m :: 0 <= m < |ts| ==> ts[m].rangeSizes != []
    requires Base(ts, l) + j + 1 == Base(ts, k)
    ensures k == l + 1 && j + 1 == |ts[l].rangeSizes|
  {
    BaseStep(ts, l);
    if k <= l { BaseRises(ts, k, l); }
    else { BaseRises(ts, l + 1, k); if k > l + 1 { BaseStep(ts, l + 1); BaseRises(ts, l + 2, k); } }
  }

  lemma {:induction false} BaseRises(ts: seq<Transfer>, k: nat, l: nat)
    requires k <= l <= |ts|
    ensures Base(ts, k) <= Base(ts, l)
  {
    if k < l {
      BaseRises(ts, k, l - 1);
      BaseStep(ts, l - 1);
    }
  }

  lemma {:induction false} LastRangeEnds(files: seq<FileRanges>, t: Transfer)
    requires t.rangeSizes != [] && Sum(t.rangeSizes) == t.size
    ensures
      var n := |t.rangeSizes| - 1;
      && RangeOffset(t, n) + t.rangeSizes[n] == t.offset + t.size
      && RangeDst(t, n) + t.rangeSizes[n] == t.dst + t.size
  {
    OffsetStep(t, |t.rangeSizes| - 1);
    assert t.rangeSizes[..|t.rangeSizes|] == t.rangeSizes;
  }

  /* ---- the condition ---- */

  lemma {:induction false} TransferTripIsRange(files: seq<FileRanges>, ts: seq<Transfer>, c: nat, k: nat, j: nat)
    requires c > 0 && MergedFrom(files, ts) && k < |ts| && TransferTripsAt(ts[k], c, j)
    ensures FilesTrip(files, c)
  {
    var t := ts[k];
    RangeGiven(files, ts, k, j);
    RangeGiven(files, ts, k, j - 1);
    InsideFollows(files, t, j);
    if t.rangeSizes[j - 1] == 0 { FirstFollowsNot(files, ts, k); }
    OffsetStep(t, j - 1);
    hide MergedFrom, InLastCell, RangeOffset, RangeDst;
    assert RangeTrips(files[t.file].ranges, c, t.firstRange + j);
  }

  lemma {:induction false} RangeTripIsTransfer(files: seq<FileRanges>, ts: seq<Transfer>, c: nat, f: nat, i: nat)
    requires c > 0 && MergedFrom(files, ts) && f < |files| && RangeTrips(files[f].ranges, c, i)
    ensures SomeTransferTrips(ts, c)
  {
    var k, j := GivenBy(files, ts, f, i);
    var t := ts[k];
    FirstFollowsNot(files, ts, k);
    RangeGiven(files, ts, k, j - 1);
    OffsetStep(t, j - 1);
    if j > 1 {
      RangeGiven(files, ts, k, j - 2);
      InsideFollows(files, t, j - 1);
    }
    hide MergedFrom, InLastCell, RangeOffset, RangeDst;
    assert TransferTripsAt(t, c, j);
  }

  /** Some transfer trips the splitter exactly when the request's ranges do. */
  lemma {:induction false} TripsAsRequest(files: seq<FileRanges>, ts: seq<Transfer>, c: nat)
    requires c > 0 && MergedFrom(files, ts)
    ensures SomeTransferTrips(ts, c) <==> FilesTrip(files, c)
  {
    if k: nat :| k < |ts| && TransferTrips(ts[k], c, |ts[k].rangeSizes|) {
      var j: nat :| TransferTripsAt(ts[k], c, j);
      TransferTripIsRange(files, ts, c, k, j);
    }
    if f: nat, i: nat :| f < |files| && RangeTrips(files[f].ranges, c, i) {
      RangeTripIsTransfer(files, ts, c, f, i);
    }
  }
}
