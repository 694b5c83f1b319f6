/** The C entry point (submit_request): the caller's flat arrays, turned into one list of ranges a file. */
module Submission {
  import opened Sequences
  import opened ReadTypes
  import opened Coalescing

  datatype Nullable<+T> = Null | At(value: T)

  datatype Code = InvalidDevice | UnsupportedDeviceType | InvalidParameterError

  const CPU: int := 0
  const CUDA: int := 1

  /** The device is two integers chosen by the caller; nothing says they make sense. */
  datatype Device = Device(kind: int, id: int)

  /** The caller's arrays. Every pointer may be null. */
  datatype Arguments = Arguments(numFiles: nat, paths: Nullable<seq<Nullable<string>>>, numRanges: Nullable<seq<nat>>,
                                 offsets: Nullable<seq<nat>>, sizes: Nullable<seq<nat>>, dsts: Nullable<seq<nat>>)
  {
    /** Arrays that exist are as long as the caller says: one entry a file, one entry a range. */
    ghost predicate Sized() {
      && (paths.At? ==> |paths.value| == numFiles)
      && (numRanges.At? ==> |numRanges.value| == numFiles)
      && (numRanges.At? && offsets.At? ==> |offsets.value| == Sum(numRanges.value))
      && (numRanges.At? && sizes.At? ==> |sizes.value| == Sum(numRanges.value))
      && (numRanges.At? && dsts.At? ==> |dsts.value| == Sum(numRanges.value))
    }

    ghost predicate Malformed() {
      || (numFiles > 0 && (paths.Null? || numRanges.Null?))
      || (numFiles > 0 && numRanges.At? && Sum(numRanges.value) > 0 && (offsets.Null? || sizes.Null? || dsts.Null?))
      || (exists i :: 0 <= i < numFiles && paths.At? && i < |paths.value| && paths.value[i].Null?)
    }
  }

  datatype Answer = Accepted(files: seq<FileRanges>) | Refused(code: Code)

  /** The k-th entry of the flat arrays. */
  function FlatRange(args: Arguments, k: nat): Range
    requires args.offsets.At? && args.sizes.At? && args.dsts.At?
    requires k < |args.offsets.value| && k < |args.sizes.value| && k < |args.dsts.value|
  {
    Range(args.offsets.value[k], args.sizes.value[k], args.dsts.value[k])
  }

  /** The file's ranges are the entries base .. base + |ranges| of the flat arrays. */
  ghost predicate Holds(args: Arguments, base: nat, ranges: seq<Range>)
    requires args.Sized() && args.numRanges.At?
  {
    && base + |ranges| <= Sum(args.numRanges.value)
    && (ranges != [] ==> args.offsets.At? && args.sizes.At? && args.dsts.At?)
    && forall j :: 0 <= j < |ranges| ==> ranges[j] == FlatRange(args, base + j)
  }

  ghost predicate TransposedTo(args: Arguments, files: seq<FileRanges>, n: nat)
    requires args.Sized()
  {
    && |files| == n <= args.numFiles
    && (n > 0 ==> args.paths.At? && args.numRanges.At?)
    && forall i :: 0 <= i < n ==>
         && args.paths.value[i] == At(files[i].path)
         && |files[i].ranges| == args.numRanges.value[i]
         && Holds(args, Sum(args.numRanges.value[..i]), files[i].ranges)
  }

  method FileOf(args: Arguments, path: string, base: nat, n: nat) returns (file: FileRanges)
    requires args.Sized() && args.numRanges.At? && base + n <= Sum(args.numRanges.value)
    requires n > 0 ==> args.offsets.At? && args.sizes.At? && args.dsts.At?
    ensures file.path == path && |file.ranges| == n && Holds(args, base, file.ranges)
  {
    var ranges: seq<Range> := [];
    for j := 0 to n
      invariant |ranges| == j && Holds(args, base, ranges)
    {
      ranges := ranges + [Range(args.offsets.value[base + j], args.sizes.value[base + j], args.dsts.value[base + j])];
    }
    file := FileRanges(path, ranges);
  }

  /** The transposing loop, with its running base index. */
  method Transpose(args: Arguments) returns (answer: Answer)
    requires args.Sized()
    requires args.numFiles > 0 ==> args.paths.At? && args.numRanges.At?
    requires args.numFiles > 0 && Sum(args.numRanges.value) > 0 ==> args.offsets.At? && args.sizes.At? && args.dsts.At?
    ensures answer.Accepted? ==> TransposedTo(args, answer.files, args.numFiles)
    ensures answer.Refused? <==> args.Malformed()
    ensures answer.Refused? ==> answer.code == InvalidParameterError
  {
    var files: seq<FileRanges> := [];
    var base: nat := 0;
    for i := 0 to args.numFiles
      invariant TransposedTo(args, files, i)
      invariant args.numFiles > 0 ==> base == Sum(args.numRanges.value[..i])
    {
      var path := args.paths.value[i];
      if path.Null? { return Refused(InvalidParameterError); }
      var n := args.numRanges.value[i];
      SumPrefixStep(args.numRanges.value, i);
      SumPrefixMonotone(args.numRanges.value, i + 1, args.numFiles);
      assert args.numRanges.value[..args.numFiles] == args.numRanges.value;
      var file := FileOf(args, path.value, base, n);
      files := files + [file];
      base := base + n;
    }
    answer := Accepted(files);
  }

  /** Which requests are refused, and how, in the order the checks are made. */
  method SubmitRequest(args: Arguments, device: Device) returns (answer: Answer)
    requires args.Sized()
    ensures answer == Refused(InvalidDevice) <==> device.kind == CUDA && device.id < 0
    ensures answer == Refused(UnsupportedDeviceType) <==> device.kind != CPU && device.kind != CUDA
    ensures answer == Refused(InvalidParameterError) <==>
              (device.kind == CPU || (device.kind == CUDA && device.id >= 0)) && args.Malformed()
    ensures answer.Accepted? ==> TransposedTo(args, answer.files, args.numFiles)
  {
    if device.kind == CUDA && device.id < 0 { return Refused(InvalidDevice); }
    if device.kind != CPU && device.kind != CUDA { return Refused(UnsupportedDeviceType); }
    if args.numFiles > 0 && (args.paths.Null? || args.numRanges.Null?) { return Refused(InvalidParameterError); }
    var totalRanges: nat := 0;
    for i := 0 to args.numFiles
      invariant args.numFiles > 0 ==> totalRanges == Sum(args.numRanges.value[..i])
      invariant args.numFiles == 0 ==> totalRanges == 0
    {
      SumPrefixStep(args.numRanges.value, i);
      totalRanges := totalRanges + args.numRanges.value[i];
    }
    assert args.numFiles > 0 ==> args.numRanges.value[..args.numFiles] == args.numRanges.value;
    if totalRanges > 0 && (args.offsets.Null? || args.sizes.Null? || args.dsts.Null?) {
      return Refused(InvalidParameterError);
    }
    answer := Transpose(args);
  }

  lemma {:induction false} FileHolds(args: Arguments, files: seq<FileRanges>, i: nat)
    requires args.Sized() && TransposedTo(args, files, args.numFiles) && i < |files| && args.numRanges.At?
    ensures i < |args.numRanges.value| && |files[i].ranges| == args.numRanges.value[i]
    ensures Holds(args, Sum(args.numRanges.value[..i]), files[i].ranges)
  {
  }

  lemma {:induction false} FlattenedLength(args: Arguments, files: seq<FileRanges>, n: nat)
    requires args.Sized() && TransposedTo(args, files, args.numFiles) && n <= |files| && args.numRanges.At?
    ensures |files| == |args.numRanges.value| && |Flatten(files, n)| == Sum(args.numRanges.value[..n])
  {
    if n > 0 {
      FileHolds(args, files, n - 1);
      hide Holds, TransposedTo;
      FlattenedLength(args, files, n - 1);
      SumPrefixStep(args.numRanges.value, n - 1);
      FileAt(n - 1, files[n - 1].ranges, |files[n - 1].ranges|, 0);
    }
  }

  /** The k-th entry exists and is this range. */
  ghost predicate EntryIs(args: Arguments, k: nat, range: Range)
    requires args.Sized() && args.numRanges.At?
  {
    && args.offsets.At? && args.sizes.At? && args.dsts.At? && k < Sum(args.numRanges.value)
    && range == FlatRange(args, k)
  }

  lemma {:induction false} HeldEntry(args: Arguments, base: nat, ranges: seq<Range>, j: nat)
    requires args.Sized() && args.numRanges.At? && Holds(args, base, ranges) && j < |ranges|
    ensures EntryIs(args, base + j, ranges[j])
  {
  }

  /** Flattening the transposed request gives the caller's arrays back: the k-th range in file order is
      the k-th entry, so no range is dropped, doubled, or given another's size or destination. */
  lemma {:induction false} FlattenTransposed(args: Arguments, files: seq<FileRanges>, n: nat, k: nat)
    requires args.Sized() && TransposedTo(args, files, args.numFiles) && n <= |files| && args.numRanges.At?
    requires k < |Flatten(files, n)|
    ensures EntryIs(args, k, Flatten(files, n)[k].range)
  {
    var ranges := files[n - 1].ranges;
    FlattenedLength(args, files, n - 1);
    FileHolds(args, files, n - 1);
    var base := Sum(args.numRanges.value[..n - 1]);
    hide Holds, TransposedTo, EntryIs;
    if k < base {
      FlattenTransposed(args, files, n - 1, k);
    } else {
      FileAt(n - 1, ranges, |ranges|, k - base);
      HeldEntry(args, base, ranges, k - base);
    }
  }

  lemma {:induction false} FileAt(file: nat, ranges: seq<Range>, n: nat, j: nat)
    requires n <= |ranges|
    ensures |FlattenFile(file, ranges, n)| == n
    ensures j < n ==> FlattenFile(file, ranges, n)[j].range == ranges[j]
  {
    if n > 0 { FileAt(file, ranges, n - 1, j); }
  }

  /** The arrays determine the request: there is only one way to transpose them. */
  lemma {:induction false} TransposeUnique(args: Arguments, a: seq<FileRanges>, b: seq<FileRanges>)
    requires args.Sized() && TransposedTo(args, a, args.numFiles) && TransposedTo(args, b, args.numFiles)
    ensures a == b
  {
    forall i | 0 <= i < args.numFiles
      ensures a[i] == b[i]
    {
      assert Holds(args, Sum(args.numRanges.value[..i]), a[i].ranges);
      assert Holds(args, Sum(args.numRanges.value[..i]), b[i].ranges);
      assert a[i].ranges == b[i].ranges;
    }
  }
}
