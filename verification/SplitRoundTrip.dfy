/** Splitting a package and rebuilding it from its slices gives the package back. */
module SplitRoundTrip {
  import opened Bytes
  import opened PartHeader
  import Slices
  import opened Splitter
  import opened Reassembler

  /** The files under paths are the parts the splitter makes of the job, in order. */
  ghost predicate Holds(files: FileMap, paths: seq<Path>, j: Job) {
    && |paths| == PartCount(j)
    && forall k :: 0 <= k < |paths| ==> paths[k] in files && files[paths[k]] == PartFile(j, k)
  }

  lemma PartHeaderAt(files: FileMap, paths: seq<Path>, j: Job, k: nat)
    requires Holds(files, paths, j) && AllPackable(j) && k < |paths|
    ensures HeaderAt(files, paths[k]) == Valid(HeaderOf(j, k))
  {
    hide PartFile, HeaderOf, ReadHeader;
    PartFileLayout(j, k);
  }

  lemma {:induction false} NoComplaint(files: FileMap, paths: seq<Path>, j: Job, i: nat)
    requires Holds(files, paths, j) && AllPackable(j) && i <= |paths|
    ensures FirstComplaint(files, paths, HeaderOf(j, 0), i) == 0
    decreases |paths| - i
  {
    hide PartFile, AllPackable, Slice, ReadHeader, PartCount;
    if i < |paths| {
      PartHeaderAt(files, paths, j, i);
      NoComplaint(files, paths, j, i + 1);
    }
  }

  /** The announced sizes add up to where the next slice begins, within 64 bits. */
  lemma {:induction false} AnnouncedSizes(files: FileMap, paths: seq<Path>, j: Job, n: nat)
    requires Holds(files, paths, j) && AllPackable(j) && n <= |paths|
    ensures SizeSum(files, paths, n) == |Concat(FirstSlices(j, n))| % TWO_POW_64
  {
    hide PartFile, AllPackable, HeaderAt, Slice, PartCount, HeaderOf;
    if n > 0 {
      AnnouncedSizes(files, paths, j, n - 1);
      PartHeaderAt(files, paths, j, n - 1);
      ConcatSnoc(FirstSlices(j, n - 1), Slice(j, n - 1));
      AnnouncedSize(j, n - 1);
      SumModulo(|Concat(FirstSlices(j, n - 1))|, |Slice(j, n - 1)|);
    }
  }

  lemma SumModulo(a: nat, b: nat)
    ensures (a % TWO_POW_64 + b) % TWO_POW_64 == (a + b) % TWO_POW_64
  {
  }

  lemma AnnouncedSize(j: Job, k: nat)
    requires k < PartCount(j)
    ensures HeaderOf(j, k).partDataSize == |Slice(j, k)|
  {
  }

  lemma PayloadOfPart(j: Job, k: nat, bufs: Buffers, codec: Codec)
    requires AllPackable(j) && k < PartCount(j)
    ensures PartPayload(PartFile(j, k), bufs, codec) == Done(Slice(j, k))
  {
    hide PartFile, AllPackable, Slice, Unpack, IsValid, ChunksFrom, Slices.Count;
    PartFileLayout(j, k);
    var f, start, size := PartFile(j, k), DataOffset(j, k), |Slice(j, k)|;
    AnnouncedSize(j, k);
    assert Unpack(f) == HeaderOf(j, k);
    assert f[start..start + size] == f[start..];
  }

  lemma {:induction false} PayloadsOfParts(files: FileMap, paths: seq<Path>, j: Job, n: nat,
                                           bufs: Buffers, codec: Codec)
    requires Holds(files, paths, j) && AllPackable(j) && n <= |paths|
    ensures Payloads(files, paths, n, bufs, codec) == Done(Concat(FirstSlices(j, n)))
  {
    hide PartFile, AllPackable, Slice, PartPayload, PartCount;
    if n > 0 {
      PayloadsOfParts(files, paths, j, n - 1, bufs, codec);
      PayloadOfPart(j, n - 1, bufs, codec);
      ConcatSnoc(FirstSlices(j, n - 1), Slice(j, n - 1));
    }
  }

  lemma FirstHeader(j: Job)
    ensures var h := HeaderOf(j, 0);
      && h.totalParts == PartCount(j) && h.totalPkgSize == |j.pkg|
      && h.numChunks == 0 && h.compression == COMPRESSION_NONE && h.chunkSize == IO_BUFFER
    ensures AllPackable(j) ==> |j.pkg| < TWO_POW_64
  {
    hide Slices.Count;
    assert AllPackable(j) ==> Packable(HeaderOf(j, 0));
  }

  lemma PrecheckPasses(files: FileMap, paths: seq<Path>, j: Job)
    requires Holds(files, paths, j) && AllPackable(j)
    ensures Precheck(files, paths) == 0 && HeaderAt(files, paths[0]) == Valid(HeaderOf(j, 0))
  {
    hide PartFile, HeaderOf, AllPackable, FirstComplaint, SizeSum, ReadHeader;
    PartHeaderAt(files, paths, j, 0);
    FirstHeader(j);
    NoComplaint(files, paths, j, 1);
    AnnouncedSizes(files, paths, j, |paths|);
    SlicesJoin(j);
  }

  /** The round trip, for every package (the empty one included), icon and part size. */
  lemma RebuiltIsPackage(files: FileMap, paths: seq<Path>, j: Job, codec: Codec)
    requires Holds(files, paths, j) && AllPackable(j)
    ensures Rebuilt(files, paths, codec) == Done(j.pkg)
  {
    hide PartFile, HeaderOf, AllPackable, HeaderAt, Precheck, Payloads;
    PrecheckPasses(files, paths, j);
    FirstHeader(j);
    PayloadsOfParts(files, paths, j, |paths|, BuffersFor(HeaderOf(j, 0)), codec);
    SlicesJoin(j);
  }

  /** Both programs one after the other: the output file is the package, and the parts stay as they were. */
  method SplitAndRebuild(j: Job, disk: Disk, paths: seq<Path>, out: Path, codec: Codec) returns (code: int)
    requires |paths| == PartCount(j) && out !in paths
    requires forall a, b :: 0 <= a < b < |paths| ==> paths[a] != paths[b]
    modifies disk
    ensures AllPackable(j) ==>
      code == 0 && out in disk.files && disk.files[out] == j.pkg && Holds(disk.files, paths, j)
  {
    hide PartFile, AllPackable, Rebuilt;
    var r := Split(j);
    if r.FieldOutOfRange? {
      return -1;
    }
    var k := 0;
    while k < |paths|
      invariant k <= |paths|
      invariant forall i :: 0 <= i < k ==> paths[i] in disk.files && disk.files[paths[i]] == r.files[i]
    {
      disk.files := disk.files[paths[k] := r.files[k]];
      k := k + 1;
    }
    assert Holds(disk.files, paths, j);
    RebuiltIsPackage(disk.files, paths, j, codec);
    var created;
    code, created := disk.Rebuild(paths, out, codec, true);
  }
}
