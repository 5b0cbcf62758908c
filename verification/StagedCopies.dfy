/** A staged copy of a part is taken by its name alone, whatever package it was split from. */
module StagedCopies {
  import opened Bytes
  import opened StreamMap
  import opened Wrappers
  import DiscSwapping
  import PartHeader
  import Slices
  import Splitter
  import V = VirtualStream

  // Two packages of the same length, split into two parts at the same place.
  ghost predicate CutAlike(a: Splitter.Job, b: Splitter.Job) {
    && Splitter.AllPackable(a) && Splitter.AllPackable(b) && a.uuid != b.uuid && |a.pkg| == |b.pkg|
    && Splitter.PartCount(a) == 2 && Splitter.PartCount(b) == 2 && Middle(a) == Middle(b)
  }

  function Middle(j: Splitter.Job): nat {
    Slices.Start(Splitter.CutOf(j), 1)
  }

  lemma TwoSlices(j: Splitter.Job)
    requires Splitter.PartCount(j) == 2 && j.pkg != []
    ensures 0 < Middle(j) < |j.pkg|
    ensures Splitter.Slice(j, 0) == j.pkg[..Middle(j)] && Splitter.Slice(j, 1) == j.pkg[Middle(j)..]
  {
    hide Slices.Count;
    Slices.SliceBounds(Splitter.CutOf(j), 0);
    Slices.SliceBounds(Splitter.CutOf(j), 1);
  }

  // What the stream takes the package for: the first part of one and the second of the other.
  function Mixed(a: Splitter.Job, b: Splitter.Job): Octets
    requires Middle(a) <= |a.pkg| && Middle(a) <= |b.pkg|
  {
    a.pkg[..Middle(a)] + b.pkg[Middle(a)..]
  }

  function Parts(a: Splitter.Job, b: Splitter.Job): seq<Truth>
    requires Splitter.PartCount(a) == 2 && Splitter.PartCount(b) == 2
  {
    [DiscSwapping.TruthOf(a, 0), DiscSwapping.TruthOf(b, 1)]
  }

  const OWN := "part"
  const STAGED := "staged"

  // The first part of one package lies beside a staged copy of the second part of the other.
  ghost predicate Beside(media: V.Media, a: Splitter.Job, b: Splitter.Job)
    requires Splitter.PartCount(a) == 2 && Splitter.PartCount(b) == 2
  {
    && media.library == map[OWN := Splitter.PartFile(a, 0), STAGED := Splitter.PartFile(b, 1)]
    && forall k :: media.staged(k) == if k == 2 then STAGED else ""
  }

  lemma MixedHolds(a: Splitter.Job, b: Splitter.Job)
    requires CutAlike(a, b) && a.pkg != []
    ensures Middle(a) < |a.pkg| == |Mixed(a, b)| < TWO_POW_64
    ensures forall k :: 0 <= k < 2 ==> V.Holds(Parts(a, b)[k], Mixed(a, b)) && V.Labelled(Parts(a, b)[k], k)
    ensures Parts(a, b)[0].start == 0 && Parts(a, b)[0].size == Parts(a, b)[1].start == Middle(a)
    ensures Parts(a, b)[1].size == |a.pkg| - Middle(a)
  {
    hide Splitter.AllPackable, Splitter.PartFile, Splitter.PartCount, Splitter.Slice, PartHeader.ReadHeader,
         V.Labelled, V.Matches, Splitter.CutOf, Splitter.DataOffset;
    TwoSlices(a);
    TwoSlices(b);
    DiscSwapping.PartIsTrue(a, 0);
    DiscSwapping.PartIsTrue(b, 1);
    DiscSwapping.FitsIn64(a);
    DiscSwapping.StartZero(Splitter.CutOf(a));
  }

  lemma OnlyOwn(media: V.Media, a: Splitter.Job, b: Splitter.Job)
    requires CutAlike(a, b) && Beside(media, a, b)
    ensures media.Faithful(a.uuid, Parts(a, b))
    ensures V.Matches(media.library[OWN], a.uuid, 1)
    ensures media.Valid() ==> !media.CanFind(a.uuid, 2)
  {
    hide Splitter.AllPackable, Splitter.PartFile, Splitter.PartCount, PartHeader.ReadHeader;
    DiscSwapping.PartIsTrue(a, 0);
    DiscSwapping.PartIsTrue(b, 1);
  }

  lemma Presented(media: V.Media, a: Splitter.Job, b: Splitter.Job)
    requires CutAlike(a, b) && Beside(media, a, b) && a.pkg != []
    ensures Middle(a) < |a.pkg| && media.Presents(OWN, Mixed(a, b), Parts(a, b))
    ensures PartHeader.ReadHeader(media.library[OWN]) == PartHeader.Valid(Splitter.HeaderOf(a, 0))
  {
    hide Splitter.AllPackable, Splitter.PartFile, Splitter.PartCount, PartHeader.ReadHeader, V.Holds, V.Labelled,
         V.Matches, Parts, V.Media.Faithful;
    MixedHolds(a, b);
    OnlyOwn(media, a, b);
    Splitter.PartFileLayout(a, 0);
    assert |Parts(a, b)| == 2 by {
      PartsTwo(a, b);
    }
    assert media.library[STAGED] == Parts(a, b)[1].file by {
      PartsTwo(a, b);
    }
  }

  lemma PartsTwo(a: Splitter.Job, b: Splitter.Job)
    requires Splitter.PartCount(a) == 2 && Splitter.PartCount(b) == 2
    ensures |Parts(a, b)| == 2 && Parts(a, b)[1].file == Splitter.PartFile(b, 1)
  {
    hide Splitter.PartFile, Splitter.PartCount;
  }

  /** Once both parts have a path, an offset past the middle lies in the second one. */
  lemma SecondCovers(stream: V.VirtualStream, o: nat)
    requires stream.Valid() && |stream.slots| == 2
    requires stream.slots[0].path.Some? && stream.slots[1].path.Some?
    requires stream.truths[0].start == 0 && stream.truths[0].size == stream.truths[1].start <= o
    requires o < stream.truths[1].start + stream.truths[1].size == |stream.package| < TWO_POW_64
    ensures FirstCover(V.RangesOf(stream.slots), o, 0) == 1
    ensures stream.slots[1].start == stream.truths[1].start && stream.slots[1].size == stream.truths[1].size
  {
    hide V.Holds, V.Labelled, V.VirtualStream.Faithful;
    var rs := V.RangesOf(stream.slots);
    assert rs[0] == Range(true, 0, stream.truths[0].size);
    assert rs[1] == Range(true, stream.truths[1].start, stream.truths[1].size);
    FirstCoverIs(rs, o, 0, 1);
  }

  /** Opened there, the stream takes the staged copy for the second part. */
  lemma BothFound(stream: V.VirtualStream, a: Splitter.Job, b: Splitter.Job)
    requires CutAlike(a, b) && Beside(stream.media, a, b) && |stream.slots| == 2
    requires stream.media.Valid() && stream.media.mounted == {OWN, STAGED}
    requires forall k :: 0 <= k < 2 ==> stream.Located(k + 1, Splitter.HeaderOf(a, 0), OWN, stream.slots[k].path)
    ensures stream.slots[0].path == Some(OWN) && stream.slots[1].path == Some(STAGED)
  {
    hide Splitter.AllPackable, Splitter.PartFile, Splitter.PartCount, PartHeader.ReadHeader, V.Matches;
    OnlyOwn(stream.media, a, b);
    assert Splitter.HeaderOf(a, 0).partIndex == 1 && Splitter.HeaderOf(a, 0).uuid == a.uuid;
    assert stream.Located(1, Splitter.HeaderOf(a, 0), OWN, stream.slots[0].path);
    assert stream.Located(2, Splitter.HeaderOf(a, 0), OWN, stream.slots[1].path);
  }

  lemma FromSecond(a: Splitter.Job, b: Splitter.Job, o: nat, n: nat)
    requires CutAlike(a, b) && Middle(a) <= o && o + n <= |a.pkg|
    ensures |Mixed(a, b)| == |a.pkg| && Mixed(a, b)[o..o + n] == b.pkg[o..o + n]
  {
    hide Splitter.AllPackable, Splitter.PartCount, Splitter.CutOf;
  }

  /** A stream is opened on the first part of package a beside a staged copy of the second part of b, and read in the
    * second part. It succeeds, and returns what b has there. */
  method ReadStaged(a: Splitter.Job, b: Splitter.Job, o: nat, count: nat) returns (n: int, data: Octets)
    requires CutAlike(a, b) && Middle(a) <= o < |a.pkg| && count > 0
    ensures n == Min(count, |a.pkg| - o) && data == b.pkg[o..o + n]
    ensures data == a.pkg[o..o + n] <==> a.pkg[o..o + n] == b.pkg[o..o + n]
  {
    hide Splitter.AllPackable, Splitter.PartFile, Splitter.PartCount, PartHeader.ReadHeader, V.Holds, V.Labelled,
         V.Matches, Parts, V.VirtualStream.Valid, V.VirtualStream.Located, V.RangesOf, FirstCover, Mixed;
    var library := map[OWN := Splitter.PartFile(a, 0), STAGED := Splitter.PartFile(b, 1)];
    var media := new V.Media(library, k => if k == 2 then STAGED else "", true, {OWN, STAGED});
    Presented(media, a, b);
    MixedHolds(a, b);
    OnlyOwn(media, a, b);
    PartsTwo(a, b);
    var stream := new V.VirtualStream(media, false);
    var code := stream.Open(OWN, Mixed(a, b), Parts(a, b));
    stream.SameLength();
    BothFound(stream, a, b);
    SecondCovers(stream, o);
    n, data := stream.Read(o, count);
    FromSecond(a, b, o, n);
  }

  // --- two packages of two bytes ---

  function Tiny(v: byte): Splitter.Job {
    Splitter.Job([v, v], Splitter.Meta([], [], [], [], [], [], []), [v] + Zeros(15), PartHeader.HEADER_SIZE + 1)
  }

  lemma TinyCut(v: byte)
    ensures Splitter.CutOf(Tiny(v)) == Slices.Cut(2, 1, 1) && Splitter.PartCount(Tiny(v)) == 2 && Middle(Tiny(v)) == 1
  {
    var c := Slices.Cut(2, 1, 1);
    assert Slices.Start(c, 1) == 1 && Slices.Start(c, 2) == 2;
    assert Slices.CountFrom(c, 1) == 2;
  }

  lemma TinyArchive(v: byte)
    ensures Splitter.PartCount(Tiny(v)) == 2 && Splitter.ArchiveSize(Tiny(v), 2) == 2 * PartHeader.HEADER_SIZE + 2
    ensures |Splitter.Slice(Tiny(v), 0)| == |Splitter.Slice(Tiny(v), 1)| == 1
  {
    hide Splitter.Slice, Splitter.CutOf, Splitter.PartCount;
    TinyCut(v);
    TwoSlices(Tiny(v));
    assert Splitter.ArchiveSize(Tiny(v), 1) == PartHeader.HEADER_SIZE + 1;
  }

  lemma TinyHeader(v: byte, k: nat)
    requires k < Splitter.PartCount(Tiny(v)) == 2
    ensures PartHeader.Packable(Splitter.HeaderOf(Tiny(v), k))
  {
    hide PartHeader.TextField, Slices.Start, Slices.Count, Splitter.CutOf, Splitter.Slice, Splitter.ArchiveSize;
    TinyCut(v);
    TinyArchive(v);
    Slices.SliceBounds(Splitter.CutOf(Tiny(v)), k);
    assert k == 0 || k == 1;
  }

  lemma TinyPackable(v: byte)
    ensures Splitter.AllPackable(Tiny(v))
  {
    hide PartHeader.Packable, Splitter.HeaderOf, Splitter.PartCount;
    TinyCut(v);
    forall k: nat | k < 2
      ensures PartHeader.Packable(Splitter.HeaderOf(Tiny(v), k))
    {
      TinyHeader(v, k);
    }
  }

  /** A foreign byte comes back. */
  method ReadForeign() returns (n: int, data: Octets)
    ensures n == 1 && data == [1] && Tiny(0).pkg[1..2] == [0]
  {
    hide Splitter.AllPackable, Splitter.PartCount, Splitter.CutOf, Middle;
    TinyCut(0);
    TinyCut(1);
    TinyPackable(0);
    TinyPackable(1);
    assert Tiny(0).uuid[0] != Tiny(1).uuid[0];
    n, data := ReadStaged(Tiny(0), Tiny(1), 1, 1);
  }
}
