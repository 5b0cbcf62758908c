/** What stands where in the files a package is split into. */
module PartLayout {
  import opened Bytes
  import opened PartHeader
  import opened Slices
  import opened Splitter
  import opened PartChecks

  /** A text in a field of this width: cut, so that at least one zero follows it. */
  function Padded(s: Octets, width: nat): (r: Octets)
    requires width > 0
  {
    if |s| < width then s + Zeros(width - |s|) else s[..width - 1] + [0]
  }

  lemma PaddedIs(s: Octets, width: nat)
    requires width > 0
    ensures TextField(s, width) == Padded(s, width)
  {
  }

  function Icon(j: Job, k: nat): Octets {
    if k == 0 then j.meta.icon else []
  }

  /** Sizes of the first n files, added up. */
  function FileSizes(j: Job, n: nat): nat
    requires n <= PartCount(j)
  {
    if n == 0 then 0 else FileSizes(j, n - 1) + |PartFile(j, n - 1)|
  }

  lemma FileSizeIs(j: Job, k: nat)
    requires AllPackable(j) && k < PartCount(j)
    ensures |PartFile(j, k)| == DataOffset(j, k) + |Slice(j, k)|
  {
    PartFileLayout(j, k);
  }

  lemma {:induction false} ArchiveIs(j: Job, n: nat)
    requires AllPackable(j) && n <= PartCount(j)
    ensures ArchiveSize(j, n) == FileSizes(j, n)
  {
    hide PartFile, AllPackable, PartCount, Slice, DataOffset;
    if n > 0 {
      ArchiveIs(j, n - 1);
      FileSizeIs(j, n - 1);
    }
  }

  lemma OffsetIs(j: Job, k: nat)
    requires k < PartCount(j)
    ensures Start(CutOf(j), k) == |Concat(FirstSlices(j, k))|
  {
    hide Concat, FirstSlices, CutOf, PartCount, Start;
    SlicesPrefix(j, k);
  }

  lemma FieldsOf(j: Job, k: nat)
    requires k < PartCount(j)
    ensures var h, icon := HeaderOf(j, k), Icon(j, k);
      && h.partIndex == k + 1 && h.totalParts == PartCount(j) && h.compression == 0 && h.chunkSize == 2097152
      && h.numChunks == 0 && h.partDataSize == |Slice(j, k)| && h.totalPkgSize == |j.pkg|
      && h.totalArchiveSize == ArchiveSize(j, PartCount(j)) && h.uuid == j.uuid
      && h.pkgFilename == Padded(j.meta.filename, 256) && h.titleId == Padded(j.meta.titleId, 32)
      && h.titleName == Padded(j.meta.titleName, 256) && h.contentId == Padded(j.meta.contentId, 64)
      && h.appVersion == Padded(j.meta.appVersion, 32) && h.pkgType == Padded(j.meta.pkgType, 16)
      && h.iconSize == |icon| && h.iconOffset == (if icon == [] then 0 else 4096)
      && h.partOffset == Start(CutOf(j), k) && h.dataOffset == 4096 + |icon|
  {
    hide Padded, TextField, Slice, PartCount, ArchiveSize, CutOf;
    PaddedIs(j.meta.filename, 256);
    PaddedIs(j.meta.titleId, 32);
    PaddedIs(j.meta.titleName, 256);
    PaddedIs(j.meta.contentId, 64);
    PaddedIs(j.meta.appVersion, 32);
    PaddedIs(j.meta.pkgType, 16);
  }

  /** The header of part k, counting from 0, octet by octet. */
  lemma PartSays(j: Job, k: nat)
    requires AllPackable(j) && k < PartCount(j)
    ensures var f, icon := PartFile(j, k), Icon(j, k);
      && Good(f) && Word(f, 12) == k + 1 && Word(f, 16) == PartCount(j) && Word(f, 20) == 0
      && Word(f, 24) == 2097152 && Word(f, 28) == 0
      && Long(f, 32) == |Slice(j, k)| && Long(f, 40) == |j.pkg| && Long(f, 48) == FileSizes(j, PartCount(j))
      && f[56..312] == Padded(j.meta.filename, 256) && f[312..344] == Padded(j.meta.titleId, 32)
      && f[344..600] == Padded(j.meta.titleName, 256) && f[600..664] == Padded(j.meta.contentId, 64)
      && f[664..680] == j.uuid
      && Word(f, 680) == (if icon == [] then 0 else 4096) && Word(f, 684) == |icon|
      && f[688..720] == Padded(j.meta.appVersion, 32) && f[720..736] == Padded(j.meta.pkgType, 16)
      && Long(f, 736) == |Concat(FirstSlices(j, k))| && Word(f, 744) == 4096 + |icon|
      && f[4096..] == icon + Slice(j, k)
  {
    hide PartFile, HeaderOf, AllPackable, PartCount, Padded, Slice, CutOf, Start, Concat, FirstSlices, FileSizes,
         ArchiveSize, Unpack, Word, Long, Good, Pack;
    var f := PartFile(j, k);
    PartFileLayout(j, k);
    GoodExactly(f);
    GoodLength(f);
    FieldsAre(f);
    FieldsOf(j, k);
    ArchiveIs(j, PartCount(j));
    OffsetIs(j, k);
    Behind(j, k);
  }

  lemma GoodLength(b: Octets)
    ensures Good(b) ==> |b| >= 4096
  {
  }

  lemma Behind(j: Job, k: nat)
    requires AllPackable(j) && k < PartCount(j)
    ensures |PartFile(j, k)| >= 4096 && PartFile(j, k)[4096..] == Icon(j, k) + Slice(j, k)
  {
    hide HeaderOf, PartCount, Slice, Pack, Packable;
    PackSize(HeaderOf(j, k));
  }

  /** Every file but the last is as long as a part may be, or one octet longer than its header and icon, if these leave
    * no room. */
  lemma PartFull(j: Job, k: nat)
    requires AllPackable(j) && k + 1 < PartCount(j)
    ensures |PartFile(j, k)| ==
      if j.partSize > 4096 + |Icon(j, k)| then j.partSize else 4096 + |Icon(j, k)| + 1
  {
    hide PartFile, AllPackable, Count, PartCount;
    PartFileLayout(j, k);
    SliceRoom(j, k);
  }

  lemma SliceRoom(j: Job, k: nat)
    requires k + 1 < PartCount(j)
    ensures |Slice(j, k)| == Payload(j, k)
  {
    hide Count;
    SliceBounds(CutOf(j), k);
    assert Start(CutOf(j), k + 1) == Start(CutOf(j), k) + Room(CutOf(j), k);
  }
}
