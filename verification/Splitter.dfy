/** The command-line splitter: a package cut into header-prefixed slices, one per disc. */
module Splitter {
  import opened Bytes
  import opened PartHeader
  import opened Slices

  const IO_BUFFER: nat := 2 * 1024 * 1024

  datatype Meta = Meta(filename: Octets, titleId: Octets, titleName: Octets, contentId: Octets,
                       appVersion: Octets, pkgType: Octets, icon: Octets)

  datatype Job = Job(pkg: Octets, meta: Meta, uuid: Octets, partSize: int)

  datatype SplitResult = Slices(files: seq<Octets>) | FieldOutOfRange

  datatype PartInfo = PartInfo(index: nat, dataSize: nat, partOffset: nat, dataOffset: nat,
                               iconOffset: nat, iconSize: nat)

  function IconIn(j: Job, k: nat): Octets {
    if k == 0 then j.meta.icon else []
  }

  function DataOffset(j: Job, k: nat): nat {
    HEADER_SIZE + |IconIn(j, k)|
  }

  function Payload(j: Job, k: nat): (r: nat)
    ensures r >= 1
  {
    if j.partSize - DataOffset(j, k) > 1 then j.partSize - DataOffset(j, k) else 1
  }

  function CutOf(j: Job): (c: Cut)
    ensures ValidCut(c)
  {
    Cut(|j.pkg|, Payload(j, 0), Payload(j, 1))
  }

  function PartCount(j: Job): (n: nat)
    ensures n >= 1
  {
    Count(CutOf(j))
  }

  function Slice(j: Job, k: nat): Octets
    requires k < PartCount(j)
  {
    SliceBounds(CutOf(j), k);
    j.pkg[Start(CutOf(j), k)..End(CutOf(j), k)]
  }

  function InfoOf(j: Job, k: nat): PartInfo
    requires k < PartCount(j)
  {
    PartInfo(k + 1, |Slice(j, k)|, Start(CutOf(j), k), DataOffset(j, k),
             if IconIn(j, k) == [] then 0 else HEADER_SIZE, |IconIn(j, k)|)
  }

  /** Combined size of the first n files. */
  function ArchiveSize(j: Job, n: nat): nat
    requires n <= PartCount(j)
  {
    if n == 0 then 0 else ArchiveSize(j, n - 1) + DataOffset(j, n - 1) + |Slice(j, n - 1)|
  }

  /** pack_header's arguments for one part. */
  function HeaderFor(j: Job, p: PartInfo, totalParts: nat, archiveSize: nat): Header {
    Header(MAGIC, 1, p.index, totalParts, COMPRESSION_NONE, IO_BUFFER, 0,
           p.dataSize, |j.pkg|, archiveSize,
           TextField(j.meta.filename, 256), TextField(j.meta.titleId, 32),
           TextField(j.meta.titleName, 256), TextField(j.meta.contentId, 64), j.uuid,
           p.iconOffset, p.iconSize, TextField(j.meta.appVersion, 32), TextField(j.meta.pkgType, 16),
           p.partOffset, p.dataOffset)
  }

  function HeaderOf(j: Job, k: nat): Header
    requires k < PartCount(j)
  {
    HeaderFor(j, InfoOf(j, k), PartCount(j), ArchiveSize(j, PartCount(j)))
  }

  /** The finished file of part k. */
  function PartFile(j: Job, k: nat): Octets
    requires k < PartCount(j)
  {
    Pack(HeaderOf(j, k)) + (IconIn(j, k) + Slice(j, k))
  }

  ghost predicate AllPackable(j: Job) {
    forall k: nat :: k < PartCount(j) ==> Packable(HeaderOf(j, k))
  }

  /** One input block at a time until the slice is full or the package ends. */
  method CopySlice(pkg: Octets, from: nat, room: nat, file: Octets) returns (written: Octets, size: nat)
    requires from <= |pkg|
    ensures size == Min(room, |pkg| - from)
    ensures written == file + pkg[from..from + size]
  {
    written, size := file, 0;
    while size < room
      invariant size <= room && from + size <= |pkg|
      invariant written == file + pkg[from..from + size]
    {
      var toRead := Min(IO_BUFFER, room - size);
      var chunk := ReadAt(pkg, from + size, toRead);
      if chunk == [] {
        break;
      }
      written := written + chunk;
      size := size + |chunk|;
    }
  }

  /** One part as first written: room for the header, the icon in part 1, then the slice. */
  function Draft(j: Job, k: nat): Octets
    requires k < PartCount(j)
  {
    Zeros(HEADER_SIZE) + (IconIn(j, k) + Slice(j, k))
  }

  /** The room one draft has after its header and icon. */
  lemma RoomOf(j: Job, k: nat)
    ensures Room(CutOf(j), k) == if j.partSize - DataOffset(j, k) > 1 then j.partSize - DataOffset(j, k) else 1
  {
  }

  lemma SliceIs(j: Job, k: nat)
    requires k < PartCount(j)
    ensures Start(CutOf(j), k) <= |j.pkg|
    ensures var size := Min(Room(CutOf(j), k), |j.pkg| - Start(CutOf(j), k));
      Slice(j, k) == j.pkg[Start(CutOf(j), k)..Start(CutOf(j), k) + size] && |Slice(j, k)| == size
  {
    hide Count, Room, Start, CutOf;
    SliceBounds(CutOf(j), k);
    SliceLength(CutOf(j), k);
    TotalOf(j);
  }

  lemma TotalOf(j: Job)
    ensures CutOf(j).total == |j.pkg|
  {
  }

  lemma SliceLength(c: Cut, k: nat)
    ensures End(c, k) == Start(c, k) + Min(Room(c, k), c.total - Start(c, k))
  {
  }

  method WriteDraft(j: Job, currentPart: nat, bytesRead: nat) returns (file: Octets, info: PartInfo)
    requires 1 <= currentPart <= PartCount(j) && bytesRead == Start(CutOf(j), currentPart - 1)
    ensures file == Draft(j, currentPart - 1) && info == InfoOf(j, currentPart - 1)
  {
    hide CutOf, PartCount, Slice, Start, Room;
    ghost var k := currentPart - 1;
    RoomOf(j, k);
    SliceIs(j, k);
    file := Zeros(HEADER_SIZE);
    var iconOffset, iconSize := 0, 0;
    if |j.meta.icon| > 0 && currentPart == 1 {
      iconOffset, iconSize := HEADER_SIZE, |j.meta.icon|;
      file := file + j.meta.icon;
    }
    var dataOffset, partOffset := |file|, bytesRead;
    assert file == Zeros(HEADER_SIZE) + IconIn(j, k);
    var room := if j.partSize - dataOffset > 1 then j.partSize - dataOffset else 1;
    var size;
    file, size := CopySlice(j.pkg, bytesRead, room, file);
    assert file == Draft(j, k);
    info := PartInfo(currentPart, size, partOffset, dataOffset, iconOffset, iconSize);
  }

  lemma DraftStep(j: Job, k: nat)
    requires k < PartCount(j)
    ensures PartCount(j) >= 1 && Start(CutOf(j), 0) == 0 == ArchiveSize(j, 0)
    ensures ArchiveSize(j, k + 1) == ArchiveSize(j, k) + |Draft(j, k)|
    ensures var reached := Start(CutOf(j), k) + InfoOf(j, k).dataSize;
      if k + 1 == PartCount(j) then reached == |j.pkg| else reached == Start(CutOf(j), k + 1) < |j.pkg|
  {
    hide Count, Payload;
    SliceBounds(CutOf(j), k);
  }

  method WriteDrafts(j: Job) returns (infos: seq<PartInfo>, files: seq<Octets>, archiveSize: nat)
    ensures |infos| == |files| == PartCount(j) && archiveSize == ArchiveSize(j, PartCount(j))
    ensures forall k :: 0 <= k < |infos| ==> infos[k] == InfoOf(j, k) && files[k] == Draft(j, k)
  {
    hide PartCount, CutOf, InfoOf, Draft, Start, ArchiveSize;
    ghost var c := CutOf(j);
    DraftStep(j, 0);
    infos, files, archiveSize := [], [], 0;
    var currentPart, bytesRead := 1, 0;
    while bytesRead < |j.pkg| || currentPart == 1
      invariant currentPart == |infos| + 1 && |files| == |infos| < PartCount(j)
      invariant bytesRead == Start(c, |infos|)
      invariant bytesRead < |j.pkg| || |infos| == 0
      invariant archiveSize == ArchiveSize(j, |infos|)
      invariant forall k :: 0 <= k < |infos| ==> infos[k] == InfoOf(j, k) && files[k] == Draft(j, k)
      decreases PartCount(j) - |infos|
    {
      DraftStep(j, |infos|);
      var file, info := WriteDraft(j, currentPart, bytesRead);
      bytesRead := bytesRead + info.dataSize;
      archiveSize := archiveSize + |file|;
      infos := infos + [info];
      files := files + [file];
      currentPart := currentPart + 1;
      if bytesRead >= |j.pkg| {
        break;
      }
    }
  }

  /** split_pkg: every file it writes, or the packing error. */
  method Split(j: Job) returns (r: SplitResult)
    ensures r.Slices? <==> AllPackable(j)
    ensures r.Slices? ==>
      |r.files| == PartCount(j) && forall k :: 0 <= k < |r.files| ==> r.files[k] == PartFile(j, k)
  {
    hide Pack, Packable, HeaderFor, InfoOf, ArchiveSize;
    var infos, files, archiveSize := WriteDrafts(j);
    var i := 0;
    while i < |infos|
      invariant i <= |infos| == |files| == PartCount(j)
      invariant forall k: nat :: k < i ==> Packable(HeaderOf(j, k))
      invariant forall k :: 0 <= k < i ==> files[k] == PartFile(j, k)
      invariant forall k :: i <= k < |infos| ==> files[k] == Draft(j, k)
    {
      var h := HeaderFor(j, infos[i], |infos|, archiveSize);
      assert h == HeaderOf(j, i);
      if !Packable(h) {
        return FieldOutOfRange;
      }
      PackSize(h);
      files := files[i := Pack(h) + files[i][HEADER_SIZE..]];
      i := i + 1;
    }
    r := SplitResult.Slices(files);
  }

  lemma HeaderIsValid(j: Job, k: nat)
    requires k < PartCount(j)
    ensures IsValid(HeaderOf(j, k))
  {
  }

  /** Every slice file carries a valid header naming exactly the bytes behind it. */
  lemma PartFileLayout(j: Job, k: nat)
    requires AllPackable(j) && k < PartCount(j)
    ensures ReadHeader(PartFile(j, k)) == Valid(HeaderOf(j, k))
    ensures |PartFile(j, k)| == DataOffset(j, k) + |Slice(j, k)|
    ensures PartFile(j, k)[DataOffset(j, k)..] == Slice(j, k)
  {
    hide Pack, Unpack, Packable, HeaderFor, Count;
    var h := HeaderOf(j, k);
    UnpackPack(h, IconIn(j, k) + Slice(j, k));
    HeaderIsValid(j, k);
    var front := Pack(h) + IconIn(j, k);
    assert PartFile(j, k) == front + Slice(j, k);
  }

  /** A file keeps to the part size whenever that leaves room for any payload at all. */
  lemma PartFileSize(j: Job, k: nat)
    requires AllPackable(j) && k < PartCount(j) && j.partSize > DataOffset(j, k)
    ensures |PartFile(j, k)| <= j.partSize
  {
    hide Pack, Unpack, Packable, HeaderFor, Count;
    PackSize(HeaderOf(j, k));
    SliceBounds(CutOf(j), k);
    assert Payload(j, k) == Room(CutOf(j), k);
  }

  function FirstSlices(j: Job, n: nat): seq<Octets>
    requires n <= PartCount(j)
  {
    if n == 0 then [] else FirstSlices(j, n - 1) + [Slice(j, n - 1)]
  }

  lemma {:induction false} SlicesPrefix(j: Job, n: nat)
    requires n < PartCount(j)
    ensures Start(CutOf(j), n) <= |j.pkg|
    ensures Concat(FirstSlices(j, n)) == j.pkg[..Start(CutOf(j), n)]
  {
    hide Count, CutOf, Start, Slice, End;
    StartWithin(j, n);
    if n > 0 {
      SlicesPrefix(j, n - 1);
      SliceEnd(j, n - 1);
      ConcatSnoc(FirstSlices(j, n - 1), Slice(j, n - 1));
      TakeMore(j.pkg, Start(CutOf(j), n - 1), Start(CutOf(j), n));
    }
  }

  lemma StartWithin(j: Job, k: nat)
    requires k < PartCount(j)
    ensures Start(CutOf(j), k) <= |j.pkg| && Start(CutOf(j), 0) == 0
  {
    hide Count;
    SliceBounds(CutOf(j), k);
  }

  /** Where a slice begins and ends. */
  lemma SliceEnd(j: Job, k: nat)
    requires k < PartCount(j)
    ensures var end := if k + 1 == PartCount(j) then |j.pkg| else Start(CutOf(j), k + 1);
      Start(CutOf(j), k) <= end <= |j.pkg| && Slice(j, k) == j.pkg[Start(CutOf(j), k)..end]
  {
    hide Count;
    SliceBounds(CutOf(j), k);
  }

  lemma TakeMore(s: Octets, a: nat, b: nat)
    requires a <= b <= |s|
    ensures s[..a] + s[a..b] == s[..b]
  {
  }

  /** Laid end to end the slices are the package. */
  lemma SlicesJoin(j: Job)
    ensures Concat(FirstSlices(j, PartCount(j))) == j.pkg
  {
    hide PartCount, CutOf, Start, Slice;
    var n := PartCount(j);
    SlicesPrefix(j, n - 1);
    SliceEnd(j, n - 1);
    ConcatSnoc(FirstSlices(j, n - 1), Slice(j, n - 1));
    TakeMore(j.pkg, Start(CutOf(j), n - 1), |j.pkg|);
    assert j.pkg[..|j.pkg|] == j.pkg;
  }
}
