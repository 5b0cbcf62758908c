/** The 4096-byte header at the start of every slice of a multi-part package. */
module PartHeader {
  import opened Bytes

  const HEADER_SIZE: nat := 4096
  const MAX_PARTS: nat := 256
  const MAGIC: Octets := [0x50, 0x53, 0x35, 0x4D, 0x50, 0x4B, 0x47, 0x31]  // PS5MPKG1
  const COMPRESSION_NONE: nat := 0
  const COMPRESSION_DEFLATE: nat := 1
  const MAX_CHUNK: nat := 64 * 1024 * 1024

  const FIELD_COUNT: nat := 22

  /** The width of field i. The packing format string and the packed C struct list the same ones. */
  function Width(i: nat): nat {
    if i == 0 then 8
    else if i < 7 then 4
    else if i < 10 then 8
    else if i == 10 || i == 12 then 256
    else if i == 11 || i == 17 then 32
    else if i == 13 then 64
    else if i == 14 || i == 18 then 16
    else if i == 19 then 8
    else if i < 21 then 4
    else 3348
  }

  datatype Header = Header(
    magic: Octets, version: nat, partIndex: nat, totalParts: nat, compression: nat,
    chunkSize: nat, numChunks: nat, partDataSize: nat, totalPkgSize: nat, totalArchiveSize: nat,
    pkgFilename: Octets, titleId: Octets, titleName: Octets, contentId: Octets, uuid: Octets,
    iconOffset: nat, iconSize: nat, appVersion: Octets, pkgType: Octets,
    partOffset: nat, dataOffset: nat)

  /** What the packer accepts: integers that fit their field, text already cut and padded. */
  predicate Packable(h: Header) {
    && |h.magic| == 8 && |h.pkgFilename| == 256 && |h.titleId| == 32 && |h.titleName| == 256
    && |h.contentId| == 64 && |h.uuid| == 16 && |h.appVersion| == 32 && |h.pkgType| == 16
    && h.version < TWO_POW_32 && h.partIndex < TWO_POW_32 && h.totalParts < TWO_POW_32
    && h.compression < TWO_POW_32 && h.chunkSize < TWO_POW_32 && h.numChunks < TWO_POW_32
    && h.partDataSize < TWO_POW_64 && h.totalPkgSize < TWO_POW_64 && h.totalArchiveSize < TWO_POW_64
    && h.iconOffset < TWO_POW_32 && h.iconSize < TWO_POW_32
    && h.partOffset < TWO_POW_64 && h.dataOffset < TWO_POW_32
  }

  function FieldBytes(h: Header, i: nat): Octets
    requires i < FIELD_COUNT
  {
    if i < 10 then
      if i == 0 then h.magic
      else if i == 1 then Le(h.version, 4)
      else if i == 2 then Le(h.partIndex, 4)
      else if i == 3 then Le(h.totalParts, 4)
      else if i == 4 then Le(h.compression, 4)
      else if i == 5 then Le(h.chunkSize, 4)
      else if i == 6 then Le(h.numChunks, 4)
      else if i == 7 then Le(h.partDataSize, 8)
      else if i == 8 then Le(h.totalPkgSize, 8)
      else Le(h.totalArchiveSize, 8)
    else if i < 15 then
      if i == 10 then h.pkgFilename
      else if i == 11 then h.titleId
      else if i == 12 then h.titleName
      else if i == 13 then h.contentId
      else h.uuid
    else if i == 15 then Le(h.iconOffset, 4)
    else if i == 16 then Le(h.iconSize, 4)
    else if i == 17 then h.appVersion
    else if i == 18 then h.pkgType
    else if i == 19 then Le(h.partOffset, 8)
    else if i == 20 then Le(h.dataOffset, 4)
    else Zeros(3348)
  }

  /** Fields i and up, packed. */
  function PackFrom(h: Header, i: nat): Octets
    requires i <= FIELD_COUNT
    decreases FIELD_COUNT - i
  {
    if i == FIELD_COUNT then [] else FieldBytes(h, i) + PackFrom(h, i + 1)
  }

  function Pack(h: Header): Octets {
    PackFrom(h, 0)
  }

  /** Where field i begins. */
  function FieldStart(i: nat): nat
    requires i <= FIELD_COUNT
  {
    if i == 0 then 0 else FieldStart(i - 1) + Width(i - 1)
  }

  lemma FieldsEnd()
    ensures FieldStart(FIELD_COUNT) == HEADER_SIZE
  {
    assert FieldStart(5) == 24;
    assert FieldStart(10) == 56;
    assert FieldStart(15) == 680;
    assert FieldStart(20) == 744;
  }

  lemma {:induction false} FieldStartMonotone(i: nat, j: nat)
    requires i <= j <= FIELD_COUNT
    ensures FieldStart(i) <= FieldStart(j)
    decreases j
  {
    if i < j {
      FieldStartMonotone(i, j - 1);
    }
  }

  function Field(b: Octets, i: nat): (r: Octets)
    requires |b| >= HEADER_SIZE && i < FIELD_COUNT
    ensures |r| == Width(i)
  {
    FieldsEnd();
    FieldStartMonotone(i + 1, FIELD_COUNT);
    b[FieldStart(i)..FieldStart(i + 1)]
  }

  function Unpack(b: Octets): Header
    requires |b| >= HEADER_SIZE
  {
    Header(Field(b, 0), FromLe(Field(b, 1)), FromLe(Field(b, 2)), FromLe(Field(b, 3)),
           FromLe(Field(b, 4)), FromLe(Field(b, 5)), FromLe(Field(b, 6)), FromLe(Field(b, 7)),
           FromLe(Field(b, 8)), FromLe(Field(b, 9)), Field(b, 10), Field(b, 11), Field(b, 12),
           Field(b, 13), Field(b, 14), FromLe(Field(b, 15)), FromLe(Field(b, 16)), Field(b, 17),
           Field(b, 18), FromLe(Field(b, 19)), FromLe(Field(b, 20)))
  }

  lemma PackWidth(h: Header, i: nat)
    requires Packable(h) && i < FIELD_COUNT
    ensures |FieldBytes(h, i)| == Width(i)
  {
  }

  lemma {:induction false} PackLength(h: Header, i: nat)
    requires Packable(h) && i <= FIELD_COUNT
    ensures |PackFrom(h, i)| == HEADER_SIZE - FieldStart(i)
    decreases FIELD_COUNT - i
  {
    FieldsEnd();
    if i < FIELD_COUNT {
      PackWidth(h, i);
      PackLength(h, i + 1);
    }
  }

  lemma DropFront(whole: Octets, start: nat, front: Octets, back: Octets)
    requires start <= |whole| && whole[start..] == front + back
    ensures start + |front| <= |whole|
    ensures whole[start..start + |front|] == front
    ensures whole[start + |front|..] == back
  {
    assert whole[start..start + |front|] == whole[start..][..|front|];
    assert whole[start + |front|..] == whole[start..][|front|..];
  }

  /** Dropping the bytes before field i leaves fields i and up. */
  lemma {:induction false} PackTail(h: Header, rest: Octets, i: nat)
    requires Packable(h) && i <= FIELD_COUNT
    ensures FieldStart(i) <= |Pack(h) + rest|
    ensures (Pack(h) + rest)[FieldStart(i)..] == PackFrom(h, i) + rest
  {
    hide FieldBytes, Packable, Width, PackFrom, FieldStart, Pack;
    if i == 0 {
      PackedWhole(h);
    } else {
      PackTail(h, rest, i - 1);
      PackWidth(h, i - 1);
      FieldStartNext(i - 1);
      PackNext(h, i - 1);
      var f, g := FieldBytes(h, i - 1), PackFrom(h, i);
      Regroup(f, g, rest);
      DropFront(Pack(h) + rest, FieldStart(i - 1), f, g + rest);
    }
  }

  lemma PackedWhole(h: Header)
    ensures Pack(h) == PackFrom(h, 0) && FieldStart(0) == 0
  {
  }

  lemma PackNext(h: Header, i: nat)
    requires i < FIELD_COUNT
    ensures PackFrom(h, i) == FieldBytes(h, i) + PackFrom(h, i + 1)
  {
  }

  lemma Regroup(a: Octets, b: Octets, c: Octets)
    ensures a + b + c == a + (b + c)
  {
  }

  lemma FieldStartNext(i: nat)
    requires i < FIELD_COUNT
    ensures FieldStart(i + 1) == FieldStart(i) + Width(i)
  {
  }

  lemma FieldSurvives(h: Header, rest: Octets, i: nat)
    requires Packable(h) && i < FIELD_COUNT
    requires |Pack(h)| == HEADER_SIZE
    ensures Field(Pack(h) + rest, i) == FieldBytes(h, i)
  {
    hide FieldBytes, Packable, Width, Pack, PackFrom, FieldStart;
    PackTail(h, rest, i);
    PackWidth(h, i);
    PackNext(h, i);
    var f, g := FieldBytes(h, i), PackFrom(h, i + 1);
    Regroup(f, g, rest);
    FieldStartNext(i);
    DropFront(Pack(h) + rest, FieldStart(i), f, g + rest);
  }

  lemma NumbersSurvive()
    ensures forall v: nat :: v < TWO_POW_32 ==> FromLe(Le(v, 4)) == v
    ensures forall v: nat :: v < TWO_POW_64 ==> FromLe(Le(v, 8)) == v
  {
    PowersOf256();
    forall v: nat | v < TWO_POW_32
      ensures FromLe(Le(v, 4)) == v
    {
      LeRoundTrip(v, 4);
    }
    forall v: nat | v < TWO_POW_64
      ensures FromLe(Le(v, 8)) == v
    {
      LeRoundTrip(v, 8);
    }
  }

  lemma PackSize(h: Header)
    requires Packable(h)
    ensures |Pack(h)| == HEADER_SIZE
  {
    PackLength(h, 0);
  }

  /** The reader recovers every field the packer wrote, whatever follows the header. */
  lemma UnpackPack(h: Header, rest: Octets)
    requires Packable(h)
    ensures |Pack(h)| == HEADER_SIZE
    ensures Unpack(Pack(h) + rest) == h
  {
    hide Pack, Le, FromLe, Field;
    PackSize(h);
    forall i | 0 <= i < FIELD_COUNT
      ensures Field(Pack(h) + rest, i) == FieldBytes(h, i)
    {
      FieldSurvives(h, rest, i);
    }
    NumbersSurvive();
  }

  lemma PowersOf256()
    ensures Pow256(4) == TWO_POW_32 && Pow256(8) == TWO_POW_64
  {
    assert Pow256(2) == 0x1_0000;
    assert Pow256(4) == TWO_POW_32;
    assert Pow256(6) == 0x1_0000_0000_0000;
  }

  /** Text as the packer stores it: cut to width - 1 bytes, padded with zeros. */
  function TextField(s: Octets, width: nat): (r: Octets)
    requires width > 0
    ensures |r| == width && r[width - 1] == 0
  {
    var cut := s[..Min(|s|, width - 1)];
    cut + Zeros(width - |cut|)
  }

  /** multipart_is_valid_header. */
  predicate IsValid(h: Header) {
    && h.magic == MAGIC
    && h.version == 1
    && h.totalParts != 0 && h.partIndex != 0 && h.partIndex <= h.totalParts
    && (h.compression == COMPRESSION_NONE || h.compression == COMPRESSION_DEFLATE)
    && h.chunkSize <= MAX_CHUNK
  }

  datatype HeaderResult = Valid(header: Header) | Unreadable | Malformed

  /** multipart_read_header on the bytes of an existing file. */
  function ReadHeader(file: Octets): HeaderResult {
    if |file| < HEADER_SIZE then Unreadable
    else if !IsValid(Unpack(file)) then Malformed
    else Valid(Unpack(file))
  }
}
