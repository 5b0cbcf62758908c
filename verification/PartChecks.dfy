/** What joining parts accepts and refuses, in terms of the octets of their headers and chunks. */
module PartChecks {
  import opened Bytes
  import opened PartHeader
  import opened Reassembler

  // --- the header, octet by octet ---

  function Word(b: Octets, at: nat): nat
    requires at + 4 <= |b|
  {
    b[at] as int + 0x100 * (b[at + 1] as int) + 0x1_0000 * (b[at + 2] as int) + 0x100_0000 * (b[at + 3] as int)
  }

  function Long(b: Octets, at: nat): nat
    requires at + 8 <= |b|
  {
    Word(b, at) + 0x1_0000_0000 * Word(b, at + 4)
  }

  lemma WordIs(b: Octets, at: nat)
    requires at + 4 <= |b|
    ensures FromLe(b[at..at + 4]) == Word(b, at)
  {
    var w := b[at..at + 4];
    assert w[1..][1..] == w[2..] && w[2..][1..] == w[3..] && w[3..][1..] == [];
    assert FromLe(w[3..]) == w[3];
    assert FromLe(w[2..]) == w[2] + 0x100 * FromLe(w[3..]);
    assert FromLe(w[1..]) == w[1] + 0x100 * FromLe(w[2..]);
  }

  lemma Scaled(low: nat, p: nat, high: nat)
    ensures 256 * (low + p * high) == 256 * low + (256 * p) * high
  {
  }

  lemma {:induction false} Halves(w: Octets, n: nat)
    requires n <= |w|
    ensures FromLe(w) == FromLe(w[..n]) + Pow256(n) * FromLe(w[n..])
  {
    if n == 0 {
      assert w[0..] == w;
    } else {
      Halves(w[1..], n - 1);
      assert w[1..][..n - 1] == w[..n][1..] && w[1..][n - 1..] == w[n..];
      Scaled(FromLe(w[..n][1..]), Pow256(n - 1), FromLe(w[n..]));
    }
  }

  lemma LongIs(b: Octets, at: nat)
    requires at + 8 <= |b|
    ensures FromLe(b[at..at + 8]) == Long(b, at)
  {
    var w := b[at..at + 8];
    Halves(w, 4);
    PowersOf256();
    assert w[..4] == b[at..at + 4] && w[4..] == b[at + 4..at + 8];
    WordIs(b, at);
    WordIs(b, at + 4);
  }

  lemma FieldStarts()
    ensures FieldStart(1) == 8 && FieldStart(2) == 12 && FieldStart(3) == 16 && FieldStart(4) == 20
    ensures FieldStart(5) == 24 && FieldStart(6) == 28 && FieldStart(7) == 32 && FieldStart(8) == 40
    ensures FieldStart(9) == 48 && FieldStart(10) == 56 && FieldStart(11) == 312 && FieldStart(12) == 344
    ensures FieldStart(13) == 600 && FieldStart(14) == 664 && FieldStart(15) == 680 && FieldStart(16) == 684
    ensures FieldStart(17) == 688 && FieldStart(18) == 720 && FieldStart(19) == 736 && FieldStart(20) == 744
    ensures FieldStart(21) == 748 && FieldStart(0) == 0
  {
  }

  // Field i is the octets between its start and the next one's.
  predicate Between(b: Octets, i: nat)
    requires |b| >= 4096 && i < FIELD_COUNT
  {
    && FieldStart(i) <= FieldStart(i + 1) <= 4096
    && Field(b, i) == b[FieldStart(i)..FieldStart(i + 1)]
  }

  lemma FieldAt(b: Octets, i: nat)
    requires |b| >= 4096 && i < FIELD_COUNT
    ensures Between(b, i)
  {
    FieldsEnd();
    FieldStartMonotone(i + 1, FIELD_COUNT);
  }

  /** Where each field of a header stands. */
  lemma FieldsAre(b: Octets)
    requires |b| >= 4096
    ensures var h := Unpack(b);
      && h.magic == b[..8] && h.version == Word(b, 8) && h.partIndex == Word(b, 12) && h.totalParts == Word(b, 16)
      && h.compression == Word(b, 20) && h.chunkSize == Word(b, 24) && h.numChunks == Word(b, 28)
      && h.partDataSize == Long(b, 32) && h.totalPkgSize == Long(b, 40) && h.totalArchiveSize == Long(b, 48)
      && h.pkgFilename == b[56..312] && h.titleId == b[312..344] && h.titleName == b[344..600]
      && h.contentId == b[600..664] && h.uuid == b[664..680]
      && h.iconOffset == Word(b, 680) && h.iconSize == Word(b, 684)
      && h.appVersion == b[688..720] && h.pkgType == b[720..736]
      && h.partOffset == Long(b, 736) && h.dataOffset == Word(b, 744)
  {
    hide Field, FieldStart, FromLe, Width, Word, Long;
    FieldStarts();
    forall i: nat | i < FIELD_COUNT
      ensures Between(b, i)
    {
      FieldAt(b, i);
    }
    forall at: nat | at + 4 <= |b|
      ensures FromLe(b[at..at + 4]) == Word(b, at)
    {
      WordIs(b, at);
    }
    forall at: nat | at + 8 <= |b|
      ensures FromLe(b[at..at + 8]) == Long(b, at)
    {
      LongIs(b, at);
    }
    assert Between(b, 0) && Between(b, 1) && Between(b, 2) && Between(b, 3) && Between(b, 4) && Between(b, 5);
    assert Between(b, 6) && Between(b, 7) && Between(b, 8) && Between(b, 9) && Between(b, 10) && Between(b, 11);
    assert Between(b, 12) && Between(b, 13) && Between(b, 14) && Between(b, 15) && Between(b, 16);
    assert Between(b, 17) && Between(b, 18) && Between(b, 19) && Between(b, 20);
  }

  /** The file starts with the eight letters PS5MPKG1, version 1, a place among its parts, a known compression, and a
    * chunk size of at most 64 MiB. */
  predicate Good(b: Octets) {
    && |b| >= 4096
    && b[0] == 'P' as int && b[1] == 'S' as int && b[2] == '5' as int && b[3] == 'M' as int
    && b[4] == 'P' as int && b[5] == 'K' as int && b[6] == 'G' as int && b[7] == '1' as int
    && Word(b, 8) == 1
    && 1 <= Word(b, 12) <= Word(b, 16)
    && (Word(b, 20) == 0 || Word(b, 20) == 1)
    && Word(b, 24) <= 67108864
  }

  lemma GoodExactly(b: Octets)
    ensures ReadHeader(b).Valid? <==> Good(b)
    ensures Good(b) ==> ReadHeader(b).header == Unpack(b)
  {
    hide Unpack, Word, Long;
    if |b| >= 4096 {
      FieldsAre(b);
      assert b[..8] == MAGIC <==>
        (b[0] == 0x50 && b[1] == 0x53 && b[2] == 0x35 && b[3] == 0x4D
         && b[4] == 0x50 && b[5] == 0x4B && b[6] == 0x47 && b[7] == 0x31) by {
        assert forall k :: 0 <= k < 8 ==> b[..8][k] == b[k];
      }
    }
  }

  // --- what is checked first ---

  predicate IsPart(files: FileMap, path: Path) {
    path in files && Good(files[path])
  }

  predicate Numbered(b: Octets, index: nat, count: nat) {
    |b| >= 4096 && Word(b, 12) == index && Word(b, 16) == count
  }

  /** Part i, counting from 0, is there, numbered right, and carries the first part's 16 octets of identity. */
  predicate Stands(files: FileMap, paths: seq<Path>, i: nat)
    requires i < |paths| && IsPart(files, paths[0])
  {
    && IsPart(files, paths[i]) && Numbered(files[paths[i]], i + 1, |paths|)
    && files[paths[i]][664..680] == files[paths[0]][664..680]
  }

  /** What the first n headers announce, added up. */
  function Announced(files: FileMap, paths: seq<Path>, n: nat): nat
    requires n <= |paths|
  {
    if n == 0 then 0
    else Announced(files, paths, n - 1)
         + if IsPart(files, paths[n - 1]) then Long(files[paths[n - 1]], 32) else 0
  }

  lemma HeaderIs(files: FileMap, path: Path)
    ensures HeaderAt(files, path).Valid? <==> IsPart(files, path)
    ensures IsPart(files, path) ==> HeaderAt(files, path).header == Unpack(files[path])
  {
    hide ReadHeader, Good, Unpack;
    if path in files {
      GoodExactly(files[path]);
    }
  }

  lemma SumModulo(a: nat, b: nat)
    ensures (a % TWO_POW_64 + b) % TWO_POW_64 == (a + b) % TWO_POW_64
  {
  }

  // What the header at a path announces.
  lemma SizeIs(files: FileMap, path: Path)
    ensures var h := HeaderAt(files, path);
      (if h.Valid? then h.header.partDataSize else 0) == if IsPart(files, path) then Long(files[path], 32) else 0
  {
    hide HeaderAt, Good, Unpack, Word, Long;
    HeaderIs(files, path);
    if IsPart(files, path) {
      PartFields(files, path);
    }
  }

  lemma {:induction false} AnnouncedIs(files: FileMap, paths: seq<Path>, n: nat)
    requires n <= |paths|
    ensures SizeSum(files, paths, n) == Announced(files, paths, n) % TWO_POW_64
  {
    hide HeaderAt, IsPart, Unpack, Long;
    if n > 0 {
      AnnouncedIs(files, paths, n - 1);
      SizeIs(files, paths[n - 1]);
      var h := HeaderAt(files, paths[n - 1]);
      SumModulo(Announced(files, paths, n - 1), if h.Valid? then h.header.partDataSize else 0);
    }
  }

  lemma PartFields(files: FileMap, path: Path)
    requires IsPart(files, path)
    ensures var b, h := files[path], Unpack(files[path]);
      && |b| >= 4096
      && h.partIndex == Word(b, 12) && h.totalParts == Word(b, 16) && h.uuid == b[664..680]
      && h.partDataSize == Long(b, 32) && h.totalPkgSize == Long(b, 40)
      && h.compression == Word(b, 20) && h.chunkSize == Word(b, 24) && h.numChunks == Word(b, 28)
  {
    hide Unpack, Word, Long;
    FieldsAre(files[path]);
  }

  lemma ComplaintIs(files: FileMap, paths: seq<Path>, i: nat)
    requires i < |paths| && IsPart(files, paths[0])
    ensures PartComplaint(files, paths, Unpack(files[paths[0]]), i) ==
      if !IsPart(files, paths[i]) then -4
      else if !Numbered(files[paths[i]], i + 1, |paths|) then -5
      else if files[paths[i]][664..680] != files[paths[0]][664..680] then -6
      else 0
  {
    hide HeaderAt, IsPart, Unpack, Word;
    PartFields(files, paths[0]);
    HeaderIs(files, paths[i]);
    if IsPart(files, paths[i]) {
      PartFields(files, paths[i]);
    }
  }

  /** Part i is the first, from part `from` on, that does not stand. */
  predicate FirstBad(files: FileMap, paths: seq<Path>, from: nat, i: nat)
    requires paths != [] && IsPart(files, paths[0])
  {
    from <= i < |paths| && !Stands(files, paths, i) && forall k :: from <= k < i ==> Stands(files, paths, k)
  }

  lemma {:induction false} FirstComplaintIs(files: FileMap, paths: seq<Path>, from: nat)
    requires from <= |paths| && paths != [] && IsPart(files, paths[0])
    ensures var c := FirstComplaint(files, paths, Unpack(files[paths[0]]), from);
      && (c == 0 <==> forall i :: from <= i < |paths| ==> Stands(files, paths, i))
      && forall i: nat :: FirstBad(files, paths, from, i) ==>
           c == if !IsPart(files, paths[i]) then -4
                else if !Numbered(files[paths[i]], i + 1, |paths|) then -5
                else -6
    decreases |paths| - from
  {
    hide PartComplaint, Good, Unpack, Numbered;
    PartFields(files, paths[0]);
    if from < |paths| {
      ComplaintIs(files, paths, from);
      FirstComplaintIs(files, paths, from + 1);
      var c := FirstComplaint(files, paths, Unpack(files[paths[0]]), from);
      var own := PartComplaint(files, paths, Unpack(files[paths[0]]), from);
      assert own == 0 <==> Stands(files, paths, from);
      assert c == if own != 0 then own else FirstComplaint(files, paths, Unpack(files[paths[0]]), from + 1);
      forall i: nat | FirstBad(files, paths, from, i)
        ensures c == if !IsPart(files, paths[i]) then -4
                     else if !Numbered(files[paths[i]], i + 1, |paths|) then -5
                     else -6
      {
        if i > from {
          assert FirstBad(files, paths, from + 1, i);
        }
      }
    }
  }

  /** The set as a whole: the first part gives the count, and every other one stands beside it. */
  predicate Complete(files: FileMap, paths: seq<Path>) {
    && paths != [] && IsPart(files, paths[0]) && Word(files[paths[0]], 16) == |paths|
    && forall i :: 1 <= i < |paths| ==> Stands(files, paths, i)
  }

  // The announced sizes, as far as they are known, add up to the announced total, in 64 bits.
  predicate SizesAgree(files: FileMap, paths: seq<Path>)
    requires paths != [] && IsPart(files, paths[0])
  {
    var total, sum := Long(files[paths[0]], 40), Announced(files, paths, |paths|) % 0x1_0000_0000_0000_0000;
    total == 0 || sum == 0 || sum == total
  }

  /** The code of the checks made before anything is written. */
  lemma CodesAre(files: FileMap, paths: seq<Path>)
    ensures var code := Precheck(files, paths);
      && (code == -1 <==> paths == [])
      && (code == -2 <==> paths != [] && !IsPart(files, paths[0]))
      && (code == -3 <==> paths != [] && IsPart(files, paths[0]) && Word(files[paths[0]], 16) != |paths|)
      && (code == -18 <==> Complete(files, paths) && !SizesAgree(files, paths))
      && (code == 0 <==> Complete(files, paths) && SizesAgree(files, paths))
  {
    hide HeaderAt, IsPart, Unpack, Word, Long, FirstComplaint, SizeSum, Announced, Stands;
    FirstCodes(files, paths);
  }

  lemma FirstCodes(files: FileMap, paths: seq<Path>)
    ensures paths != [] ==> (HeaderAt(files, paths[0]).Valid? <==> IsPart(files, paths[0]))
    ensures paths != [] && IsPart(files, paths[0]) ==>
      && HeaderAt(files, paths[0]).header == Unpack(files[paths[0]])
      && Unpack(files[paths[0]]).totalParts == Word(files[paths[0]], 16)
      && Unpack(files[paths[0]]).totalPkgSize == Long(files[paths[0]], 40)
      && SizeSum(files, paths, |paths|) == Announced(files, paths, |paths|) % 0x1_0000_0000_0000_0000
      && var c := FirstComplaint(files, paths, Unpack(files[paths[0]]), 1);
      && (c == 0 <==> forall i :: 1 <= i < |paths| ==> Stands(files, paths, i))
      && (c == 0 || c == -4 || c == -5 || c == -6)
  {
    hide HeaderAt, Good, Unpack, Word, Long, FirstComplaint, SizeSum, Announced, Stands;
    if paths != [] {
      HeaderIs(files, paths[0]);
      if IsPart(files, paths[0]) {
        PartFields(files, paths[0]);
        AnnouncedIs(files, paths, |paths|);
        FirstComplaintIs(files, paths, 1);
        ComplaintCodes(files, paths, Unpack(files[paths[0]]), 1);
      }
    }
  }

  lemma {:induction false} ComplaintCodes(files: FileMap, paths: seq<Path>, first: Header, i: nat)
    requires i <= |paths|
    ensures FirstComplaint(files, paths, first, i) in {0, -4, -5, -6}
    decreases |paths| - i
  {
    hide HeaderAt;
    if i < |paths| {
      ComplaintCodes(files, paths, first, i + 1);
    }
  }

  /** Where the first part is right, the first of the others that does not stand decides: -4 if it is no part, -5 if it
    * has another number or count, -6 if only its identity differs. */
  lemma BadPartCode(files: FileMap, paths: seq<Path>, i: nat)
    requires paths != [] && IsPart(files, paths[0]) && Word(files[paths[0]], 16) == |paths|
    requires FirstBad(files, paths, 1, i)
    ensures Precheck(files, paths) ==
      if !IsPart(files, paths[i]) then -4
      else if !Numbered(files[paths[i]], i + 1, |paths|) then -5
      else -6
  {
    hide HeaderAt, Good, Unpack, Word, Long, FirstComplaint, SizeSum, Announced, Numbered;
    FirstCodes(files, paths);
    FirstComplaintIs(files, paths, 1);
  }

  // --- what one part contributes ---

  /** Where the package's bytes begin: where the header says, or else behind the header and the icon that follows it. */
  function Begins(b: Octets): nat
    requires |b| >= 4096
  {
    if Word(b, 744) > 0 then Word(b, 744)
    else if Word(b, 680) == 4096 then 4096 + Word(b, 684)
    else 4096
  }

  // An icon of ten MiB or more whose end has to be computed.
  predicate HugeIcon(b: Octets)
    requires |b| >= 4096
  {
    Word(b, 744) == 0 && Word(b, 680) == 4096 && Word(b, 684) >= 10485760
  }

  predicate Raw(b: Octets)
    requires |b| >= 4096
  {
    Word(b, 28) == 0 && Word(b, 20) == 0
  }

  /** What a part file contributes. */
  lemma ContributionIs(b: Octets, bufs: Buffers, codec: Codec)
    ensures |b| < 4096 || HugeIcon(b) ==> PartPayload(b, bufs, codec) == Failed(-10)
    ensures |b| >= 4096 && !HugeIcon(b) && Raw(b) ==>
      var begin, size := Begins(b), Long(b, 32);
      && (size == 0 ==> PartPayload(b, bufs, codec) == Done([]))
      && (size > 0 && begin + size <= |b| ==> PartPayload(b, bufs, codec) == Done(b[begin..begin + size]))
      && (size > 0 && begin + size > |b| ==> PartPayload(b, bufs, codec) == Failed(-13))
    ensures |b| >= 4096 && !HugeIcon(b) && !Raw(b) ==>
      PartPayload(b, bufs, codec) == ChunksFrom(b, Begins(b), Word(b, 28), Word(b, 20), bufs, codec)
  {
    hide Unpack, Word, Long, ChunksFrom;
    if |b| >= 4096 {
      FieldsAre(b);
    }
  }

  /** A set of parts that passes the checks is refused with -8 exactly if its first part is in the chunked format and
    * has chunks of more than 8 MiB; a missing chunk size stands for 2 MiB. Stored chunks may be twice as large. */
  lemma ChunkLimits(files: FileMap, paths: seq<Path>, codec: Codec)
    requires Precheck(files, paths) == 0
    ensures paths != [] && IsPart(files, paths[0])
    ensures var b := files[paths[0]];
      && (!Raw(b) && Word(b, 24) > 8388608 ==> Rebuilt(files, paths, codec) == Failed(-8))
      && (Raw(b) ==> BuffersFor(Unpack(b)) == Buffers(2097152, 2097152))
      && (!Raw(b) ==>
            var size := if Word(b, 24) == 0 then 2097152 else Word(b, 24);
            BuffersFor(Unpack(b)) == Buffers(size + 65536, 2 * size + 65536))
      && (Raw(b) || Word(b, 24) <= 8388608 ==>
            var all := Payloads(files, paths, |paths|, BuffersFor(Unpack(b)), codec);
            Rebuilt(files, paths, codec) ==
              if all.Done? && Long(b, 40) > 0 && |all.data| != Long(b, 40) then Failed(-18) else all)
  {
    hide HeaderAt, Good, Unpack, Word, Long, Precheck, Payloads;
    CodesAre(files, paths);
    HeaderIs(files, paths[0]);
    PartFields(files, paths[0]);
  }

  // --- chunks of the older format ---

  // The stored octets, what they stand for, and the sum that is written, 0 for none.
  datatype Stored = Stored(packed: Octets, data: Octets, sum: nat)

  function Encode(c: Stored): Octets {
    Le(|c.data|, 4) + Le(|c.packed|, 4) + Le(c.sum, 4) + c.packed
  }

  function EncodeAll(cs: seq<Stored>): Octets {
    if cs == [] then [] else Encode(cs[0]) + EncodeAll(cs[1..])
  }

  function Contents(cs: seq<Stored>): Octets {
    if cs == [] then [] else cs[0].data + Contents(cs[1..])
  }

  /** The chunk fits the buffers, is what it says, and has the right sum, or none. */
  predicate Sound(c: Stored, compression: nat, bufs: Buffers, codec: Codec) {
    && |c.packed| <= bufs.compressed && |c.data| <= bufs.uncompressed
    && (compression == 0 ==> c.packed == c.data)
    && (compression == 1 ==> codec.inflate(c.packed, bufs.uncompressed) == Inflated(c.data))
    && (c.sum == 0 || codec.crc(c.data) == c.sum)
  }

  predicate Sized(c: Stored) {
    |c.packed| < 0x1_0000_0000 && |c.data| < 0x1_0000_0000 && c.sum < 0x1_0000_0000
  }

  /** The chunk at a place, from the three words before it and the octets behind them. */
  lemma ChunkIs(file: Octets, pos: nat, compression: nat, bufs: Buffers, codec: Codec)
    requires compression == 0 || compression == 1
    ensures var step := ChunkAt(file, pos, compression, bufs, codec);
      if pos + 12 > |file| then step == BadChunk(-11)
      else
        var size, stored, sum, body := Word(file, pos), Word(file, pos + 4), Word(file, pos + 8), pos + 12;
        if stored > bufs.compressed || size > bufs.uncompressed then step == BadChunk(-12)
        else if body + stored > |file| then step == BadChunk(-13)
        else
          var data := if compression == 0 then Inflated(file[body..body + stored])
                      else codec.inflate(file[body..body + stored], bufs.uncompressed);
          if data == InflateFailed || |data.data| != size then step == BadChunk(if compression == 0 then -12 else -15)
          else if sum > 0 && codec.crc(data.data) != sum then step == BadChunk(-16)
          else step == Chunk(data.data, body + stored)
  {
    hide Word;
    if pos + 12 <= |file| {
      var w := ReadAt(file, pos, 12);
      assert w == file[pos..pos + 12];
      assert w[..4] == file[pos..pos + 4] && w[4..8] == file[pos + 4..pos + 8] && w[8..] == file[pos + 8..pos + 12];
      WordIs(file, pos);
      WordIs(file, pos + 4);
      WordIs(file, pos + 8);
    }
  }

  lemma EncodedWords(pre: Octets, c: Stored, rest: Octets)
    requires Sized(c)
    ensures var f, p := pre + (Encode(c) + rest), |pre|;
      && p + 12 + |c.packed| <= |f|
      && Word(f, p) == |c.data| && Word(f, p + 4) == |c.packed| && Word(f, p + 8) == c.sum
      && f[p + 12..p + 12 + |c.packed|] == c.packed
  {
    hide Word, FromLe, Le;
    var f, p := pre + (Encode(c) + rest), |pre|;
    NumbersSurvive();
    WordIs(f, p);
    WordIs(f, p + 4);
    WordIs(f, p + 8);
    assert f[p..p + 4] == Le(|c.data|, 4);
    assert f[p + 4..p + 8] == Le(|c.packed|, 4);
    assert f[p + 8..p + 12] == Le(c.sum, 4);
  }

  /** Written chunks are read back as what they stand for, each sound one whatever follows it. */
  lemma ChunkBack(pre: Octets, c: Stored, rest: Octets, compression: nat, bufs: Buffers, codec: Codec)
    requires Sized(c) && (compression == 0 || compression == 1) && Sound(c, compression, bufs, codec)
    ensures ChunkAt(pre + (Encode(c) + rest), |pre|, compression, bufs, codec) == Chunk(c.data, |pre| + |Encode(c)|)
  {
    hide Word, ChunkAt, Le;
    var f := pre + (Encode(c) + rest);
    EncodedWords(pre, c, rest);
    ChunkIs(f, |pre|, compression, bufs, codec);
  }

  lemma {:induction false} ChunksBack(pre: Octets, cs: seq<Stored>, rest: Octets, compression: nat, bufs: Buffers,
                                      codec: Codec)
    requires compression == 0 || compression == 1
    requires forall c :: c in cs ==> Sized(c) && Sound(c, compression, bufs, codec)
    ensures ChunksFrom(pre + (EncodeAll(cs) + rest), |pre|, |cs|, compression, bufs, codec) == Done(Contents(cs))
    decreases |cs|
  {
    hide ChunkAt, Encode, Sound, Sized;
    if cs != [] {
      var c, more := cs[0], cs[1..];
      var f := pre + (EncodeAll(cs) + rest);
      assert f == pre + (Encode(c) + (EncodeAll(more) + rest));
      ChunkBack(pre, c, EncodeAll(more) + rest, compression, bufs, codec);
      var front := pre + Encode(c);
      assert f == front + (EncodeAll(more) + rest);
      assert forall d :: d in more ==> d in cs;
      ChunksBack(front, more, rest, compression, bufs, codec);
    }
  }

  /** A part in the older format, its chunks behind the header and the icon, contributes what the chunks stand for. */
  lemma OlderPart(head: Octets, icon: Octets, cs: seq<Stored>, rest: Octets, bufs: Buffers, codec: Codec)
    requires Good(head) && |head| == 4096 && Word(head, 744) == 0 && Word(head, 28) == |cs| > 0
    requires |icon| == Word(head, 684) < 10485760 && (icon == [] || Word(head, 680) == 4096)
    requires forall c :: c in cs ==> Sized(c) && Sound(c, Word(head, 20), bufs, codec)
    ensures PartPayload(head + icon + (EncodeAll(cs) + rest), bufs, codec) == Done(Contents(cs))
  {
    hide Sound, Sized, PartPayload, ChunksFrom, EncodeAll;
    var f := head + icon + (EncodeAll(cs) + rest);
    assert forall at: nat :: at + 4 <= 4096 ==> Word(f, at) == Word(head, at);
    ContributionIs(f, bufs, codec);
    ChunksBack(head + icon, cs, rest, Word(head, 20), bufs, codec);
  }
}
