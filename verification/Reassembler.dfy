/** Rebuilding a package from its slices, on a disk of named files. */
module Reassembler {
  import opened Bytes
  import opened PartHeader

  const RAW_BUFFER: nat := 2 * 1024 * 1024
  const MAX_CHUNKED: nat := 8 * 1024 * 1024
  const MAX_ICON: nat := 10 * 1024 * 1024
  const CHUNK_HEADER: nat := 12

  type Path = string

  type FileMap = map<Path, Octets>

  datatype Inflated = Inflated(data: Octets) | InflateFailed

  // Inflating into a bounded buffer and the checksum of a chunk belong to a library.
  datatype Codec = Codec(inflate: (Octets, nat) -> Inflated, crc: Octets -> nat)

  datatype Outcome = Done(data: Octets) | Failed(code: int)

  datatype Buffers = Buffers(uncompressed: nat, compressed: nat)

  // --- what the files say ---

  function ChunkSize(first: Header): nat {
    if first.chunkSize == 0 then RAW_BUFFER else first.chunkSize
  }

  predicate NeedsChunks(first: Header) {
    first.numChunks != 0 || first.compression != COMPRESSION_NONE
  }

  function BuffersFor(first: Header): (b: Buffers)
    ensures b.uncompressed > 0
  {
    if NeedsChunks(first) then Buffers(ChunkSize(first) + 65536, ChunkSize(first) * 2 + 65536)
    else Buffers(RAW_BUFFER, RAW_BUFFER)
  }

  predicate HasIconAfterHeader(h: Header) {
    h.iconSize > 0 && h.iconOffset == HEADER_SIZE
  }

  predicate IconTooLarge(h: Header) {
    h.dataOffset == 0 && HasIconAfterHeader(h) && h.iconSize >= MAX_ICON
  }

  function PayloadStart(h: Header): nat {
    if h.dataOffset != 0 then h.dataOffset
    else HEADER_SIZE + if HasIconAfterHeader(h) then h.iconSize else 0
  }

  datatype ChunkStep = Chunk(data: Octets, next: nat) | BadChunk(code: int)

  /** The chunk at position pos of a slice in the older, chunked format. */
  function ChunkAt(file: Octets, pos: nat, compression: nat, bufs: Buffers, codec: Codec): ChunkStep {
    var raw := ReadAt(file, pos, CHUNK_HEADER);
    if |raw| != CHUNK_HEADER then BadChunk(-11)
    else
      var size, stored, sum := FromLe(raw[..4]), FromLe(raw[4..8]), FromLe(raw[8..]);
      if stored > bufs.compressed || size > bufs.uncompressed then BadChunk(-12)
      else
        var body := ReadAt(file, pos + CHUNK_HEADER, stored);
        var next := pos + CHUNK_HEADER + stored;
        if |body| != stored then BadChunk(-13)
        else if compression == COMPRESSION_NONE then
          if size != stored then BadChunk(-12)
          else if sum != 0 && codec.crc(body) != sum then BadChunk(-16)
          else Chunk(body, next)
        else if compression == COMPRESSION_DEFLATE then
          var z := codec.inflate(body, bufs.uncompressed);
          if z.InflateFailed? || |z.data| != size then BadChunk(-15)
          else if sum != 0 && codec.crc(z.data) != sum then BadChunk(-16)
          else Chunk(z.data, next)
        else Chunk([], next)
  }

  function ChunksFrom(file: Octets, pos: nat, n: nat, compression: nat, bufs: Buffers, codec: Codec): Outcome
    decreases n
  {
    if n == 0 then Done([])
    else match ChunkAt(file, pos, compression, bufs, codec)
      case BadChunk(code) => Failed(code)
      case Chunk(data, next) =>
        match ChunksFrom(file, next, n - 1, compression, bufs, codec)
        case Failed(code) => Failed(code)
        case Done(more) => Done(data + more)
  }

  /** The package bytes one slice file contributes. */
  function PartPayload(file: Octets, bufs: Buffers, codec: Codec): Outcome {
    if |file| < HEADER_SIZE then Failed(-10)
    else
      var h := Unpack(file);
      if IconTooLarge(h) then Failed(-10)
      else if h.numChunks == 0 && h.compression == COMPRESSION_NONE then
        if h.partDataSize == 0 then Done([])
        else if PayloadStart(h) + h.partDataSize > |file| then Failed(-13)
        else Done(file[PayloadStart(h)..PayloadStart(h) + h.partDataSize])
      else ChunksFrom(file, PayloadStart(h), h.numChunks, h.compression, bufs, codec)
  }

  function Append(a: Outcome, b: Outcome): Outcome {
    if a.Failed? then a else if b.Failed? then b else Done(a.data + b.data)
  }

  /** The payloads of the first n files, in order, up to the first failure. */
  function Payloads(files: FileMap, paths: seq<Path>, n: nat, bufs: Buffers, codec: Codec): Outcome
    requires n <= |paths|
  {
    if n == 0 then Done([])
    else Append(Payloads(files, paths, n - 1, bufs, codec),
                if paths[n - 1] in files then PartPayload(files[paths[n - 1]], bufs, codec) else Failed(-9))
  }

  function HeaderAt(files: FileMap, path: Path): HeaderResult {
    if path in files then ReadHeader(files[path]) else Unreadable
  }

  /** The complaint about part i (counting from 0) of a set whose first header is given; 0 if none. */
  function PartComplaint(files: FileMap, paths: seq<Path>, first: Header, i: nat): int
    requires i < |paths|
  {
    match HeaderAt(files, paths[i])
    case Unreadable => -4
    case Malformed => -4
    case Valid(h) =>
      if h.partIndex != i + 1 || h.totalParts != |paths| then -5
      else if h.uuid != first.uuid then -6
      else 0
  }

  function FirstComplaint(files: FileMap, paths: seq<Path>, first: Header, i: nat): int
    requires i <= |paths|
    decreases |paths| - i
  {
    if i == |paths| then 0
    else if PartComplaint(files, paths, first, i) != 0 then PartComplaint(files, paths, first, i)
    else FirstComplaint(files, paths, first, i + 1)
  }

  /** The 64-bit sum of the slice sizes the first n headers announce. */
  function SizeSum(files: FileMap, paths: seq<Path>, n: nat): nat
    requires n <= |paths|
  {
    if n == 0 then 0
    else
      var h := HeaderAt(files, paths[n - 1]);
      (SizeSum(files, paths, n - 1) + if h.Valid? then h.header.partDataSize else 0) % TWO_POW_64
  }

  /** Everything that is refused before the output is touched; 0 when nothing is. */
  function Precheck(files: FileMap, paths: seq<Path>): int {
    if paths == [] then -1
    else match HeaderAt(files, paths[0])
      case Unreadable => -2
      case Malformed => -2
      case Valid(first) =>
        if first.totalParts != |paths| then -3
        else if FirstComplaint(files, paths, first, 1) != 0 then FirstComplaint(files, paths, first, 1)
        else
          var sum := SizeSum(files, paths, |paths|);
          if first.totalPkgSize > 0 && sum != 0 && sum != first.totalPkgSize then -18 else 0
  }

  /** The result of an undisturbed run. */
  function Rebuilt(files: FileMap, paths: seq<Path>, codec: Codec): Outcome {
    if Precheck(files, paths) != 0 then Failed(Precheck(files, paths))
    else
      var first := HeaderAt(files, paths[0]).header;
      if NeedsChunks(first) && ChunkSize(first) > MAX_CHUNKED then Failed(-8)
      else
        var all := Payloads(files, paths, |paths|, BuffersFor(first), codec);
        if all.Failed? then all
        else if first.totalPkgSize > 0 && |all.data| != first.totalPkgSize then Failed(-18)
        else all
  }

  // --- the run itself ---

  /** A disturbance the program cannot foresee: cancellation, a full disk, no memory. */
  method Disturbed(faultFree: bool) returns (b: bool)
    ensures faultFree ==> !b
  {
    b := *;
    if faultFree {
      b := false;
    }
  }

  class Disk {
    var files: FileMap

    /** Only the named file may differ from before. */
    static ghost predicate Others(now: FileMap, before: FileMap, out: Path) {
      forall p: Path :: p != out ==> (p in now <==> p in before) && (p in now ==> now[p] == before[p])
    }

    method Write(out: Path, data: Octets, faultFree: bool) returns (ok: bool)
      requires out in files
      modifies this
      ensures out in files && Others(files, old(files), out)
      ensures ok ==> files[out] == old(files)[out] + data
      ensures faultFree ==> ok
    {
      var failed := Disturbed(faultFree);
      ok := !failed;
      if ok {
        files := files[out := files[out] + data];
      }
    }

    /** A raw slice, one buffer at a time. */
    method CopyRaw(file: Octets, start: nat, size: nat, buffer: nat, out: Path, faultFree: bool)
      returns (err: int)
      requires out in files && buffer > 0
      modifies this
      ensures out in files && Others(files, old(files), out)
      ensures err == 0 ==> size == 0 || start + size <= |file|
      ensures err == 0 ==>
        files[out] == old(files)[out] + if size == 0 then [] else file[start..start + size]
      ensures faultFree && err != 0 ==> err == -13 && size > 0 && start + size > |file|
    {
      var done := 0;
      err := 0;
      while done < size
        invariant done <= size && out in files && Others(files, old(files), out)
        invariant done > 0 ==> start + done <= |file|
        invariant files[out] == old(files)[out] + if done == 0 then [] else file[start..start + done]
      {
        var canceled := Disturbed(faultFree);
        if canceled {
          return -99;
        }
        var chunk := ReadAt(file, start + done, Min(buffer, size - done));
        if chunk == [] {
          return -13;
        }
        var ok := Write(out, chunk, faultFree);
        if !ok {
          return -14;
        }
        done := done + |chunk|;
      }
    }

    method CopyChunks(file: Octets, start: nat, h: Header, bufs: Buffers, codec: Codec, out: Path, faultFree: bool)
      returns (err: int)
      requires out in files
      modifies this
      ensures out in files && Others(files, old(files), out)
      ensures var all := ChunksFrom(file, start, h.numChunks, h.compression, bufs, codec);
        && (err == 0 ==> all.Done? && files[out] == old(files)[out] + all.data)
        && (faultFree && err != 0 ==> all == Failed(err))
    {
      hide ChunkAt, ChunksFrom;
      NoChunks(file, start, h.compression, bufs, codec);
      ghost var all := ChunksFrom(file, start, h.numChunks, h.compression, bufs, codec);
      var c, pos := 0, start;
      ghost var before: Octets := [];
      err := 0;
      while c < h.numChunks
        invariant c <= h.numChunks && out in files && Others(files, old(files), out)
        invariant files[out] == old(files)[out] + before
        invariant all == Append(Done(before),
                                ChunksFrom(file, pos, h.numChunks - c, h.compression, bufs, codec))
      {
        var canceled := Disturbed(faultFree);
        if canceled {
          return -99;
        }
        match ChunkAt(file, pos, h.compression, bufs, codec)
        case BadChunk(code) =>
          ChunkCodes(file, pos, h.compression, bufs, codec);
          NextChunk(file, pos, h.numChunks - c, h.compression, bufs, codec);
          return code;
        case Chunk(data, next) =>
          var ok := Write(out, data, faultFree);
          if !ok {
            return if h.compression == COMPRESSION_NONE then -14 else -17;
          }
          NextChunk(file, pos, h.numChunks - c, h.compression, bufs, codec);
          AppendMore(before, data, ChunksFrom(file, next, h.numChunks - c - 1, h.compression, bufs, codec));
          pos := next;
          before := before + data;
          c := c + 1;
      }
      NoChunks(file, pos, h.compression, bufs, codec);
    }

    method CopyPart(file: Octets, bufs: Buffers, codec: Codec, out: Path, faultFree: bool) returns (err: int)
      requires out in files && bufs.uncompressed > 0
      modifies this
      ensures out in files && Others(files, old(files), out)
      ensures var p := PartPayload(file, bufs, codec);
        && (err == 0 ==> p.Done? && files[out] == old(files)[out] + p.data)
        && (faultFree && err != 0 ==> p == Failed(err))
    {
      hide Unpack, ChunksFrom;
      if |file| < HEADER_SIZE {
        return -10;
      }
      var h := Unpack(file);
      if IconTooLarge(h) {
        return -10;
      }
      if h.numChunks == 0 && h.compression == COMPRESSION_NONE {
        err := CopyRaw(file, PayloadStart(h), h.partDataSize, bufs.uncompressed, out, faultFree);
      } else {
        err := CopyChunks(file, PayloadStart(h), h, bufs, codec, out, faultFree);
      }
    }

    method Validate(paths: seq<Path>) returns (code: int)
      ensures code == Precheck(files, paths)
      ensures code == 0 ==> paths != [] && HeaderAt(files, paths[0]).Valid?
    {
      hide ReadHeader;
      if paths == [] {
        return -1;
      }
      var r := HeaderAt(files, paths[0]);
      if !r.Valid? {
        return -2;
      }
      var first := r.header;
      if first.totalParts != |paths| {
        return -3;
      }
      var sum, i := first.partDataSize % TWO_POW_64, 1;
      while i < |paths|
        invariant 1 <= i <= |paths|
        invariant FirstComplaint(files, paths, first, 1) == FirstComplaint(files, paths, first, i)
        invariant sum == SizeSum(files, paths, i)
      {
        var complaint := PartComplaint(files, paths, first, i);
        if complaint != 0 {
          return complaint;
        }
        sum := (sum + HeaderAt(files, paths[i]).header.partDataSize) % TWO_POW_64;
        i := i + 1;
      }
      code := if first.totalPkgSize > 0 && sum != 0 && sum != first.totalPkgSize then -18 else 0;
    }

    /** multipart_decompress_to_pkg. Once created, the output survives exactly when the result is 0;
        it then holds exactly the payloads of the slices in order. No other file is ever changed. */
    method Rebuild(paths: seq<Path>, out: Path, codec: Codec, faultFree: bool)
      returns (code: int, created: bool)
      modifies this
      ensures Others(files, old(files), out)
      ensures !created ==> code != 0 && files == old(files)
      ensures created ==> (code == 0 <==> out in files)
      ensures out !in paths && code == 0 ==> Rebuilt(old(files), paths, codec) == Done(files[out])
      ensures out !in paths && faultFree && code != 0 ==> Rebuilt(old(files), paths, codec) == Failed(code)
    {
      hide ReadHeader, Precheck, Payloads, BuffersFor, ChunkSize;
      created := false;
      code := Validate(paths);
      if code != 0 {
        return;
      }
      var first := HeaderAt(files, paths[0]).header;
      var noOutput := Disturbed(faultFree);
      if noOutput {
        return -7, false;
      }
      created := true;
      files := files[out := []];
      var noMemory := Disturbed(faultFree);
      if noMemory || (NeedsChunks(first) && ChunkSize(first) > MAX_CHUNKED) {
        files := files - {out};
        return -8, true;
      }
      if out !in paths {
        SamePayloads(old(files), files, paths, |paths|, BuffersFor(first), codec);
      }
      var err := CopyAll(paths, out, BuffersFor(first), codec, faultFree);
      if err != 0 {
        files := files - {out};
        return err, true;
      }
      if first.totalPkgSize > 0 && |files[out]| != first.totalPkgSize {
        files := files - {out};
        return -18, true;
      }
      code := 0;
    }

    /** All slices, one after the other. */
    method CopyAll(paths: seq<Path>, out: Path, bufs: Buffers, codec: Codec, faultFree: bool) returns (err: int)
      requires out in files && files[out] == [] && bufs.uncompressed > 0
      modifies this
      ensures out in files && Others(files, old(files), out)
      ensures out !in paths ==>
        var all := Payloads(old(files), paths, |paths|, bufs, codec);
        (err == 0 ==> all == Done(files[out])) && (err != 0 && faultFree ==> all == Failed(err))
    {
      hide PartPayload;
      err := 0;
      var p := 0;
      while p < |paths| && err == 0
        invariant p <= |paths| && out in files && Others(files, old(files), out)
        invariant err == 0 && out !in paths ==>
          Payloads(old(files), paths, p, bufs, codec) == Done(files[out])
        invariant err != 0 && out !in paths && faultFree ==>
          p < |paths| && Payloads(old(files), paths, p + 1, bufs, codec) == Failed(err)
        decreases |paths| - p, if err == 0 then 1 else 0
      {
        var canceled := Disturbed(faultFree);
        if canceled {
          err := -99;
        } else if paths[p] !in files {
          err := -9;
        } else {
          err := CopyPart(files[paths[p]], bufs, codec, out, faultFree);
          if err == 0 {
            p := p + 1;
          }
        }
      }
      if err != 0 {
        if out !in paths && faultFree {
          FailureStays(old(files), paths, p + 1, bufs, codec);
        }
      }
    }
  }

  lemma {:induction false} SamePayloads(a: FileMap, b: FileMap, paths: seq<Path>, n: nat, bufs: Buffers, codec: Codec)
    requires n <= |paths| && forall p :: p in paths ==> (p in a <==> p in b) && (p in a ==> a[p] == b[p])
    ensures Payloads(a, paths, n, bufs, codec) == Payloads(b, paths, n, bufs, codec)
  {
    hide PartPayload;
    if n > 0 {
      SamePayloads(a, b, paths, n - 1, bufs, codec);
    }
  }

  lemma NoChunks(file: Octets, pos: nat, compression: nat, bufs: Buffers, codec: Codec)
    ensures ChunksFrom(file, pos, 0, compression, bufs, codec) == Done([])
    ensures forall o: Outcome :: Append(Done([]), o) == o
  {
    assert forall o: Outcome :: o.Done? ==> [] + o.data == o.data;
  }

  lemma NextChunk(file: Octets, pos: nat, n: nat, compression: nat, bufs: Buffers, codec: Codec)
    requires n > 0
    ensures ChunksFrom(file, pos, n, compression, bufs, codec) ==
      match ChunkAt(file, pos, compression, bufs, codec)
      case BadChunk(code) => Failed(code)
      case Chunk(data, next) => Append(Done(data), ChunksFrom(file, next, n - 1, compression, bufs, codec))
  {
    hide ChunkAt;
  }

  lemma AppendMore(a: Octets, b: Octets, o: Outcome)
    ensures Append(Done(a), Append(Done(b), o)) == Append(Done(a + b), o)
  {
  }

  lemma ChunkCodes(file: Octets, pos: nat, compression: nat, bufs: Buffers, codec: Codec)
    ensures var c := ChunkAt(file, pos, compression, bufs, codec); c.BadChunk? ==> c.code != 0
  {
  }

  lemma {:induction false} FailureStays(files: FileMap, paths: seq<Path>, n: nat, bufs: Buffers, codec: Codec)
    requires n <= |paths| && Payloads(files, paths, n, bufs, codec).Failed?
    ensures Payloads(files, paths, |paths|, bufs, codec) == Payloads(files, paths, n, bufs, codec)
    decreases |paths| - n
  {
    if n < |paths| {
      FailureStays(files, paths, n + 1, bufs, codec);
    }
  }
}
