/** Random access to a multi-part package while its discs are swapped. */
module VirtualStream {
  import opened Bytes
  import opened PartHeader
  import opened StreamMap
  import opened Wrappers

  type Path = string

  // What the stream keeps about one part. An absent path means the part is not resolved yet;
  // an open file is represented by its contents, since discs are read-only.
  datatype Slot = Slot(path: Option<Path>, start: nat, size: nat, dataOffset: nat, fd: Option<Octets>)

  function RangeOf(s: Slot): Range {
    Range(s.path.Some?, s.start, s.size)
  }

  function RangesOf(slots: seq<Slot>): (rs: seq<Range>)
    ensures |rs| == |slots|
  {
    seq(|slots|, k requires 0 <= k < |slots| => RangeOf(slots[k]))
  }

  /** Where a part's payload starts in its file. */
  function DataStart(h: Header): nat {
    if h.dataOffset != 0 then h.dataOffset
    else HEADER_SIZE +
         if h.partIndex == 1 && h.iconSize > 0 && h.iconOffset == HEADER_SIZE then h.iconSize else 0
  }

  predicate Matches(file: Octets, uuid: Octets, part: nat) {
    var r := ReadHeader(file);
    r.Valid? && r.header.uuid == uuid && r.header.partIndex == part
  }

  /** Part of the package that this file holds. */
  ghost predicate Holds(t: Truth, package: Octets) {
    && t.start + t.size <= |package| < TWO_POW_64
    && t.dataOffset + t.size <= |t.file|
    && t.file[t.dataOffset..t.dataOffset + t.size] == package[t.start..t.start + t.size]
  }

  /** The file's own header says where its payload belongs, in the place of part k. */
  ghost predicate Labelled(t: Truth, k: nat) {
    && ReadHeader(t.file).Valid?
    && var h := ReadHeader(t.file).header;
       && h.partDataSize == t.size && DataStart(h) == t.dataOffset
       && h.partOffset == t.start && (k == 0 <==> t.start == 0)
  }

  lemma LabelValid(t: Truth, k: nat)
    requires Labelled(t, k)
    ensures ReadHeader(t.file).Valid?
    ensures var h := ReadHeader(t.file).header;
      && h.partDataSize == t.size && DataStart(h) == t.dataOffset
      && h.partOffset == t.start && (k == 0 <==> t.start == 0)
  {
    hide ReadHeader, DataStart;
  }

  /** The discs and drives: every file that may ever be inserted, and which are readable now. */
  class Media {
    const library: map<Path, Octets>
    const staged: nat -> Path     // where a staged copy of a part would lie
    const reliable: bool          // the user brings every disc asked for, if it exists
    var mounted: set<Path>
    ghost var prompts: seq<nat>

    constructor (library: map<Path, Octets>, staged: nat -> Path, reliable: bool, mounted: set<Path>)
      requires mounted <= library.Keys
      ensures this.library == library && this.staged == staged && this.reliable == reliable
      ensures this.mounted == mounted && prompts == [] && Valid()
    {
      this.library, this.staged, this.reliable := library, staged, reliable;
      this.mounted := mounted;
      prompts := [];
    }

    ghost predicate Valid()
      reads this
    {
      mounted <= library.Keys
    }

    /** Files carrying a package's identifier are its parts. */
    ghost predicate Faithful(uuid: Octets, truths: seq<Truth>) {
      forall p, k: nat :: p in library && Matches(library[p], uuid, k) ==>
        1 <= k <= |truths| && library[p] == truths[k - 1].file
    }

    /** The file at path is package as a whole, or one part of it and the other parts are as given:
        what a caller who opens it relies on. A staged copy counts as the part it is named for, whatever package it
        was split from. */
    ghost predicate Presents(path: Path, package: Octets, truths: seq<Truth>)
      requires path in library
    {
      match ReadHeader(library[path])
      case Valid(h) =>
        && |truths| == h.totalParts && |package| == h.totalPkgSize
        && Faithful(h.uuid, truths)
        && (forall k :: 0 <= k < |truths| ==> Holds(truths[k], package) && Labelled(truths[k], k))
        && (forall k {:trigger staged(k)} :: 1 <= k <= |truths| && staged(k) in library ==>
              library[staged(k)] == truths[k - 1].file)
      case _ =>
        && package == library[path] && |package| < TWO_POW_64
        && truths == [Truth(package, 0, |package|, 0)]
        && Faithful(Zeros(16), truths)
    }

    /** Only this file is readable, and it is no staged copy. */
    ghost predicate Alone(path: Path)
      reads this
    {
      mounted == {path} && forall k {:trigger staged(k)} :: staged(k) != path
    }

    ghost predicate CanFind(uuid: Octets, part: nat)
      requires Valid()
      reads this
    {
      exists p :: p in mounted && Matches(library[p], uuid, part)
    }

    method OpenFile(path: Path) returns (fd: Option<Octets>)
      requires Valid()
      ensures fd == if path in mounted then Some(library[path]) else None
    {
      fd := if path in mounted then Some(library[path]) else None;
    }

    /** pread: any non-empty prefix of what is left, nothing at the end of the file, or an error. */
    method Pread(fd: Octets, offset: nat, n: nat) returns (r: Option<Octets>)
      ensures r.Some? ==> r.value <= ReadAt(fd, offset, n)
      ensures r.Some? && r.value == [] ==> ReadAt(fd, offset, n) == []
      ensures reliable ==> r.Some?
    {
      var all := ReadAt(fd, offset, n);
      var failed := *;
      if failed && !reliable {
        return None;
      }
      var got: nat := if all == [] then 0 else 1;
      var more: nat := *;
      if got <= more <= |all| {
        got := more;
      }
      r := Some(all[..got]);
    }

    /** Looks among the readable files for a part of the package, by its identifier. */
    method Search(uuid: Octets, part: nat) returns (found: Option<Path>)
      requires Valid()
      ensures found.Some? ==> found.value in mounted && Matches(library[found.value], uuid, part)
    {
      var hits := set p | p in mounted && Matches(library[p], uuid, part);
      found := None;
      if hits != {} {
        var give := *;
        if give {
          var p :| p in hits;
          found := Some(p);
        }
      }
    }

    /** Asks for a part and blocks. Discs come and go meanwhile; the part is found, or the wait fails. */
    method WaitForPart(uuid: Octets, part: nat) returns (found: Option<Path>)
      requires Valid()
      modifies this
      ensures Valid() && prompts == old(prompts) + [part]
      ensures found.Some? ==> found.value in mounted && Matches(library[found.value], uuid, part)
      ensures reliable && (exists p :: p in library && Matches(library[p], uuid, part)) ==> found.Some?
    {
      hide Matches;
      prompts := prompts + [part];
      var hits := set p | p in library && Matches(library[p], uuid, part);
      var inserted: set<Path> := *;
      mounted := inserted * library.Keys;
      found := None;
      assert forall p :: p in library && Matches(library[p], uuid, part) ==> p in hits;
      var give := *;
      if hits != {} && (reliable || give) {
        var p :| p in hits;
        mounted := mounted + {p};
        found := Some(p);
      }
    }
  }

  class VirtualStream {
    var multipart: bool
    var currentPart: nat
    var totalSize: nat
    var uuid: Octets
    var slots: seq<Slot>
    const media: Media
    const hasWaiter: bool

    // The package this stream is of, and its parts; no program variable knows them.
    ghost var package: Octets
    ghost var truths: seq<Truth>

    constructor (media: Media, hasWaiter: bool)
      ensures this.media == media && this.hasWaiter == hasWaiter
    {
      this.media, this.hasWaiter := media, hasWaiter;
      multipart, currentPart, totalSize, uuid, slots := false, 0, 0, [], [];
      package, truths := [], [];
    }

    /** A slot with a path says exactly what is true of its part, and so does its open file. */
    ghost predicate SlotTrue(s: Slot, t: Truth)
    {
      && (s.path.Some? ==>
            && s.path.value in media.library && media.library[s.path.value] == t.file
            && s.start == t.start && s.size == t.size && s.dataOffset == t.dataOffset)
      && (s.fd.Some? ==> s.path.Some? && s.fd.value == t.file)
    }

    /** Files carrying this package's identifier are its parts. */
    ghost predicate Faithful()
      reads this`uuid, this`truths
    {
      media.Faithful(uuid, truths)
    }

    ghost predicate Valid()
      reads this`slots, this`truths, this`uuid, this`totalSize, this`package, this`multipart, media
    {
      && media.Valid()
      && |slots| == |truths| && totalSize == |package|
      && (|slots| > 0 ==> slots[0].start == 0)
      && (forall k :: 0 <= k < |slots| ==> Holds(truths[k], package))
      && (forall k :: 0 <= k < |slots| ==> SlotTrue(slots[k], truths[k]))
      && (if multipart then forall k :: 0 <= k < |slots| ==> Labelled(truths[k], k)
          else |truths| == 1 && !ReadHeader(truths[0].file).Valid?)
      && Faithful()
    }

    ghost predicate Exists(part: nat)
      reads this`uuid
    {
      exists p :: p in media.library && Matches(media.library[p], uuid, part)
    }

    /** Every part exists somewhere, and every disc asked for is brought. */
    ghost predicate Attended()
      reads this`uuid, this`truths
    {
      && media.reliable && hasWaiter
      && forall part :: 1 <= part <= |truths| ==> Exists(part)
    }

    /** The file given is the part it says it is, and a staged copy is taken where the search cannot find a part. */
    ghost predicate Located(p: nat, h: Header, path: Path, found: Option<Path>)
      requires media.Valid()
      reads media
    {
      && (p == h.partIndex ==> found == Some(path))
      && (p != h.partIndex && !media.CanFind(h.uuid, p) && media.staged(p) in media.mounted ==>
            found == Some(media.staged(p)))
    }

    /** Where part p (from 1) is at open time: the file given, a readable file of the package, a staged copy. */
    method Locate(p: nat, h: Header, path: Path, ghost package: Octets, ghost truths: seq<Truth>)
      returns (found: Option<Path>)
      requires media.Valid() && path in media.mounted && ReadHeader(media.library[path]) == HeaderResult.Valid(h)
      requires media.Presents(path, package, truths) && 1 <= p <= h.totalParts
      ensures found.Some? ==> found.value in media.mounted && media.library[found.value] == truths[p - 1].file
      ensures media.Alone(path) ==> found == if p == h.partIndex then Some(path) else None
      ensures Located(p, h, path, found)
    {
      hide Holds, Labelled, ReadHeader;
      assert Matches(media.library[path], h.uuid, h.partIndex);
      if p == h.partIndex {
        return Some(path);
      }
      found := media.Search(h.uuid, p);
      if found.None? && media.staged(p) in media.mounted {
        found := Some(media.staged(p));
      }
    }

    /** The slot of part p, from its header or guessed from the part before it. */
    method FillSlot(p: nat, h: Header, found: Option<Path>, prev: seq<Slot>) returns (s: Option<Slot>)
      requires media.Valid() && |prev| == p - 1
      requires found.Some? ==> found.value in media.mounted
      ensures found.Some? ==> (s.None? <==> !ReadHeader(media.library[found.value]).Valid?)
      ensures found.Some? && s.Some? ==>
        var ph := ReadHeader(media.library[found.value]).header;
        s.value == Slot(found, if p == 1 then 0 else if ph.partOffset > 0 then ph.partOffset else Next(prev),
                        ph.partDataSize, DataStart(ph), None)
      ensures found.None? ==>
        var start := if p > 1 then Next(prev) else 0;
        s == Some(Slot(None, start, if p == h.totalParts then (h.totalPkgSize - start) % TWO_POW_64
                                    else h.partDataSize, HEADER_SIZE, None))
    {
      hide ReadHeader, DataStart;
      match found
      case None =>
        var start := if p > 1 then Next(prev) else 0;
        var size := if p == h.totalParts then (h.totalPkgSize - start) % TWO_POW_64 else h.partDataSize;
        s := Some(Slot(None, start, size, HEADER_SIZE, None));
      case Some(path) =>
        var r := ReadHeader(media.library[path]);
        if !r.Valid? {
          return None;
        }
        var start := if p == 1 then 0 else if r.header.partOffset > 0 then r.header.partOffset else Next(prev);
        s := Some(Slot(found, start, r.header.partDataSize, DataStart(r.header), None));
    }

    // The 64-bit sum that follows the last slot.
    static function Next(prev: seq<Slot>): nat {
      if prev == [] then 0 else (prev[|prev| - 1].start + prev[|prev| - 1].size) % TWO_POW_64
    }

    /** A slot filled from a genuine file is true, and one filled without a file claims nothing. */
    lemma FilledIsTrue(p: nat, h: Header, found: Option<Path>, prev: seq<Slot>, s: Slot, t: Truth)
      requires media.Valid() && |prev| == p - 1
      requires Labelled(t, p - 1)
      requires found.Some? ==> found.value in media.library && media.library[found.value] == t.file
      requires found.Some? ==>
        var ph := ReadHeader(t.file).header;
        s == Slot(found, if p == 1 then 0 else if ph.partOffset > 0 then ph.partOffset else Next(prev),
                  ph.partDataSize, DataStart(ph), None)
      requires found.None? ==> s.path.None? && s.fd.None?
      ensures SlotTrue(s, t)
    {
      hide ReadHeader, DataStart;
    }

    /** virtual_stream_open on a local path. A part that is nowhere to be found is guessed. */
    method Open(path: Path, ghost package: Octets, ghost truths: seq<Truth>) returns (code: int)
      requires media.Valid()
      requires path in media.mounted ==> media.Presents(path, package, truths)
      modifies this
      ensures code == 0 ==> Valid() && this.package == package && this.truths == truths
      ensures code == 0 ==> path in media.mounted
      ensures path in media.mounted ==>
        (code != 0 <==> ReadHeader(media.library[path]).Valid? && |truths| > MAX_PARTS)
      ensures code == 0 && ReadHeader(media.library[path]).Valid? ==>
        var h := ReadHeader(media.library[path]).header;
        uuid == h.uuid && forall k :: 0 <= k < |slots| ==> Located(k + 1, h, path, slots[k].path)
      ensures code == 0 && media.Alone(path) && Matches(media.library[path], uuid, 1) ==>
        && slots[0].path == Some(path)
        && forall k :: 0 <= k < |slots| ==>
             RangeOf(slots[k]) == Guessed(truths[0].size, |package|, |slots|, k)
    {
      hide Holds, Labelled, ReadHeader, SlotTrue, Guessed, Matches, Valid, Located;
      if path !in media.mounted {
        return -1;
      }
      var r := ReadHeader(media.library[path]);
      this.package, this.truths := package, truths;
      MatchesFirst(path);
      if !r.Valid? {
        OpenWhole(path);
        return 0;
      }
      code := OpenParts(path, r.header, package, truths);
    }

    /** A package that is a single file. */
    method OpenWhole(path: Path)
      requires media.Valid() && path in media.mounted && media.Presents(path, package, truths)
      requires !ReadHeader(media.library[path]).Valid?
      modifies this`slots, this`multipart, this`currentPart, this`totalSize, this`uuid
      ensures Valid()
    {
      hide ReadHeader;
      var size := |media.library[path]|;
      multipart, currentPart, totalSize, uuid := false, 1, size, Zeros(16);
      slots := [Slot(Some(path), 0, size, 0, None)];
    }

    lemma MatchesFirst(path: Path)
      requires path in media.library
      ensures var r := ReadHeader(media.library[path]);
        forall u :: Matches(media.library[path], u, 1) ==> r.Valid? && r.header.partIndex == 1
    {
      hide ReadHeader;
    }

    lemma FirstHeader(path: Path, h: Header, package: Octets, truths: seq<Truth>)
      requires media.Valid() && path in media.mounted && media.Presents(path, package, truths)
      requires ReadHeader(media.library[path]) == HeaderResult.Valid(h)
      ensures 1 <= h.partIndex <= h.totalParts == |truths|
      ensures h.partIndex == 1 ==> h.partDataSize == truths[0].size
    {
      hide Holds, Unpack;
      assert Matches(media.library[path], h.uuid, h.partIndex);
      LabelValid(truths[0], 0);
    }

    /** The first slots, true or claiming nothing; guessed ones if only the file that was opened is at hand. */
    ghost predicate Filled(filled: seq<Slot>, path: Path, h: Header)
      requires media.Valid()
      reads this`package, this`truths, media
    {
      && |filled| <= |truths| == h.totalParts
      && (forall k :: 0 <= k < |filled| ==> Located(k + 1, h, path, filled[k].path))
      && (forall k :: 0 <= k < |filled| ==> SlotTrue(filled[k], truths[k]))
      && (filled != [] ==> filled[0].start == 0)
      && (media.Alone(path) && h.partIndex == 1 ==>
            && (filled != [] ==> filled[0].path == Some(path))
            && forall k :: 0 <= k < |filled| ==>
                 RangeOf(filled[k]) == Guessed(truths[0].size, |package|, h.totalParts, k))
    }

    lemma FilledNone(path: Path, h: Header)
      requires media.Valid() && |truths| == h.totalParts
      ensures Filled([], path, h)
    {
    }

    lemma FilledMore(p: nat, found: Option<Path>, filled: seq<Slot>, s: Slot, path: Path, h: Header)
      requires media.Valid() && path in media.mounted && media.Presents(path, package, truths)
      requires Filled(filled, path, h) && 1 <= p == |filled| + 1 <= h.totalParts && SlotTrue(s, truths[p - 1])
      requires Located(p, h, path, found)
      requires ReadHeader(media.library[path]) == HeaderResult.Valid(h)
      requires media.Alone(path) ==> found == if p == h.partIndex then Some(path) else None
      requires found.Some? ==> s.path == found && (p == 1 ==> s.start == 0) && s.size == truths[p - 1].size
      requires found.None? ==>
        var start := if p > 1 then Next(filled) else 0;
        s == Slot(None, start, if p == h.totalParts then (h.totalPkgSize - start) % TWO_POW_64 else h.partDataSize,
                  HEADER_SIZE, None)
      ensures Filled(filled + [s], path, h)
    {
      hide Holds, Labelled, ReadHeader, SlotTrue, HEADER_SIZE, Located;
      FirstHeader(path, h, package, truths);
    }

    method FillSlots(path: Path, h: Header) returns (filled: seq<Slot>)
      requires media.Valid() && path in media.mounted && media.Presents(path, package, truths)
      requires ReadHeader(media.library[path]) == HeaderResult.Valid(h)
      ensures |filled| == h.totalParts && Filled(filled, path, h)
    {
      hide Holds, Labelled, ReadHeader, SlotTrue, Filled, Guessed, Located;
      FirstHeader(path, h, package, truths);
      FilledNone(path, h);
      filled := [];
      var p := 1;
      while p <= h.totalParts
        invariant 1 <= p == |filled| + 1 <= h.totalParts + 1 && Filled(filled, path, h)
      {
        var found := Locate(p, h, path, package, truths);
        var s := FillSlot(p, h, found, filled);
        assert Labelled(truths[p - 1], p - 1);
        LabelValid(truths[p - 1], p - 1);
        FilledIsTrue(p, h, found, filled, s.value, truths[p - 1]);
        FilledMore(p, found, filled, s.value, path, h);
        filled := filled + [s.value];
        p := p + 1;
      }
    }

    method OpenParts(path: Path, h: Header, ghost package: Octets, ghost truths: seq<Truth>) returns (code: int)
      requires media.Valid() && path in media.mounted && media.Presents(path, package, truths)
      requires ReadHeader(media.library[path]) == HeaderResult.Valid(h)
      requires this.package == package && this.truths == truths
      modifies this`slots, this`multipart, this`currentPart, this`totalSize, this`uuid
      ensures code == 0 ==> Valid() && uuid == h.uuid
      ensures code != 0 <==> |truths| > MAX_PARTS
      ensures code == 0 ==> forall k :: 0 <= k < |slots| ==> Located(k + 1, h, path, slots[k].path)
      ensures code == 0 && media.Alone(path) && h.partIndex == 1 ==>
        && slots[0].path == Some(path)
        && forall k :: 0 <= k < |slots| ==>
             RangeOf(slots[k]) == Guessed(truths[0].size, |package|, |slots|, k)
    {
      hide Holds, Labelled, ReadHeader, SlotTrue, Guessed, Located;
      FirstHeader(path, h, package, truths);
      multipart, currentPart, totalSize, uuid := true, 1, h.totalPkgSize, h.uuid;
      if h.totalParts == 0 || h.totalParts > MAX_PARTS {
        return -2;
      }
      slots := FillSlots(path, h);
      code := 0;
    }

    /** The lookup loop of one pass. */
    method FindPart(o: nat) returns (k: nat)
      ensures k == FirstCover(RangesOf(slots), o, 0)
    {
      k := 0;
      while k < |slots| && !Covers(RangeOf(slots[k]), o)
        invariant k <= |slots|
        invariant FirstCover(RangesOf(slots), o, 0) == FirstCover(RangesOf(slots), o, k)
      {
        k := k + 1;
      }
    }

    lemma FoundIsGenuine(p: Path, k: nat)
      requires Valid() && k < |slots|
      requires p in media.library && Matches(media.library[p], uuid, k + 1)
      ensures multipart && media.library[p] == truths[k].file
      ensures ReadHeader(truths[k].file).Valid?
      ensures var h := ReadHeader(truths[k].file).header;
        && h.partDataSize == truths[k].size && DataStart(h) == truths[k].dataOffset
        && h.partOffset == truths[k].start && (k == 0 <==> truths[k].start == 0)
    {
      hide ReadHeader, DataStart, Holds, SlotTrue;
    }

    method CloseOthers(k: nat)
      requires k < |slots|
      modifies this`slots
      ensures |slots| == |old(slots)|
      ensures forall m :: 0 <= m < |slots| ==>
        slots[m] == if m != k then old(slots)[m].(fd := None) else old(slots)[m]
    {
      var i := 0;
      while i < |slots|
        invariant i <= |slots| == |old(slots)|
        invariant forall m :: 0 <= m < |slots| ==>
          slots[m] == if m < i && m != k then old(slots)[m].(fd := None) else old(slots)[m]
      {
        if i != k && slots[i].fd.Some? {
          slots := slots[i := slots[i].(fd := None)];
        }
        i := i + 1;
      }
    }

    /** Waits for part k, closes every other file and takes the part's data from its own header. */
    method ResolveByWaiting(k: nat) returns (ok: bool)
      requires Valid() && k < |slots| && slots[k].fd.None?
      modifies this`slots, media
      ensures Valid() && |slots| == |old(slots)|
      ensures media.prompts == old(media.prompts) + [k + 1]
      ensures Attended() ==> ok
      ensures ok ==> RangesOf(slots) == Learn(RangesOf(old(slots)), truths, k) && slots[k].fd.Some?
    {
      hide Matches, Holds, Labelled, ReadHeader, DataStart;
      var found := media.WaitForPart(uuid, k + 1);
      assert old(Attended()) ==> Exists(k + 1);
      if found.None? {
        return false;
      }
      var path := found.value;
      FoundIsGenuine(path, k);
      CloseOthers(k);
      var file := media.OpenFile(path);
      var r := ReadHeader(file.value);
      if !r.Valid? {
        return false;
      }
      var h := r.header;
      slots := slots[k := Slot(Some(path), if h.partOffset > 0 then h.partOffset else slots[k].start,
                               h.partDataSize, DataStart(h), file)];
      ok := true;
    }

    /** One more read continues the bytes read so far. */
    static lemma ReadOn(fd: Octets, offset: nat, data: Octets, more: Octets, n: nat)
      requires more <= ReadAt(fd, offset + |data|, n) && more != []
      requires data != [] ==> offset + |data| <= |fd| && data == fd[offset..offset + |data|]
      ensures offset + |data| + |more| <= |fd| && |more| <= n
      ensures data + more == fd[offset..offset + |data| + |more|]
    {
      var at := offset + |data|;
      assert more == ReadAt(fd, at, n)[..|more|] == fd[at..at + |more|];
      assert fd[offset..at] + fd[at..at + |more|] == fd[offset..at + |more|];
    }

    /** pread until the chunk is complete; a file that ends early is an error. */
    method Transfer(fd: Octets, offset: nat, chunk: nat) returns (done: Option<Octets>)
      requires chunk > 0
      ensures done.Some? ==> offset + chunk <= |fd| && done.value == fd[offset..offset + chunk]
      ensures media.reliable && offset + chunk <= |fd| ==> done.Some?
    {
      var data: Octets := [];
      while |data| < chunk
        invariant |data| <= chunk
        invariant data != [] ==> offset + |data| <= |fd| && data == fd[offset..offset + |data|]
      {
        var r := media.Pread(fd, offset + |data|, chunk - |data|);
        if r.None? || r.value == [] {
          return None;
        }
        ReadOn(fd, offset, data, r.value, chunk - |data|);
        data := data + r.value;
      }
      done := Some(data);
    }

    /** The part's file is open, or its disc is in. */
    ghost predicate InReach(k: nat)
      reads this`slots, media
    {
      k < |slots| && (slots[k].fd.Some? || (slots[k].path.Some? && slots[k].path.value in media.mounted))
    }

    /** Whether an offset can be settled without asking for a part that is known already. */
    ghost predicate Handy(s: Settled)
      reads this`slots, media
    {
      s.part < |slots| ==>
        if s.asked != [] then s.asked[|s.asked| - 1] == s.part else InReach(s.part)
    }

    /** A part asked for a second time keeps its place. */
    lemma KnownStays(k: nat)
      requires Valid() && k < |slots| && RangesOf(slots)[k].known
      ensures Learn(RangesOf(slots), truths, k) == RangesOf(slots)
    {
      hide Labelled, Holds;
    }

    /** Opens a resolved part whose disc is in. */
    method TryOpen(i: nat)
      requires Valid() && i < |slots|
      modifies this`slots
      ensures Valid() && |slots| == |old(slots)| && RangesOf(slots) == RangesOf(old(slots))
      ensures slots[i].fd.Some? <==> old(InReach(i))
      ensures slots[i].fd.Some? ==> RangesOf(slots)[i].known
    {
      hide Labelled, Holds, Matches, Faithful;
      if slots[i].path.Some? && slots[i].fd.None? {
        var fd := media.OpenFile(slots[i].path.value);
        slots := slots[i := slots[i].(fd := fd)];
      }
    }

    /** One pass: look the offset up, open the part's file if its disc is in, otherwise ask for it. */
    method Pass(o: nat) returns (v: Verdict, i: nat)
      requires Valid()
      modifies this`slots, this`currentPart, media
      ensures Valid() && |slots| == |old(slots)|
      ensures i == FirstCover(RangesOf(old(slots)), o, 0) && (v.Nowhere? <==> i == |slots|)
      ensures v.Nowhere? || v.Ready? ==>
        RangesOf(slots) == RangesOf(old(slots)) && media.prompts == old(media.prompts)
      ensures v.Ready? || v.Waited? ==> slots[i].fd.Some? && InReach(i)
      ensures v.Ready? ==> RangesOf(slots)[i].known && currentPart == i + 1
      ensures v.Waited? || v.Stuck? ==> !old(InReach(i))
      ensures v.Waited? ==> RangesOf(slots) == Learn(RangesOf(old(slots)), truths, i)
      ensures v.Waited? && RangesOf(old(slots))[i].known ==> RangesOf(slots) == RangesOf(old(slots))
      ensures v.Waited? ==> media.prompts == old(media.prompts) + [i + 1]
      ensures v.Stuck? ==> !Attended() && |media.prompts| <= |old(media.prompts)| + 1
    {
      hide Valid, RangesOf, Learn, FirstCover;
      i := FindPart(o);
      if i == |slots| {
        return Nowhere, i;
      }
      if RangesOf(slots)[i].known {
        KnownStays(i);
      }
      if currentPart != i + 1 {
        currentPart := i + 1;
      }
      TryOpen(i);
      if slots[i].fd.Some? {
        return Ready, i;
      }
      if !hasWaiter {
        return Stuck, i;
      }
      var ok := ResolveByWaiting(i);
      v := if ok then Waited else Stuck;
    }

    lemma ReachIn(k: nat)
      ensures InReach(k) ==> k < |slots|
    {
    }

    lemma SetoutHere(o: nat, s: Settled)
      requires Valid() && s == Settle(RangesOf(slots), truths, o)
      ensures UnderWay(RangesOf(slots), truths, o, s, Handy(s), InReach(FirstCover(RangesOf(slots), o, 0)),
                       media.prompts, media.prompts, [], false,
                       |media.prompts| + UnknownCount(RangesOf(slots)))
    {
      hide Holds, Labelled, SlotTrue, Faithful, UnderWay;
      Setout(RangesOf(slots), truths, o, s, Handy(s), InReach(FirstCover(RangesOf(slots), o, 0)),
             media.prompts);
    }

    /** Opens the part an offset lies in, asking for discs as long as the offset falls into a guessed
        part or one whose disc is away. -1 when there is no such part or a wait fails. */
    method Acquire(o: nat, ghost s: Settled) returns (k: int)
      requires Valid() && s == Settle(RangesOf(slots), truths, o)
      modifies this`slots, this`currentPart, media
      ensures Valid() && |slots| == |old(slots)|
      ensures -1 <= k < |slots|
      ensures k >= 0 ==> slots[k].fd.Some? && RangesOf(slots)[k].known && Covers(RangesOf(slots)[k], o)
      ensures |media.prompts| <= |old(media.prompts)| + UnknownCount(RangesOf(old(slots))) + 1
      ensures Attended() ==> RangesOf(slots) == s.ranges && k == if s.part == |slots| then -1 else s.part
      ensures Attended() && old(Handy(s)) ==> media.prompts == old(media.prompts) + Numbered(s.asked)
      ensures old(InReach(FirstCover(RangesOf(slots), o, 0))) ==>
        && k == FirstCover(RangesOf(old(slots)), o, 0)
        && RangesOf(slots) == RangesOf(old(slots)) && media.prompts == old(media.prompts)
    {
      hide *;
      ghost var near, waited := InReach(FirstCover(RangesOf(slots), o, 0)), false;
      ghost var handy, before := Handy(s), media.prompts;
      ghost var most := |media.prompts| + UnknownCount(RangesOf(slots));
      ghost var asked: seq<nat>, again := [], false;
      SetoutHere(o, s);
      while true
        invariant Valid() && |slots| == |old(slots)|
        invariant UnderWay(RangesOf(slots), truths, o, s, handy, InReach(FirstCover(RangesOf(slots), o, 0)),
                           before, media.prompts, asked, again, most)
        invariant if waited then !near else
          && near == InReach(FirstCover(RangesOf(slots), o, 0))
          && RangesOf(slots) == RangesOf(old(slots)) && media.prompts == before
        decreases UnknownCount(RangesOf(slots)), if again then 0 else 1
      {
        ghost var rs, prompts, reach := RangesOf(slots), media.prompts, InReach(FirstCover(RangesOf(slots), o, 0));
        ReachIn(FirstCover(rs, o, 0));
        var v, i := Pass(o);
        match v
        case Nowhere =>
          AtRest(rs, truths, o, s, handy, reach, before, prompts, asked, again, most);
          return -1;
        case Ready =>
          AtRest(rs, truths, o, s, handy, reach, before, prompts, asked, again, most);
          return i;
        case Stuck =>
          OutOfReach(rs, truths, o, s, handy, before, prompts, asked, again, most);
          return -1;
        case Waited =>
          AfterWait(rs, truths, o, s, handy, InReach(FirstCover(RangesOf(slots), o, 0)),
                    before, prompts, asked, again, most);
          waited := true;
          again := rs[i].known;
          asked := if rs[i].known then asked else asked + [i];
      }
    }

    lemma SameLength()
      requires Valid()
      ensures |slots| == |truths| && totalSize == |package|
    {
    }

    lemma KnownCover(k: nat, o: nat)
      requires Valid() && k < |slots| && RangesOf(slots)[k].known && Covers(RangesOf(slots)[k], o)
      ensures slots[k].start <= o < slots[k].start + slots[k].size <= |package| == totalSize
      ensures var t, at := truths[k], slots[k].dataOffset;
        && at + slots[k].size <= |t.file|
        && t.file[at..at + slots[k].size] == package[slots[k].start..slots[k].start + slots[k].size]
        && (slots[k].fd.Some? ==> slots[k].fd.value == t.file)
    {
      hide Labelled, Faithful;
    }

    /** The transfer from the open file of the part the offset lies in. */
    method Fetch(k: nat, o: nat, count: nat) returns (n: int, data: Octets)
      requires Valid() && k < |slots| && RangesOf(slots)[k].known && Covers(RangesOf(slots)[k], o)
      requires slots[k].fd.Some? && count > 0
      ensures n == -1 || n == Min(count, slots[k].start + slots[k].size - o) > 0
      ensures n > 0 ==> o + n <= |package| && data == package[o..o + n]
      ensures media.reliable ==> n > 0
    {
      hide Valid, RangesOf, Covers;
      KnownCover(k, o);
      var toRead := Min(count, totalSize - o);
      var slot := slots[k];
      var inPart := o - slot.start;
      var chunk := Min(toRead, slot.size - inPart);
      var got := Transfer(slot.fd.value, slot.dataOffset + inPart, chunk);
      if got.None? {
        return -1, [];
      }
      SameBytes(slot.fd.value, slot.dataOffset, package, slot.start, slot.size, inPart, chunk);
      n, data := chunk, got.value;
    }

    /** virtual_stream_read: a positive result is the length of data, which is exactly the package from
        the offset on; 0 means nothing was asked for or the offset is past the end; -1 is failure. */
    method Read(o: nat, count: nat) returns (n: int, data: Octets)
      requires Valid()
      modifies this`slots, this`currentPart, media
      ensures Valid() && |slots| == |old(slots)|
      ensures -1 <= n <= count && (n == 0 <==> count == 0 || o >= totalSize)
      ensures n > 0 ==> o + n <= |package| && data == package[o..o + n]
      ensures |media.prompts| <= |old(media.prompts)| + UnknownCount(RangesOf(old(slots))) + 1
      ensures Attended() && count > 0 && o < totalSize ==>
        Answered(Settle(RangesOf(old(slots)), truths, o), o, count, n)
      ensures Attended() && count > 0 && o < totalSize && old(Handy(Settle(RangesOf(slots), truths, o))) ==>
        media.prompts == old(media.prompts) + Numbered(Settle(RangesOf(old(slots)), truths, o).asked)
      ensures media.reliable && count > 0 && o < totalSize && old(InReach(FirstCover(RangesOf(slots), o, 0))) ==>
        var i := FirstCover(RangesOf(old(slots)), o, 0);
        && n == Min(count, old(slots)[i].start + old(slots)[i].size - o)
        && RangesOf(slots) == RangesOf(old(slots)) && media.prompts == old(media.prompts)
    {
      hide Valid, Settle, Handy, UnknownCount, Covers, Numbered, RangesOf;
      if count == 0 || o >= totalSize {
        return 0, [];
      }
      SameLength();
      ghost var s := Settle(RangesOf(slots), truths, o);
      var k := Acquire(o, s);
      if k < 0 {
        return -1, [];
      }
      SameParts(old(slots), slots);
      n, data := Fetch(k, o, count);
    }

    /** What a read at offset o returns when every disc is brought and the lookup ends as s does. */
    ghost predicate Answered(s: Settled, o: nat, count: nat, n: int)
      reads this`slots, media
    {
      && RangesOf(slots) == s.ranges
      && (s.part >= |s.ranges| ==> n == -1)
      && (s.part < |s.ranges| ==>
            && InReach(s.part)
            && n == Min(count, slots[s.part].start + slots[s.part].size - o))
    }
  }

  lemma SameParts(a: seq<Slot>, b: seq<Slot>)
    ensures RangesOf(a) == RangesOf(b) ==>
      |a| == |b| && forall k :: 0 <= k < |a| ==> a[k].start == b[k].start && a[k].size == b[k].size
  {
    forall k | 0 <= k < |a| && RangesOf(a) == RangesOf(b)
      ensures k < |b| && a[k].start == b[k].start && a[k].size == b[k].size
    {
      assert RangesOf(a)[k] == RangesOf(b)[k];
    }
  }

  lemma SameBytes(file: Octets, at: nat, package: Octets, start: nat, size: nat, skip: nat, n: nat)
    requires at + size <= |file| && start + size <= |package| && skip + n <= size
    requires file[at..at + size] == package[start..start + size]
    ensures file[at + skip..at + skip + n] == package[start + skip..start + skip + n]
  {
    SubSub(file, at, at + size, skip, skip + n);
    SubSub(package, start, start + size, skip, skip + n);
  }

  datatype Verdict = Nowhere | Ready | Waited | Stuck
}
