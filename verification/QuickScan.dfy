/** The incremental catalogue: packages, recorded files and drives, compacted in place. */
module QuickScan {
  import opened Wrappers

  // File times in seconds, within the range where their differences fit 64 signed bits.
  type Time = t: int | 0 <= t < 0x8000_0000_0000_0000

  datatype File = File(path: string, filename: string, size: nat, mtime: Time)

  datatype Pkg = Pkg(path: string, filename: string, size: nat, mtime: Time, titleId: string, titleName: string,
                     content: string)

  datatype Scanned = Scanned(path: string, size: nat, mtime: Time)

  datatype Drive = Drive(id: string, title: string, path: string, kind: string, mounted: bool, count: nat,
                         clickable: bool)

  datatype Source = Source(id: string, title: string, path: string, kind: string)

  // What listing a source gives: nothing reliable, no drive at all, or the package files on it.
  datatype Listing = Failed | Unmounted | Files(files: seq<File>)

  const MAX_PACKAGES: nat := 4096
  const MAX_DRIVES: nat := 16

  /** pkg_matches_drive_path: is this path the drive's, or below it? */
  predicate Under(path: string, drive: string) {
    && drive != ""
    && drive <= path
    && (drive[|drive| - 1] == '/' || |path| == |drive| || path[|drive|] == '/')
  }

  predicate Near(a: Time, b: Time) {
    -2 <= a - b <= 2
  }

  // Same path and size, and times that agree as far as they are known.
  predicate Same(f: File, p: Pkg) {
    f.path == p.path && f.size == p.size && (f.mtime == 0 || p.mtime == 0 || Near(f.mtime, p.mtime))
  }

  predicate Provisional(p: Pkg) {
    p.titleId == "UNKNOWN" && p.titleName == "Unknown Package"
  }

  // --- compaction and upsert, as functions ---

  function Filter<T(!new)>(s: seq<T>, keep: T -> bool): (r: seq<T>)
    ensures |r| <= |s|
  {
    if s == [] then []
    else
      var rest := Filter(s[..|s| - 1], keep);
      if keep(s[|s| - 1]) then rest + [s[|s| - 1]] else rest
  }

  function PkgOn(drive: string): Pkg -> bool {
    (p: Pkg) => Under(p.path, drive)
  }

  function PkgOff(drive: string): Pkg -> bool {
    (p: Pkg) => !Under(p.path, drive)
  }

  function ScannedOn(drive: string): Scanned -> bool {
    (s: Scanned) => Under(s.path, drive)
  }

  function ScannedOff(drive: string): Scanned -> bool {
    (s: Scanned) => !Under(s.path, drive)
  }

  lemma {:induction false} FilterJoined<T(!new)>(a: seq<T>, b: seq<T>, keep: T -> bool)
    ensures Filter(a + b, keep) == Filter(a, keep) + Filter(b, keep)
  {
    if b == [] {
      assert a + b == a;
    } else {
      assert (a + b)[..|a + b| - 1] == a + b[..|b| - 1];
      FilterJoined(a, b[..|b| - 1], keep);
    }
  }

  lemma {:induction false} FilterAll<T(!new)>(s: seq<T>, keep: T -> bool)
    ensures (forall x :: x in s ==> keep(x)) ==> Filter(s, keep) == s
    ensures |Filter(s, keep)| == |s| ==> forall x :: x in s ==> keep(x)
    ensures (forall x :: x in s ==> !keep(x)) ==> Filter(s, keep) == []
  {
    if s != [] {
      FilterAll(s[..|s| - 1], keep);
      assert s == s[..|s| - 1] + [s[|s| - 1]];
    }
  }

  /** Filtering for less after filtering for more. */
  lemma {:induction false} FilterTwice<T(!new)>(s: seq<T>, more: T -> bool, less: T -> bool)
    requires forall x :: less(x) ==> more(x)
    ensures Filter(Filter(s, more), less) == Filter(s, less)
  {
    if s != [] {
      FilterTwice(s[..|s| - 1], more, less);
      if more(s[|s| - 1]) {
        FilterJoined(Filter(s[..|s| - 1], more), [s[|s| - 1]], less);
      }
    }
  }

  lemma FilterSnoc<T(!new)>(s: seq<T>, i: nat, keep: T -> bool)
    requires i < |s|
    ensures Filter(s[..i + 1], keep) == Filter(s[..i], keep) + if keep(s[i]) then [s[i]] else []
  {
    assert s[..i + 1][..i] == s[..i];
  }

  lemma {:induction false} InFilter<T(!new)>(s: seq<T>, keep: T -> bool)
    ensures forall x :: x in Filter(s, keep) <==> x in s && keep(x)
  {
    if s != [] {
      InFilter(s[..|s| - 1], keep);
      assert s == s[..|s| - 1] + [s[|s| - 1]];
    }
  }

  /** The write-index loop: the kept elements move to the front, in order. */
  method Compact<T(!new)>(a: array<T>, n: nat, keep: T -> bool) returns (w: nat)
    requires n <= a.Length
    modifies a
    ensures w <= n && a[..w] == Filter(old(a[..n]), keep)
  {
    hide Filter;
    w := 0;
    var i := 0;
    ghost var was := a[..n];
    FilterAll(was[..0], keep);
    while i < n
      invariant w <= i <= n
      invariant a[..w] == Filter(was[..i], keep)
      invariant forall k :: i <= k < n ==> a[k] == was[k]
    {
      FilterSnoc(was, i, keep);
      if keep(a[i]) {
        if w != i {
          a[w] := a[i];
        }
        w := w + 1;
      }
      i := i + 1;
    }
    assert was[..n] == was;
  }

  function IndexOfPath(s: seq<Scanned>, path: string): (i: nat)
    ensures i <= |s| && (i < |s| ==> s[i].path == path)
    ensures forall k :: 0 <= k < i ==> s[k].path != path
  {
    if s == [] || s[0].path == path then 0 else 1 + IndexOfPath(s[1..], path)
  }

  /** add_scanned_file_locked: update the record of this path, or append one. */
  function Upsert(s: seq<Scanned>, e: Scanned): seq<Scanned> {
    if e.path == "" then s
    else
      var i := IndexOfPath(s, e.path);
      if i < |s| then s[i := e] else s + [e]
  }

  function Record(f: File): Scanned {
    Scanned(f.path, f.size, f.mtime)
  }

  function UpsertAll(s: seq<Scanned>, files: seq<File>): seq<Scanned> {
    if files == [] then s
    else Upsert(UpsertAll(s, files[..|files| - 1]), Record(files[|files| - 1]))
  }

  // --- the comparison with what is recorded ---

  predicate Mentions(d: Drive, src: Source) {
    d.path == src.path || d.id == src.id
  }

  function DriveIndex(drives: seq<Drive>, src: Source): (i: nat)
    ensures i <= |drives| && (i < |drives| ==> Mentions(drives[i], src))
    ensures forall k :: 0 <= k < i ==> !Mentions(drives[k], src)
  {
    if drives == [] || Mentions(drives[0], src) then 0 else 1 + DriveIndex(drives[1..], src)
  }

  predicate WasMounted(drives: seq<Drive>, src: Source) {
    var i := DriveIndex(drives, src);
    i < |drives| && drives[i].mounted
  }

  // A listed file this entry may stand for, in the fast comparison.
  predicate Listed(p: Pkg, files: seq<File>) {
    exists k :: 0 <= k < |files| && files[k].path == p.path && files[k].size == p.size
      && (Near(files[k].mtime, p.mtime) || files[k].mtime == 0)
  }

  predicate Recorded(f: File, scanned: seq<Scanned>, drive: string) {
    exists k :: 0 <= k < |scanned| && Under(scanned[k].path, drive)
      && scanned[k].path == f.path && scanned[k].size == f.size
      && (Near(f.mtime, scanned[k].mtime) || f.mtime == 0 || scanned[k].mtime == 0)
  }

  predicate HasEntry(f: File, packages: seq<Pkg>, drive: string) {
    exists k :: 0 <= k < |packages| && Under(packages[k].path, drive) && packages[k].path == f.path
  }

  predicate EntriesListed(packages: seq<Pkg>, files: seq<File>, drive: string) {
    forall k :: 0 <= k < |packages| && Under(packages[k].path, drive) ==>
      packages[k].mtime != 0 && Listed(packages[k], files)
  }

  predicate FilesKnown(files: seq<File>, packages: seq<Pkg>, scanned: seq<Scanned>, drive: string,
                       laterPart: string -> bool)
  {
    forall k :: 0 <= k < |files| ==>
      Recorded(files[k], scanned, drive) && (HasEntry(files[k], packages, drive) || laterPart(files[k].path))
  }

  /** The fast path: may re-parsing be skipped completely? */
  predicate Identical(src: Source, files: seq<File>, packages: seq<Pkg>, scanned: seq<Scanned>, drives: seq<Drive>,
                      laterPart: string -> bool)
  {
    var entries := |Filter(packages, PkgOn(src.path))|;
    && |files| == |Filter(scanned, ScannedOn(src.path))|
    && (files == [] ==> WasMounted(drives, src) && entries == 0)
    && (files != [] ==>
          && 0 < entries <= |files|
          && EntriesListed(packages, files, src.path)
          && FilesKnown(files, packages, scanned, src.path, laterPart))
  }

  // --- rebuilding ---

  /** The first entry of the source that the file may keep. */
  function MatchIndex(f: File, packages: seq<Pkg>, drive: string): (i: nat)
    ensures i <= |packages| && (i < |packages| ==> Under(packages[i].path, drive) && Same(f, packages[i]))
    ensures forall k :: 0 <= k < i ==> !(Under(packages[k].path, drive) && Same(f, packages[k]))
  {
    if packages == [] || (Under(packages[0].path, drive) && Same(f, packages[0])) then 0
    else 1 + MatchIndex(f, packages[1..], drive)
  }

  /** An entry whose time was unknown takes the file's. */
  function Dated(p: Pkg, f: File): Pkg {
    if p.mtime == 0 && f.mtime != 0 then p.(mtime := f.mtime) else p
  }

  // The catalogue with times filled in, the entries kept for the files so far, and the files left to parse.
  datatype Matched = Matched(packages: seq<Pkg>, kept: seq<Pkg>, unread: seq<File>)

  function Match(files: seq<File>, packages: seq<Pkg>, drive: string): (m: Matched)
    ensures |m.packages| == |packages| && |m.kept| + |m.unread| == |files|
  {
    if files == [] then Matched(packages, [], [])
    else
      var m, f := Match(files[..|files| - 1], packages, drive), files[|files| - 1];
      var i := MatchIndex(f, m.packages, drive);
      if i < |packages| then
        var p := Dated(m.packages[i], f);
        Matched(m.packages[i := p], m.kept + [p], m.unread)
      else Matched(m.packages, m.kept, m.unread + [f])
  }

  function ParseAll(files: seq<File>, parse: File -> Option<Pkg>): (r: seq<Pkg>)
    ensures |r| <= |files|
  {
    if files == [] then []
    else
      var rest, p := ParseAll(files[..|files| - 1], parse), parse(files[|files| - 1]);
      if p.Some? then rest + [p.value] else rest
  }

  predicate AnyProvisional(ps: seq<Pkg>) {
    exists k :: 0 <= k < |ps| && Provisional(ps[k])
  }

  predicate HasFile(files: seq<File>, path: string) {
    exists k :: 0 <= k < |files| && files[k].path == path
  }

  predicate HasPkg(ps: seq<Pkg>, path: string) {
    exists k :: 0 <= k < |ps| && ps[k].path == path
  }

  /** Entries of other sources stay; in a provisional scan so do those that were not listed. */
  function Stays(drive: string, provisional: bool, files: seq<File>, updated: seq<Pkg>): Pkg -> bool {
    (p: Pkg) => !Under(p.path, drive) || (provisional && !HasFile(files, p.path) && !HasPkg(updated, p.path))
  }

  function Take<T>(s: seq<T>, n: int): (r: seq<T>)
    ensures r <= s
  {
    if n <= 0 then [] else if n >= |s| then s else s[..n]
  }

  // The catalogue with times filled in, the new entries of the source, and whether one was unreadable so far.
  datatype Update = Update(packages: seq<Pkg>, updated: seq<Pkg>, provisional: bool)

  function Reread(files: seq<File>, packages: seq<Pkg>, drive: string, parse: File -> Option<Pkg>): Update {
    var m := Match(files, packages, drive);
    var parsed := ParseAll(m.unread, parse);
    Update(m.packages, m.kept + parsed, AnyProvisional(parsed))
  }

  /** The old entries that stay, then the new ones as far as there is room. */
  function Commit(files: seq<File>, packages: seq<Pkg>, drive: string, updated: seq<Pkg>, provisional: bool)
    : seq<Pkg>
  {
    var stay := Filter(packages, Stays(drive, provisional, files, updated));
    stay + Take(updated, MAX_PACKAGES - |stay|)
  }

  // --- what may happen while files are parsed ---

  // A hash computed for an entry's icon; it is part of the content.
  datatype Hash = Hash(path: string, content: string)

  function IndexOfPkg(ps: seq<Pkg>, path: string): (i: nat)
    ensures i <= |ps| && (i < |ps| ==> ps[i].path == path)
    ensures forall k :: 0 <= k < i ==> ps[k].path != path
  {
    if ps == [] || ps[0].path == path then 0 else 1 + IndexOfPkg(ps[1..], path)
  }

  function SetHash(ps: seq<Pkg>, h: Hash): (r: seq<Pkg>)
    ensures |r| == |ps|
  {
    var i := IndexOfPkg(ps, h.path);
    if i < |ps| then ps[i := ps[i].(content := h.content)] else ps
  }

  function SetHashes(ps: seq<Pkg>, hashes: seq<Hash>): (r: seq<Pkg>)
    ensures |r| == |ps|
  {
    if hashes == [] then ps else SetHash(SetHashes(ps, hashes[..|hashes| - 1]), hashes[|hashes| - 1])
  }

  // --- the result of a scan ---

  datatype State = State(packages: seq<Pkg>, scanned: seq<Scanned>, drives: seq<Drive>)

  function Unmount(drives: seq<Drive>, src: Source): seq<Drive> {
    var i := DriveIndex(drives, src);
    if i == |drives| then drives
    else drives[i := drives[i].(mounted := false, count := 0, clickable := false)]
  }

  function Refresh(drives: seq<Drive>, src: Source, count: nat, added: nat): seq<Drive> {
    var i := DriveIndex(drives, src);
    if i < |drives| then drives[i := drives[i].(mounted := true, count := count, clickable := count > 0)]
    else if |drives| >= MAX_DRIVES then drives
    else drives + [Drive(src.id, src.title, src.path, src.kind, true, added, added > 0 || src.kind == "smb")]
  }

  /** A rebuild; the hashes are set after the old entries were copied, while the lock is free for parsing. */
  function Rescan(s: State, src: Source, files: seq<File>, parse: File -> Option<Pkg>, hashes: seq<Hash>): State {
    var u := Reread(files, s.packages, src.path, parse);
    var after := Commit(files, SetHashes(u.packages, hashes), src.path, u.updated, u.provisional);
    State(after,
          UpsertAll(if u.provisional then s.scanned else Filter(s.scanned, ScannedOff(src.path)), files),
          Refresh(s.drives, src, |Filter(after, PkgOn(src.path))|, |u.updated|))
  }

  function Scan(s: State, src: Source, listing: Listing, parse: File -> Option<Pkg>, laterPart: string -> bool,
                hashes: seq<Hash>)
    : (State, bool)
  {
    match listing
    case Failed => (s, false)
    case Unmounted =>
      (State(Filter(s.packages, PkgOff(src.path)), Filter(s.scanned, ScannedOff(src.path)), Unmount(s.drives, src)),
       Filter(s.packages, PkgOn(src.path)) != [] || WasMounted(s.drives, src))
    case Files(files) =>
      if Identical(src, files, s.packages, s.scanned, s.drives, laterPart) then
        var n := |Filter(s.packages, PkgOn(src.path))|;
        (s.(drives := Refresh(s.drives, src, n, n)), false)
      else (Rescan(s, src, files, parse, hashes), true)
  }

  // --- the program ---

  class Catalog {
    const packages: array<Pkg>
    var packageCount: nat
    var scanned: array<Scanned>
    var scannedCount: nat
    const drives: array<Drive>
    var driveCount: nat

    ghost predicate Valid()
      reads this
    {
      && packages.Length == MAX_PACKAGES && packageCount <= MAX_PACKAGES
      && scannedCount <= scanned.Length
      && drives.Length == MAX_DRIVES && driveCount <= MAX_DRIVES
    }

    ghost function Packages(): seq<Pkg>
      requires Valid()
      reads this, packages
    {
      packages[..packageCount]
    }

    ghost function Records(): seq<Scanned>
      requires Valid()
      reads this, scanned
    {
      scanned[..scannedCount]
    }

    ghost function Drives(): seq<Drive>
      requires Valid()
      reads this, drives
    {
      drives[..driveCount]
    }

    ghost function Now(): State
      requires Valid()
      reads this, packages, scanned, drives
    {
      State(Packages(), Records(), Drives())
    }

    constructor ()
      ensures Valid() && Now() == State([], [], [])
      ensures fresh(packages) && fresh(scanned) && fresh(drives)
    {
      packages := new Pkg[MAX_PACKAGES];
      packageCount := 0;
      scanned := new Scanned[0];
      scannedCount := 0;
      drives := new Drive[MAX_DRIVES];
      driveCount := 0;
    }

    /** remove_scanned_files_for_drive_locked. */
    method RemoveScanned(drive: string)
      requires Valid()
      modifies this`scannedCount, scanned
      ensures Valid() && Records() == Filter(old(Records()), ScannedOff(drive))
    {
      scannedCount := Compact(scanned, scannedCount, ScannedOff(drive));
    }

    method Grow()
      requires Valid()
      modifies this`scanned
      ensures Valid() && Records() == old(Records()) && fresh(scanned) && scanned.Length > scannedCount
    {
      var bigger := new Scanned[if scanned.Length == 0 then 128 else 2 * scanned.Length];
      var old_, n := scanned, scannedCount;
      var i := 0;
      while i < n
        invariant i <= n
        invariant bigger[..i] == old_[..i]
      {
        bigger[i] := old_[i];
        i := i + 1;
      }
      scanned := bigger;
    }

    /** add_scanned_file_locked. */
    method AddScanned(path: string, size: nat, mtime: Time)
      requires Valid()
      modifies this`scanned, this`scannedCount, scanned
      ensures Valid() && (scanned == old(scanned) || fresh(scanned))
      ensures Records() == Upsert(old(Records()), Scanned(path, size, mtime))
    {
      if path == "" {
        return;
      }
      var i := 0;
      while i < scannedCount
        invariant i <= scannedCount
        invariant forall k :: 0 <= k < i ==> scanned[k].path != path
      {
        if scanned[i].path == path {
          scanned[i] := Scanned(path, size, mtime);
          return;
        }
        i := i + 1;
      }
      if scannedCount >= scanned.Length {
        Grow();
      }
      scanned[scannedCount] := Scanned(path, size, mtime);
      scannedCount := scannedCount + 1;
    }

    method FindDrive(src: Source) returns (i: nat)
      requires Valid()
      ensures i == DriveIndex(Drives(), src)
    {
      i := 0;
      while i < driveCount
        invariant i <= driveCount
        invariant forall k :: 0 <= k < i ==> !Mentions(drives[k], src)
      {
        if Mentions(drives[i], src) {
          return;
        }
        i := i + 1;
      }
    }

    method CountPackages(drive: string) returns (n: nat)
      requires Valid()
      ensures n == |Filter(Packages(), PkgOn(drive))|
    {
      n := 0;
      var i := 0;
      while i < packageCount
        invariant i <= packageCount
        invariant n == |Filter(packages[..i], PkgOn(drive))|
      {
        assert packages[..i + 1][..i] == packages[..i];
        if Under(packages[i].path, drive) {
          n := n + 1;
        }
        i := i + 1;
      }
    }

    method CountScanned(drive: string) returns (n: nat)
      requires Valid()
      ensures n == |Filter(Records(), ScannedOn(drive))|
    {
      n := 0;
      var i := 0;
      while i < scannedCount
        invariant i <= scannedCount
        invariant n == |Filter(scanned[..i], ScannedOn(drive))|
      {
        assert scanned[..i + 1][..i] == scanned[..i];
        if Under(scanned[i].path, drive) {
          n := n + 1;
        }
        i := i + 1;
      }
    }

    method CheckEntries(files: seq<File>, drive: string) returns (ok: bool)
      requires Valid()
      ensures ok == EntriesListed(Packages(), files, drive)
    {
      var i := 0;
      while i < packageCount
        invariant i <= packageCount
        invariant EntriesListed(packages[..i], files, drive)
      {
        var p := packages[i];
        assert p == packages[..packageCount][i];
        if Under(p.path, drive) {
          if p.mtime == 0 {
            return false;
          }
          var f := 0;
          while f < |files| && !(files[f].path == p.path && files[f].size == p.size
                                 && (Near(files[f].mtime, p.mtime) || files[f].mtime == 0))
            invariant f <= |files|
            invariant !Listed(p, files[..f])
          {
            f := f + 1;
          }
          if f == |files| {
            assert files[..f] == files;
            return false;
          }
        }
        i := i + 1;
      }
      ok := true;
    }

    method IsRecorded(f: File, drive: string) returns (ok: bool)
      requires Valid()
      ensures ok == Recorded(f, Records(), drive)
    {
      var i := 0;
      while i < scannedCount
        invariant i <= scannedCount
        invariant !Recorded(f, scanned[..i], drive)
      {
        var s := scanned[i];
        assert s == scanned[..scannedCount][i];
        if Under(s.path, drive) && f.path == s.path && f.size == s.size
           && (Near(f.mtime, s.mtime) || f.mtime == 0 || s.mtime == 0) {
          return true;
        }
        i := i + 1;
      }
      ok := false;
    }

    method EntryExists(f: File, drive: string) returns (ok: bool)
      requires Valid()
      ensures ok == HasEntry(f, Packages(), drive)
    {
      var i := 0;
      while i < packageCount
        invariant i <= packageCount
        invariant !HasEntry(f, packages[..i], drive)
      {
        assert packages[i] == packages[..packageCount][i];
        if Under(packages[i].path, drive) && f.path == packages[i].path {
          return true;
        }
        i := i + 1;
      }
      ok := false;
    }

    method CheckFiles(files: seq<File>, drive: string, laterPart: string -> bool) returns (ok: bool)
      requires Valid()
      ensures ok == FilesKnown(files, Packages(), Records(), drive, laterPart)
    {
      var i := 0;
      while i < |files|
        invariant i <= |files|
        invariant FilesKnown(files[..i], Packages(), Records(), drive, laterPart)
      {
        var recorded := IsRecorded(files[i], drive);
        if !recorded {
          return false;
        }
        var exists_ := EntryExists(files[i], drive);
        if !exists_ && !laterPart(files[i].path) {
          return false;
        }
        i := i + 1;
      }
      assert files[..i] == files;
      ok := true;
    }

    /** The comparison that may skip re-parsing. */
    method CheckIdentical(src: Source, files: seq<File>, laterPart: string -> bool)
      returns (identical: bool, entries: nat)
      requires Valid()
      ensures identical == Identical(src, files, Packages(), Records(), Drives(), laterPart)
      ensures entries == |Filter(Packages(), PkgOn(src.path))|
    {
      var recorded := CountScanned(src.path);
      entries := CountPackages(src.path);
      var d := FindDrive(src);
      var wasMounted := d < driveCount && drives[d].mounted;
      identical := false;
      if |files| == recorded {
        if |files| == 0 {
          identical := wasMounted && entries == 0;
        } else if entries > 0 && entries <= |files| {
          identical := CheckEntries(files, src.path);
          if identical {
            identical := CheckFiles(files, src.path, laterPart);
          }
        }
      }
    }

    method FindMatch(f: File, drive: string) returns (i: nat)
      requires Valid()
      ensures i == MatchIndex(f, Packages(), drive)
    {
      i := 0;
      while i < packageCount
        invariant i <= packageCount
        invariant forall k :: 0 <= k < i ==> !(Under(packages[k].path, drive) && Same(f, packages[k]))
      {
        if Under(packages[i].path, drive) && Same(f, packages[i]) {
          return;
        }
        i := i + 1;
      }
    }

    /** Keep what still matches, filling in unknown times; the other files are to be parsed. */
    method MatchFiles(files: seq<File>, drive: string) returns (kept: seq<Pkg>, unread: seq<File>)
      requires Valid()
      modifies packages
      ensures Match(files, old(Packages()), drive) == Matched(Packages(), kept, unread)
    {
      hide MatchIndex, Dated;
      kept, unread := [], [];
      ghost var was := Packages();
      var n := 0;
      while n < |files|
        invariant n <= |files|
        invariant Match(files[..n], was, drive) == Matched(Packages(), kept, unread)
      {
        assert files[..n + 1][..n] == files[..n];
        var f := files[n];
        var i := FindMatch(f, drive);
        MatchIndexBound(f, Packages(), drive);
        if i < packageCount {
          packages[i] := Dated(packages[i], f);
          kept := kept + [packages[i]];
        } else {
          unread := unread + [f];
        }
        n := n + 1;
      }
      assert files[..n] == files;
    }

    /** Drop this source's entries, and append the new ones as far as there is room. */
    method Replace(files: seq<File>, drive: string, updated: seq<Pkg>, provisional: bool)
      requires Valid()
      modifies this`packageCount, packages
      ensures Valid()
      ensures Packages() == Commit(files, old(Packages()), drive, updated, provisional)
    {
      hide Filter, Stays;
      packageCount := Compact(packages, packageCount, Stays(drive, provisional, files, updated));
      Append(updated);
    }

    /** As many of the new entries as there is room for. */
    method Append(updated: seq<Pkg>)
      requires Valid()
      modifies this`packageCount, packages
      ensures Valid()
      ensures Packages() == old(Packages()) + Take(updated, MAX_PACKAGES - |old(Packages())|)
    {
      ghost var stay := packages[..packageCount];
      var u := 0;
      while u < |updated| && packageCount < MAX_PACKAGES
        invariant u <= |updated| && packageCount == |stay| + u <= MAX_PACKAGES
        invariant packages[..packageCount] == stay + updated[..u]
      {
        packages[packageCount] := updated[u];
        packageCount := packageCount + 1;
        u := u + 1;
      }
    }

    /** The records of this source become the files just listed (joined with the old ones if provisional). */
    method RecordFiles(files: seq<File>, drive: string, provisional: bool)
      requires Valid()
      modifies this`scanned, this`scannedCount, scanned
      ensures Valid() && (scanned == old(scanned) || fresh(scanned))
      ensures Records()
           == UpsertAll(if provisional then old(Records()) else Filter(old(Records()), ScannedOff(drive)), files)
    {
      hide Filter, Upsert, Under;
      if !provisional {
        RemoveScanned(drive);
      }
      ghost var was := Records();
      var f := 0;
      while f < |files|
        invariant f <= |files| && Valid() && (scanned == old(scanned) || fresh(scanned))
        invariant Records() == UpsertAll(was, files[..f])
      {
        assert files[..f + 1][..f] == files[..f];
        AddScanned(files[f].path, files[f].size, files[f].mtime);
        f := f + 1;
      }
      assert files[..f] == files;
    }

    method RefreshDrive(src: Source, count: nat, added: nat)
      requires Valid()
      modifies this`driveCount, drives
      ensures Valid() && Drives() == Refresh(old(Drives()), src, count, added)
    {
      var d := FindDrive(src);
      if d < driveCount {
        drives[d] := drives[d].(mounted := true, count := count, clickable := count > 0);
      } else if driveCount < MAX_DRIVES {
        drives[driveCount] := Drive(src.id, src.title, src.path, src.kind, true, added, added > 0 || src.kind == "smb");
        driveCount := driveCount + 1;
      }
    }

    method UnmountSource(src: Source) returns (changed: bool)
      requires Valid()
      modifies this, packages, scanned, drives
      ensures Valid() && scanned == old(scanned)
      ensures (Now(), changed) == Scan(old(Now()), src, Unmounted, _ => None, _ => false, [])
    {
      hide Filter, Under, DriveIndex;
      var had := CountPackages(src.path);
      packageCount := Compact(packages, packageCount, PkgOff(src.path));
      RemoveScanned(src.path);
      changed := had > 0;
      var d := FindDrive(src);
      if d < driveCount {
        if drives[d].mounted {
          changed := true;
        }
        drives[d] := drives[d].(mounted := false, count := 0, clickable := false);
      }
    }

    /** pkg_scanner_set_blurhash. */
    method SetBlurhash(path: string, content: string)
      requires Valid()
      modifies packages
      ensures Packages() == SetHash(old(Packages()), Hash(path, content))
    {
      var i := 0;
      while i < packageCount
        invariant i <= packageCount && IndexOfPkg(Packages(), path) == i + IndexOfPkg(Packages()[i..], path)
        invariant Packages() == old(Packages())
      {
        assert Packages()[i..][1..] == Packages()[i + 1..];
        if packages[i].path == path {
          packages[i] := packages[i].(content := content);
          return;
        }
        i := i + 1;
      }
    }

    /** What other threads do while the lock is free. */
    method Interlude(hashes: seq<Hash>)
      requires Valid()
      modifies packages
      ensures Packages() == SetHashes(old(Packages()), hashes)
    {
      hide SetHash;
      ghost var was := Packages();
      var n := 0;
      while n < |hashes|
        invariant n <= |hashes| && Packages() == SetHashes(was, hashes[..n])
      {
        assert hashes[..n + 1][..n] == hashes[..n];
        SetBlurhash(hashes[n].path, hashes[n].content);
        n := n + 1;
      }
      assert hashes[..n] == hashes;
    }

    method RescanSource(src: Source, files: seq<File>, parse: File -> Option<Pkg>, hashes: seq<Hash>)
      requires Valid()
      modifies this, packages, scanned, drives
      ensures Valid() && (scanned == old(scanned) || fresh(scanned))
      ensures Now() == Rescan(old(Now()), src, files, parse, hashes)
    {
      hide Match, ParseAll, AnyProvisional, Commit, UpsertAll, Filter, Refresh, SetHashes;
      var kept, unread := MatchFiles(files, src.path);
      Interlude(hashes);
      var parsed, provisional := Parse(unread, parse);
      Replace(files, src.path, kept + parsed, provisional);
      RecordFiles(files, src.path, provisional);
      var count := CountPackages(src.path);
      RefreshDrive(src, count, |kept + parsed|);
    }

    /** scan_quick_single_source. */
    method ScanQuick(src: Source, listing: Listing, parse: File -> Option<Pkg>, laterPart: string -> bool,
                     hashes: seq<Hash>)
      returns (changed: bool)
      requires Valid()
      modifies this, packages, scanned, drives
      ensures Valid() && (scanned == old(scanned) || fresh(scanned))
      ensures (Now(), changed) == Scan(old(Now()), src, listing, parse, laterPart, hashes)
    {
      hide Identical, Rescan, Filter, Refresh;
      match listing
      case Failed =>
        return false;
      case Unmounted =>
        changed := UnmountSource(src);
      case Files(files) =>
        var identical, entries := CheckIdentical(src, files, laterPart);
        if identical {
          RefreshDrive(src, entries, entries);
          return false;
        }
        RescanSource(src, files, parse, hashes);
        changed := true;
    }
  }

  method Parse(files: seq<File>, parse: File -> Option<Pkg>) returns (parsed: seq<Pkg>, provisional: bool)
    ensures parsed == ParseAll(files, parse) && provisional == AnyProvisional(parsed)
  {
    parsed, provisional := [], false;
    var n := 0;
    while n < |files|
      invariant n <= |files|
      invariant parsed == ParseAll(files[..n], parse) && provisional == AnyProvisional(parsed)
    {
      assert files[..n + 1][..n] == files[..n];
      var p := parse(files[n]);
      if p.Some? {
        ProvisionalSnoc(parsed, p.value);
        parsed := parsed + [p.value];
        if Provisional(p.value) {
          provisional := true;
        }
      }
      n := n + 1;
    }
    assert files[..n] == files;
  }

  lemma ProvisionalSnoc(ps: seq<Pkg>, p: Pkg)
    ensures AnyProvisional(ps + [p]) <==> AnyProvisional(ps) || Provisional(p)
  {
    assert (ps + [p])[|ps|] == p;
    if AnyProvisional(ps) {
      var k :| 0 <= k < |ps| && Provisional(ps[k]);
      assert Provisional((ps + [p])[k]);
    }
  }

  lemma MatchIndexBound(f: File, packages: seq<Pkg>, drive: string)
    ensures MatchIndex(f, packages, drive) <= |packages|
  {
  }

  // --- what a scan leaves behind ---

  function Count(ps: seq<Pkg>, path: string): nat {
    if ps == [] then 0 else Count(ps[..|ps| - 1], path) + if ps[|ps| - 1].path == path then 1 else 0
  }

  lemma {:induction false} CountJoined(a: seq<Pkg>, b: seq<Pkg>, path: string)
    ensures Count(a + b, path) == Count(a, path) + Count(b, path)
  {
    if b == [] {
      assert a + b == a;
    } else {
      assert (a + b)[..|a + b| - 1] == a + b[..|b| - 1];
      CountJoined(a, b[..|b| - 1], path);
    }
  }

  lemma {:induction false} CountNone(ps: seq<Pkg>, path: string)
    ensures Count(ps, path) == 0 <==> !HasPkg(ps, path)
  {
    if ps != [] {
      var r := ps[..|ps| - 1];
      CountNone(r, path);
      if HasPkg(r, path) {
        var k :| 0 <= k < |r| && r[k].path == path;
        assert ps[k].path == path;
      }
    }
  }

  lemma {:induction false} CountFiltered(ps: seq<Pkg>, path: string, keep: Pkg -> bool)
    requires forall p: Pkg :: p.path == path ==> keep(p)
    ensures Count(Filter(ps, keep), path) == Count(ps, path)
  {
    if ps != [] {
      var r, p := ps[..|ps| - 1], ps[|ps| - 1];
      CountFiltered(r, path, keep);
      CountJoined(Filter(r, keep), [p], path);
      assert [p][..0] == [];
    }
  }

  predicate Distinct(files: seq<File>) {
    forall i, j :: 0 <= i < j < |files| ==> files[i].path != files[j].path
  }

  /** An entry of the source that stands for this file already. */
  predicate MayKeep(f: File, packages: seq<Pkg>, drive: string) {
    exists k :: 0 <= k < |packages| && Under(packages[k].path, drive) && Same(f, packages[k])
  }

  // An entry that comes from an old one for the same file, or from reading it.
  predicate From(p: Pkg, f: File, packages: seq<Pkg>, drive: string, parse: File -> Option<Pkg>) {
    && p.path == f.path
    && (parse(f) == Some(p)
        || exists k :: 0 <= k < |packages| && Under(packages[k].path, drive) && Same(f, packages[k])
             && p == Dated(packages[k], f))
  }

  predicate Explained(p: Pkg, files: seq<File>, packages: seq<Pkg>, drive: string, parse: File -> Option<Pkg>) {
    exists k :: 0 <= k < |files| && From(p, files[k], packages, drive, parse)
  }

  ghost predicate PathsKept(parse: File -> Option<Pkg>) {
    forall f :: parse(f).Some? ==> parse(f).value.path == f.path
  }

  lemma {:induction false} FilterUpdate<T(!new)>(s: seq<T>, i: nat, x: T, keep: T -> bool)
    requires i < |s| && !keep(s[i]) && !keep(x)
    ensures Filter(s[i := x], keep) == Filter(s, keep)
  {
    var n := |s| - 1;
    if i == n {
      assert s[i := x][..n] == s[..n];
    } else {
      assert s[i := x][..n] == s[..n][i := x];
      FilterUpdate(s[..n], i, x, keep);
    }
  }

  /** Filling in times leaves other sources alone, and entries without a listed file too. */
  lemma {:induction false} MatchLeaves(files: seq<File>, packages: seq<Pkg>, drive: string)
    ensures var m := Match(files, packages, drive);
      && |m.packages| == |packages|
      && (forall k :: 0 <= k < |packages| ==> m.packages[k].path == packages[k].path)
      && (forall k :: 0 <= k < |packages| ==>
            m.packages[k] == packages[k] || (Under(packages[k].path, drive) && HasFile(files, packages[k].path)))
  {
    if files != [] {
      var n := |files| - 1;
      MatchLeaves(files[..n], packages, drive);
      var m, f := Match(files[..n], packages, drive), files[n];
      var after := Match(files, packages, drive).packages;
      forall k | 0 <= k < |packages|
        ensures after[k].path == packages[k].path
        ensures after[k] == packages[k] || (Under(packages[k].path, drive) && HasFile(files, packages[k].path))
      {
        if HasFile(files[..n], packages[k].path) {
          var j :| 0 <= j < n && files[..n][j].path == packages[k].path;
          assert files[j].path == packages[k].path;
        }
      }
    }
  }

  /** A file with a path of its own finds the same old entry, whatever happened to the others. */
  lemma SameMatch(files: seq<File>, f: File, packages: seq<Pkg>, drive: string)
    requires !HasFile(files, f.path)
    ensures var m := Match(files, packages, drive);
      && MatchIndex(f, m.packages, drive) == MatchIndex(f, packages, drive)
      && (var i := MatchIndex(f, packages, drive); i < |packages| ==> m.packages[i] == packages[i])
  {
    MatchLeaves(files, packages, drive);
    var m := Match(files, packages, drive);
    var i, j := MatchIndex(f, packages, drive), MatchIndex(f, m.packages, drive);
    assert forall k :: 0 <= k < |packages| && packages[k].path == f.path ==> m.packages[k] == packages[k];
  }

  function Entries(files: seq<File>, packages: seq<Pkg>, drive: string, parse: File -> Option<Pkg>): seq<Pkg> {
    var m := Match(files, packages, drive);
    m.kept + ParseAll(m.unread, parse)
  }

  /** One more file adds at most one entry, for that file. */
  lemma EntriesStep(files: seq<File>, packages: seq<Pkg>, drive: string, parse: File -> Option<Pkg>, path: string)
    requires files != [] && PathsKept(parse) && !HasFile(files[..|files| - 1], files[|files| - 1].path)
    ensures var n := |files| - 1;
      var f := files[n];
      Count(Entries(files, packages, drive, parse), path)
        == Count(Entries(files[..n], packages, drive, parse), path)
         + if f.path == path && (MayKeep(f, packages, drive) || parse(f).Some?) then 1 else 0
  {
    var n := |files| - 1;
    var f, m, m' := files[n], Match(files[..n], packages, drive), Match(files, packages, drive);
    SameMatch(files[..n], f, packages, drive);
    CountJoined(m.kept, ParseAll(m.unread, parse), path);
    CountJoined(m'.kept, ParseAll(m'.unread, parse), path);
    if MatchIndex(f, packages, drive) < |packages| {
      CountSnoc(m.kept, m'.kept[|m.kept|], path);
    } else {
      ParseSnoc(m.unread, f, parse, path);
    }
  }

  lemma CountSnoc(ps: seq<Pkg>, p: Pkg, path: string)
    ensures Count(ps + [p], path) == Count(ps, path) + if p.path == path then 1 else 0
  {
    assert (ps + [p])[..|ps|] == ps;
  }

  lemma ParseSnoc(files: seq<File>, f: File, parse: File -> Option<Pkg>, path: string)
    ensures var rest := ParseAll(files, parse);
      && ParseAll(files + [f], parse) == (if parse(f).Some? then rest + [parse(f).value] else rest)
      && Count(ParseAll(files + [f], parse), path)
         == Count(rest, path) + if parse(f).Some? && parse(f).value.path == path then 1 else 0
  {
    assert (files + [f])[..|files|] == files;
    if parse(f).Some? {
      CountSnoc(ParseAll(files, parse), parse(f).value, path);
    }
  }

  // Some listed file with this path has an entry to keep or can be read.
  predicate Gets(files: seq<File>, packages: seq<Pkg>, drive: string, parse: File -> Option<Pkg>, path: string) {
    exists k :: 0 <= k < |files| && files[k].path == path
      && (MayKeep(files[k], packages, drive) || parse(files[k]).Some?)
  }

  lemma GetsStep(files: seq<File>, packages: seq<Pkg>, drive: string, parse: File -> Option<Pkg>, path: string)
    requires files != [] && Distinct(files)
    ensures var n := |files| - 1;
      var f := files[n];
      var g := Gets(files[..n], packages, drive, parse, path);
      && !HasFile(files[..n], f.path)
      && (Gets(files, packages, drive, parse, path)
          <==> g || (f.path == path && (MayKeep(f, packages, drive) || parse(f).Some?)))
      && (f.path == path ==> !g)
  {
    hide MayKeep;
    var n := |files| - 1;
    if Gets(files[..n], packages, drive, parse, path) {
      var k :| 0 <= k < n && files[..n][k].path == path
        && (MayKeep(files[..n][k], packages, drive) || parse(files[..n][k]).Some?);
      assert files[k].path == path;
    }
    if Gets(files, packages, drive, parse, path) {
      var k :| 0 <= k <= n && files[k].path == path
        && (MayKeep(files[k], packages, drive) || parse(files[k]).Some?);
      assert k < n ==> files[..n][k].path == path;
    }
  }

  /** Exactly one entry for each file that has one, and none for any other path. */
  lemma {:induction false} EntriesCount(files: seq<File>, packages: seq<Pkg>, drive: string,
                                        parse: File -> Option<Pkg>, path: string)
    requires PathsKept(parse) && Distinct(files)
    ensures Count(Entries(files, packages, drive, parse), path)
         == if Gets(files, packages, drive, parse, path) then 1 else 0
  {
    if files != [] {
      hide *;
      var n := |files| - 1;
      DistinctPrefix(files);
      GetsStep(files, packages, drive, parse, path);
      EntriesCount(files[..n], packages, drive, parse, path);
      EntriesStep(files, packages, drive, parse, path);
    }
  }

  lemma DistinctPrefix(files: seq<File>)
    requires files != [] && Distinct(files)
    ensures Distinct(files[..|files| - 1])
  {
  }

  lemma FromWider(p: Pkg, files: seq<File>, packages: seq<Pkg>, drive: string, parse: File -> Option<Pkg>)
    requires files != [] && Explained(p, files[..|files| - 1], packages, drive, parse)
    ensures Explained(p, files, packages, drive, parse)
  {
    hide From;
    var n := |files| - 1;
    var k :| 0 <= k < n && From(p, files[..n][k], packages, drive, parse);
    assert From(p, files[k], packages, drive, parse);
  }

  /** The entry that one more file adds. */
  lemma LastFrom(files: seq<File>, packages: seq<Pkg>, drive: string, parse: File -> Option<Pkg>, p: Pkg)
    requires files != [] && PathsKept(parse) && !HasFile(files[..|files| - 1], files[|files| - 1].path)
    requires p in Entries(files, packages, drive, parse)
    requires p !in Entries(files[..|files| - 1], packages, drive, parse)
    ensures From(p, files[|files| - 1], packages, drive, parse)
  {
    hide HasFile, Under, ParseAll;
    var n := |files| - 1;
    var f, m := files[n], Match(files[..n], packages, drive);
    SameMatch(files[..n], f, packages, drive);
    ParseSnoc(m.unread, f, parse, f.path);
    var i := MatchIndex(f, packages, drive);
    if i < |packages| {
      assert p == Dated(packages[i], f);
      assert Under(packages[i].path, drive) && Same(f, packages[i]);
    } else {
      assert parse(f) == Some(p);
    }
  }

  /** Every entry of the source comes from a listed file: kept for it, or read from it. */
  lemma {:induction false} EntriesExplained(files: seq<File>, packages: seq<Pkg>, drive: string,
                                            parse: File -> Option<Pkg>, p: Pkg)
    requires PathsKept(parse) && Distinct(files) && p in Entries(files, packages, drive, parse)
    ensures Explained(p, files, packages, drive, parse)
  {
    hide Distinct, HasFile, From, Gets, PathsKept;
    if files != [] {
      var n := |files| - 1;
      GetsStep(files, packages, drive, parse, files[n].path);
      DistinctPrefix(files);
      if p in Entries(files[..n], packages, drive, parse) {
        EntriesExplained(files[..n], packages, drive, parse, p);
        FromWider(p, files, packages, drive, parse);
      } else {
        LastFrom(files, packages, drive, parse, p);
      }
    }
  }

  lemma {:induction false} FilterSame<T(!new)>(s: seq<T>, t: seq<T>, keep: T -> bool, keep': T -> bool)
    requires |s| == |t|
    requires forall k :: 0 <= k < |s| ==>
      && keep(s[k]) == keep'(t[k])
      && (keep(s[k]) ==> s[k] == t[k])
    ensures Filter(s, keep) == Filter(t, keep')
  {
    if s != [] {
      FilterSame(s[..|s| - 1], t[..|t| - 1], keep, keep');
    }
  }

  predicate AllUnder(files: seq<File>, drive: string) {
    forall k :: 0 <= k < |files| ==> Under(files[k].path, drive)
  }

  lemma ExplainedListed(p: Pkg, files: seq<File>, packages: seq<Pkg>, drive: string, parse: File -> Option<Pkg>)
    requires Explained(p, files, packages, drive, parse)
    ensures HasFile(files, p.path) && (AllUnder(files, drive) ==> Under(p.path, drive))
  {
  }

  lemma {:induction false} SameIndex(ps: seq<Pkg>, qs: seq<Pkg>, path: string)
    requires |ps| == |qs| && forall k :: 0 <= k < |ps| ==> ps[k].path == qs[k].path
    ensures IndexOfPkg(ps, path) == IndexOfPkg(qs, path)
  {
    if ps != [] {
      SameIndex(ps[1..], qs[1..], path);
    }
  }

  lemma HashAlike(ps: seq<Pkg>, qs: seq<Pkg>, h: Hash)
    requires |ps| == |qs| && forall k :: 0 <= k < |ps| ==> ps[k].path == qs[k].path
    ensures var a, b := SetHash(ps, h), SetHash(qs, h);
      forall k :: 0 <= k < |ps| ==> a[k].path == b[k].path == ps[k].path && (ps[k] == qs[k] ==> a[k] == b[k])
  {
    SameIndex(ps, qs, h.path);
  }

  /** Setting hashes changes no path, and equal entries alike. */
  lemma {:induction false} HashesAlike(ps: seq<Pkg>, qs: seq<Pkg>, hashes: seq<Hash>)
    requires |ps| == |qs| && forall k :: 0 <= k < |ps| ==> ps[k].path == qs[k].path
    ensures var a, b := SetHashes(ps, hashes), SetHashes(qs, hashes);
      forall k :: 0 <= k < |ps| ==> a[k].path == b[k].path == ps[k].path && (ps[k] == qs[k] ==> a[k] == b[k])
  {
    hide SetHash;
    if hashes != [] {
      var rest := hashes[..|hashes| - 1];
      HashesAlike(ps, qs, rest);
      var a, b := SetHashes(ps, rest), SetHashes(qs, rest);
      forall k | 0 <= k < |ps|
        ensures a[k].path == b[k].path == ps[k].path && (ps[k] == qs[k] ==> a[k] == b[k])
      {
        assert ps[k].path == qs[k].path;
      }
      HashAlike(a, b, hashes[|hashes| - 1]);
    }
  }

  lemma {:induction false} FilterLength<T(!new)>(s: seq<T>, t: seq<T>, keep: T -> bool)
    requires |s| == |t| && forall k :: 0 <= k < |s| ==> keep(s[k]) == keep(t[k])
    ensures |Filter(s, keep)| == |Filter(t, keep)|
  {
    if s != [] {
      FilterLength(s[..|s| - 1], t[..|t| - 1], keep);
    }
  }

  /** Hashes set after the times were filled in show on other sources' entries as if they had been set before. */
  lemma OthersHashed(files: seq<File>, packages: seq<Pkg>, drive: string, hashes: seq<Hash>)
    ensures var m, others := SetHashes(Match(files, packages, drive).packages, hashes), SetHashes(packages, hashes);
      && |m| == |others| && |Filter(others, PkgOff(drive))| == |Filter(packages, PkgOff(drive))|
      && forall k :: 0 <= k < |m| ==>
           && m[k].path == others[k].path == packages[k].path
           && (!Under(m[k].path, drive) || !HasFile(files, m[k].path) ==> m[k] == others[k])
  {
    hide Match, SetHashes, Filter, Under, HasFile;
    MatchLeaves(files, packages, drive);
    HashesAlike(Match(files, packages, drive).packages, packages, hashes);
    FilterLength(SetHashes(packages, hashes), packages, PkgOff(drive));
  }

  /** With no unreadable file and room for all, the source's entries are the new ones, the others as they were. */
  lemma CommitIs(files: seq<File>, packages: seq<Pkg>, drive: string, parse: File -> Option<Pkg>, hashes: seq<Hash>)
    requires PathsKept(parse) && Distinct(files) && AllUnder(files, drive)
    requires |Filter(packages, PkgOff(drive))| + |files| <= MAX_PACKAGES
    ensures var m, updated := Match(files, packages, drive), Entries(files, packages, drive, parse);
      && Commit(files, SetHashes(m.packages, hashes), drive, updated, false)
         == Filter(SetHashes(packages, hashes), PkgOff(drive)) + updated
      && Filter(updated, PkgOff(drive)) == [] && Filter(updated, PkgOn(drive)) == updated
  {
    hide Match, ParseAll, Filter, Distinct, PathsKept, AllUnder, Explained, Entries, Under, SetHashes;
    var m, updated := Match(files, packages, drive), Entries(files, packages, drive, parse);
    OthersHashed(files, packages, drive, hashes);
    FilterSame(SetHashes(m.packages, hashes), SetHashes(packages, hashes), Stays(drive, false, files, updated),
               PkgOff(drive));
    forall p | p in updated
      ensures Under(p.path, drive)
    {
      EntriesExplained(files, packages, drive, parse, p);
      ExplainedListed(p, files, packages, drive, parse);
    }
    FilterAll(updated, PkgOff(drive));
    FilterAll(updated, PkgOn(drive));
    EntriesShort(files, packages, drive, parse);
  }

  lemma EntriesShort(files: seq<File>, packages: seq<Pkg>, drive: string, parse: File -> Option<Pkg>)
    ensures |Entries(files, packages, drive, parse)| <= |files|
  {
  }

  /** As a full re-read would: one entry a file, nothing else, and the other sources' entries as they are. */
  ghost predicate Faithful(after: seq<Pkg>, files: seq<File>, before: seq<Pkg>, others: seq<Pkg>, drive: string,
                           parse: File -> Option<Pkg>)
  {
    && Filter(after, PkgOff(drive)) == Filter(others, PkgOff(drive))
    && (forall k :: 0 <= k < |files| ==>
          Count(after, files[k].path) == if MayKeep(files[k], before, drive) || parse(files[k]).Some? then 1 else 0)
    && (forall p :: p in after && Under(p.path, drive) ==> Explained(p, files, before, drive, parse))
  }

  lemma NoneOff(packages: seq<Pkg>, drive: string, path: string)
    requires Under(path, drive)
    ensures Count(Filter(packages, PkgOff(drive)), path) == 0
  {
    InFilter(packages, PkgOff(drive));
    CountNone(Filter(packages, PkgOff(drive)), path);
  }

  lemma RebuildFaithful(files: seq<File>, packages: seq<Pkg>, drive: string, parse: File -> Option<Pkg>,
                        hashes: seq<Hash>)
    requires PathsKept(parse) && Distinct(files) && AllUnder(files, drive)
    requires |Filter(packages, PkgOff(drive))| + |files| <= MAX_PACKAGES
    ensures var u := Reread(files, packages, drive, parse);
      Faithful(Commit(files, SetHashes(u.packages, hashes), drive, u.updated, false), files, packages,
               SetHashes(packages, hashes), drive, parse)
  {
    hide Match, ParseAll, Filter, Count, Distinct, PathsKept, Explained, Entries, Under, MayKeep, Commit, SetHashes;
    var u := Reread(files, packages, drive, parse);
    assert u.updated == Entries(files, packages, drive, parse) by { EntriesAre(files, packages, drive, parse); }
    CommitIs(files, packages, drive, parse, hashes);
    var others := SetHashes(packages, hashes);
    var off := Filter(others, PkgOff(drive));
    var after := off + u.updated;
    FilterJoined(off, u.updated, PkgOff(drive));
    FilterTwice(others, PkgOff(drive), PkgOff(drive));
    forall k | 0 <= k < |files|
      ensures Count(after, files[k].path)
           == if MayKeep(files[k], packages, drive) || parse(files[k]).Some? then 1 else 0
    {
      CountJoined(off, u.updated, files[k].path);
      NoneOff(others, drive, files[k].path);
      EntriesCount(files, packages, drive, parse, files[k].path);
      GetsOne(files, packages, drive, parse, k);
    }
    InFilter(others, PkgOff(drive));
    forall p | p in after && Under(p.path, drive)
      ensures Explained(p, files, packages, drive, parse)
    {
      EntriesExplained(files, packages, drive, parse, p);
    }
  }

  lemma EntriesAre(files: seq<File>, packages: seq<Pkg>, drive: string, parse: File -> Option<Pkg>)
    ensures Reread(files, packages, drive, parse).updated == Entries(files, packages, drive, parse)
  {
  }

  lemma GetsOne(files: seq<File>, packages: seq<Pkg>, drive: string, parse: File -> Option<Pkg>, k: nat)
    requires k < |files| && Distinct(files)
    ensures Gets(files, packages, drive, parse, files[k].path)
       <==> MayKeep(files[k], packages, drive) || parse(files[k]).Some?
  {
    hide MayKeep;
    if Gets(files, packages, drive, parse, files[k].path) {
      var j :| 0 <= j < |files| && files[j].path == files[k].path
        && (MayKeep(files[j], packages, drive) || parse(files[j]).Some?);
      assert j == k;
    }
  }

  // --- the fast path ---

  /** Enough entries for all distinct paths, and no more: one each, and none for any other path. */
  lemma {:induction false} OneEach(ps: seq<Pkg>, files: seq<File>)
    requires |ps| <= |files| && Distinct(files)
    requires forall k :: 0 <= k < |files| ==> HasPkg(ps, files[k].path)
    ensures |ps| == |files|
    ensures forall k :: 0 <= k < |files| ==> Count(ps, files[k].path) == 1
    ensures forall i :: 0 <= i < |ps| ==> HasFile(files, ps[i].path)
  {
    hide Count;
    if files != [] {
      var n := |files| - 1;
      assert HasPkg(ps, files[n].path);
      var i :| 0 <= i < |ps| && ps[i].path == files[n].path;
      var rest := ps[..i] + ps[i + 1..];
      forall k | 0 <= k < n
        ensures HasPkg(rest, files[..n][k].path)
      {
        assert HasPkg(ps, files[k].path);
        var j :| 0 <= j < |ps| && ps[j].path == files[k].path;
        assert rest[if j < i then j else j - 1] == ps[j];
      }
      DistinctPrefix(files);
      OneEach(rest, files[..n]);
      forall k | 0 <= k <= n
        ensures Count(ps, files[k].path) == 1
      {
        CountWithout(ps, i, files[k].path);
        if k == n {
          CountNone(rest, files[n].path);
        } else {
          assert files[..n][k] == files[k];
        }
      }
      forall j | 0 <= j < |ps|
        ensures HasFile(files, ps[j].path)
      {
        if j == i {
          assert files[n].path == ps[j].path;
        } else {
          assert rest[if j < i then j else j - 1] == ps[j];
        }
      }
    }
  }

  lemma CountWithout(ps: seq<Pkg>, i: nat, path: string)
    requires i < |ps|
    ensures Count(ps, path) == Count(ps[..i] + ps[i + 1..], path) + if ps[i].path == path then 1 else 0
  {
    CountJoined(ps[..i], ps[i + 1..], path);
    CountSnoc(ps[..i], ps[i], path);
    CountJoined(ps[..i] + [ps[i]], ps[i + 1..], path);
    assert ps == ps[..i] + [ps[i]] + ps[i + 1..];
  }

  lemma ListedSame(p: Pkg, files: seq<File>, packages: seq<Pkg>, drive: string, parse: File -> Option<Pkg>)
    requires p in packages && Under(p.path, drive) && p.mtime != 0 && Listed(p, files)
    ensures exists k :: 0 <= k < |files| && files[k].path == p.path && Same(files[k], p)
    ensures Explained(p, files, packages, drive, parse)
  {
    var k :| 0 <= k < |files| && files[k].path == p.path && files[k].size == p.size
      && (Near(files[k].mtime, p.mtime) || files[k].mtime == 0);
    var j :| 0 <= j < |packages| && packages[j] == p;
    assert Under(packages[j].path, drive) && Same(files[k], packages[j]) && p == Dated(packages[j], files[k]);
    assert From(p, files[k], packages, drive, parse);
  }

  /** Where re-parsing was skipped, the catalogue was already what it would be. */
  lemma IdenticalFaithful(src: Source, files: seq<File>, s: State, laterPart: string -> bool,
                          parse: File -> Option<Pkg>)
    requires Distinct(files) && AllUnder(files, src.path)
    requires forall k :: 0 <= k < |files| ==> !laterPart(files[k].path)
    requires Identical(src, files, s.packages, s.scanned, s.drives, laterPart)
    ensures Faithful(s.packages, files, s.packages, s.packages, src.path, parse)
  {
    hide Filter, Count, Under, Explained, Listed, Recorded, MayKeep, Same;
    var drive := src.path;
    var on := Filter(s.packages, PkgOn(drive));
    InFilter(s.packages, PkgOn(drive));
    forall p | p in s.packages && Under(p.path, drive)
      ensures files != [] && Explained(p, files, s.packages, drive, parse)
    {
      var i :| 0 <= i < |s.packages| && s.packages[i] == p;
      assert p in on;
      ListedSame(p, files, s.packages, drive, parse);
    }
    forall k | 0 <= k < |files|
      ensures HasPkg(on, files[k].path) && MayKeep(files[k], s.packages, drive)
    {
      var i :| 0 <= i < |s.packages| && Under(s.packages[i].path, drive) && s.packages[i].path == files[k].path;
      var p := s.packages[i];
      assert p in on;
      var j :| 0 <= j < |on| && on[j] == p;
      ListedSame(p, files, s.packages, drive, parse);
      KeepsOwn(p, files, k, s.packages, drive);
    }
    OneEach(on, files);
    forall k | 0 <= k < |files|
      ensures Count(s.packages, files[k].path) == 1
    {
      CountFiltered(s.packages, files[k].path, PkgOn(drive));
    }
  }

  lemma KeepsOwn(p: Pkg, files: seq<File>, k: nat, packages: seq<Pkg>, drive: string)
    requires k < |files| && Distinct(files) && files[k].path == p.path
    requires p in packages && Under(p.path, drive)
    requires exists j :: 0 <= j < |files| && files[j].path == p.path && Same(files[j], p)
    ensures MayKeep(files[k], packages, drive)
  {
    var j :| 0 <= j < |files| && files[j].path == p.path && Same(files[j], p);
    assert j == k;
    var i :| 0 <= i < |packages| && packages[i] == p;
  }

  /** Either way a quick scan of a mounted source leaves what a full re-read would. */
  lemma QuickIsFull(s: State, src: Source, files: seq<File>, parse: File -> Option<Pkg>, laterPart: string -> bool,
                    hashes: seq<Hash>)
    requires PathsKept(parse) && Distinct(files) && AllUnder(files, src.path)
    requires forall k :: 0 <= k < |files| ==> !laterPart(files[k].path)
    requires !Reread(files, s.packages, src.path, parse).provisional
    requires |Filter(s.packages, PkgOff(src.path))| + |files| <= MAX_PACKAGES
    ensures var r := Scan(s, src, Files(files), parse, laterPart, hashes);
      Faithful(r.0.packages, files, s.packages, if r.1 then SetHashes(s.packages, hashes) else s.packages, src.path,
               parse)
  {
    hide Faithful, Identical, Reread, Commit, Refresh, Filter, UpsertAll, SetHashes;
    if Identical(src, files, s.packages, s.scanned, s.drives, laterPart) {
      IdenticalFaithful(src, files, s, laterPart, parse);
    } else {
      RebuildFaithful(files, s.packages, src.path, parse, hashes);
    }
  }

  /** Hashes set on the source's own entries during the rebuild are lost: the old entries were copied before. */
  lemma HashesLost(s: State, src: Source, files: seq<File>, parse: File -> Option<Pkg>, hashes: seq<Hash>)
    requires PathsKept(parse) && Distinct(files) && AllUnder(files, src.path)
    requires !Reread(files, s.packages, src.path, parse).provisional
    requires |Filter(s.packages, PkgOff(src.path))| + |files| <= MAX_PACKAGES
    ensures Filter(Rescan(s, src, files, parse, hashes).packages, PkgOn(src.path))
         == Reread(files, s.packages, src.path, parse).updated
  {
    hide Match, ParseAll, Filter, Distinct, PathsKept, AllUnder, Entries, Under, Commit, SetHashes, Refresh, UpsertAll;
    var u := Reread(files, s.packages, src.path, parse);
    EntriesAre(files, s.packages, src.path, parse);
    CommitIs(files, s.packages, src.path, parse, hashes);
    var others := SetHashes(s.packages, hashes);
    var off := Filter(others, PkgOff(src.path));
    FilterJoined(off, u.updated, PkgOn(src.path));
    InFilter(others, PkgOff(src.path));
    FilterAll(off, PkgOn(src.path));
    assert [] + u.updated == u.updated;
  }

  // Entries that differ in content only.
  predicate SameBut(p: Pkg, q: Pkg) {
    p.(content := q.content) == q
  }

  ghost predicate AllSameBut(ps: seq<Pkg>, qs: seq<Pkg>) {
    |ps| == |qs| && forall k :: 0 <= k < |ps| ==> SameBut(ps[k], qs[k])
  }

  lemma {:induction false} HashesKeep(ps: seq<Pkg>, hashes: seq<Hash>)
    ensures AllSameBut(ps, SetHashes(ps, hashes))
  {
    if hashes != [] {
      HashesKeep(ps, hashes[..|hashes| - 1]);
    }
  }

  lemma {:induction false} MatchSame(f: File, ps: seq<Pkg>, qs: seq<Pkg>, drive: string)
    requires AllSameBut(ps, qs)
    ensures MatchIndex(f, ps, drive) == MatchIndex(f, qs, drive)
  {
    if ps != [] {
      assert SameBut(ps[0], qs[0]);
      MatchSame(f, ps[1..], qs[1..], drive);
    }
  }

  // The entry this file may keep has the same content in both.
  predicate KeptSame(f: File, ps: seq<Pkg>, qs: seq<Pkg>, drive: string)
    requires |ps| == |qs|
  {
    var i := MatchIndex(f, ps, drive);
    i < |ps| ==> ps[i].content == qs[i].content
  }

  /** What one more file adds to the entries kept and the files left to parse. */
  lemma MatchStep(files: seq<File>, packages: seq<Pkg>, drive: string)
    requires files != [] && !HasFile(files[..|files| - 1], files[|files| - 1].path)
    ensures var f, m := files[|files| - 1], Match(files[..|files| - 1], packages, drive);
      var i, r := MatchIndex(f, packages, drive), Match(files, packages, drive);
      if i < |packages| then r.kept == m.kept + [Dated(packages[i], f)] && r.unread == m.unread
      else r.kept == m.kept && r.unread == m.unread + [f]
  {
    SameMatch(files[..|files| - 1], files[|files| - 1], packages, drive);
  }

  /** Contents decide nothing but the entries kept. */
  lemma {:induction false} KeptAlike(files: seq<File>, ps: seq<Pkg>, qs: seq<Pkg>, drive: string)
    requires Distinct(files) && AllSameBut(ps, qs)
    ensures var m, r := Match(files, ps, drive), Match(files, qs, drive);
      && m.unread == r.unread && |m.kept| == |r.kept|
      && (m.kept == r.kept <==> forall k :: 0 <= k < |files| ==> KeptSame(files[k], ps, qs, drive))
  {
    hide Match, MatchIndex, Dated, HasFile, AllSameBut;
    if files == [] {
      MatchNone(ps, drive);
      MatchNone(qs, drive);
    } else {
      var n := |files| - 1;
      DistinctPrefix(files);
      LastNew(files);
      KeptAlike(files[..n], ps, qs, drive);
      var m, r := Match(files[..n], ps, drive), Match(files[..n], qs, drive);
      MatchStep(files, ps, drive);
      MatchStep(files, qs, drive);
      SameLength(ps, qs);
      var i := MatchIndex(files[n], ps, drive);
      if i < |ps| {
        SnocSame(m.kept, r.kept, Dated(ps[i], files[n]), Dated(qs[i], files[n]));
      }
      MatchSame(files[n], ps, qs, drive);
      DatedSame(files[n], ps, qs, drive);
      ForallSnoc(files, ps, qs, drive);
    }
  }

  lemma SameLength(ps: seq<Pkg>, qs: seq<Pkg>)
    requires AllSameBut(ps, qs)
    ensures |ps| == |qs|
  {
  }

  lemma SnocSame<T>(s: seq<T>, t: seq<T>, x: T, y: T)
    requires |s| == |t|
    ensures s + [x] == t + [y] <==> s == t && x == y
  {
    if s + [x] == t + [y] {
      assert (s + [x])[..|s|] == s && (t + [y])[..|t|] == t;
      assert (s + [x])[|s|] == x && (t + [y])[|t|] == y;
    }
  }

  lemma FrontSame<T>(s: seq<T>, t: seq<T>, u: seq<T>)
    requires |s| == |t|
    ensures s + u == t + u <==> s == t
  {
    if s + u == t + u {
      assert (s + u)[..|s|] == s && (t + u)[..|t|] == t;
    }
  }

  lemma MatchNone(packages: seq<Pkg>, drive: string)
    ensures Match([], packages, drive) == Matched(packages, [], [])
  {
  }

  lemma LastNew(files: seq<File>)
    requires files != [] && Distinct(files)
    ensures !HasFile(files[..|files| - 1], files[|files| - 1].path)
  {
  }

  lemma DatedSame(f: File, ps: seq<Pkg>, qs: seq<Pkg>, drive: string)
    requires AllSameBut(ps, qs)
    ensures var i := MatchIndex(f, ps, drive);
      i < |ps| ==> (Dated(ps[i], f) == Dated(qs[i], f) <==> KeptSame(f, ps, qs, drive))
  {
    hide MatchIndex;
    var i := MatchIndex(f, ps, drive);
    if i < |ps| {
      assert SameBut(ps[i], qs[i]);
    }
  }

  lemma ForallSnoc(files: seq<File>, ps: seq<Pkg>, qs: seq<Pkg>, drive: string)
    requires files != [] && |ps| == |qs|
    ensures var n := |files| - 1;
      (forall k :: 0 <= k <= n ==> KeptSame(files[k], ps, qs, drive)) <==>
      KeptSame(files[n], ps, qs, drive) && forall k :: 0 <= k < n ==> KeptSame(files[..n][k], ps, qs, drive)
  {
    hide KeptSame;
    var n := |files| - 1;
    assert forall k :: 0 <= k < n ==> files[..n][k] == files[k];
  }

  /** Hashes set during the rebuild end up on the source's own entries as if they had been set before it, exactly if
    * they change no entry that is kept. */
  lemma HashKeptExactly(s: State, src: Source, files: seq<File>, parse: File -> Option<Pkg>, hashes: seq<Hash>)
    requires PathsKept(parse) && Distinct(files) && AllUnder(files, src.path)
    requires !Reread(files, s.packages, src.path, parse).provisional
    requires |Filter(s.packages, PkgOff(src.path))| + |files| <= MAX_PACKAGES
    ensures var t := s.(packages := SetHashes(s.packages, hashes));
      Filter(Rescan(s, src, files, parse, hashes).packages, PkgOn(src.path))
        == Filter(Rescan(t, src, files, parse, []).packages, PkgOn(src.path))
      <==> forall k :: 0 <= k < |files| ==> KeptSame(files[k], s.packages, t.packages, src.path)
  {
    hide Match, ParseAll, Filter, Distinct, PathsKept, AllUnder, Under, Rescan, SetHashes, KeptSame, AnyProvisional;
    var t := s.(packages := SetHashes(s.packages, hashes));
    HashesKeep(s.packages, hashes);
    KeptAlike(files, s.packages, t.packages, src.path);
    OthersHashed(files, s.packages, src.path, hashes);
    HashesLost(s, src, files, parse, hashes);
    HashesLost(t, src, files, parse, []);
    var m, r := Match(files, s.packages, src.path), Match(files, t.packages, src.path);
    FrontSame(m.kept, r.kept, ParseAll(m.unread, parse));
  }

  // --- a hash that is lost ---

  const HASHED := Pkg("/d/a", "a", 1, 1, "T", "N", "old")
  const NEXT_FILE := File("/d/b", "b", 1, 1)

  const OWN_FILE := File("/d/a", "a", 1, 1)

  lemma HashedMatch()
    ensures Match([OWN_FILE, NEXT_FILE], [HASHED], "/d") == Matched([HASHED], [HASHED], [NEXT_FILE])
    ensures Under(HASHED.path, "/d")
  {
    hide Match;
    var files := [OWN_FILE, NEXT_FILE];
    assert "/d" <= "/d/a" && "/d/a"[2] == '/';
    assert files[..1] == [OWN_FILE] && [OWN_FILE][..0] == [];
    MatchNone([HASHED], "/d");
    MatchStep([OWN_FILE], [HASHED], "/d");
    MatchStep(files, [HASHED], "/d");
    assert MatchIndex(OWN_FILE, [HASHED], "/d") == 0;
    assert MatchIndex(NEXT_FILE, [HASHED], "/d") == 1;
    assert [] + [HASHED] == [HASHED] && [] + [NEXT_FILE] == [NEXT_FILE];
    OnePackage(files);
  }

  lemma OnePackage(files: seq<File>)
    requires files == [OWN_FILE, NEXT_FILE]
    ensures Match(files, [HASHED], "/d").packages == [HASHED]
  {
    assert files[..1] == [OWN_FILE] && [OWN_FILE][..0] == [];
    assert "/d" <= "/d/a" && "/d/a"[2] == '/';
    assert [HASHED][0 := HASHED] == [HASHED] && Dated(HASHED, OWN_FILE) == HASHED;
    MatchNone([HASHED], "/d");
    assert MatchIndex(OWN_FILE, [HASHED], "/d") == 0;
    assert Match([OWN_FILE], [HASHED], "/d").packages == [HASHED];
    assert MatchIndex(NEXT_FILE, [HASHED], "/d") == 1;
  }

  lemma HashedStays()
    ensures var files := [OWN_FILE, NEXT_FILE];
      Filter([HASHED.(content := "new")], Stays("/d", false, files, [HASHED])) == []
  {
    hide Filter;
    HashedMatch();
    FilterAll([HASHED.(content := "new")], Stays("/d", false, [OWN_FILE, NEXT_FILE], [HASHED]));
  }

  /** The source lists the entry's file and one more, which makes for a rebuild; the entry's hash is set meanwhile, and
    * gone afterwards. */
  lemma HashGone(src: Source)
    requires src.path == "/d"
    ensures var hashes := [Hash("/d/a", "new")];
      && SetHashes([HASHED], hashes) == [HASHED.(content := "new")]
      && var r := Scan(State([HASHED], [], []), src, Files([OWN_FILE, NEXT_FILE]), _ => None, _ => false, hashes);
        r.1 && r.0.packages == [HASHED]
  {
    hide Match, Filter, Under, Refresh, UpsertAll, EntriesListed, FilesKnown, WasMounted, Stays;
    var hashes, parse: File -> Option<Pkg> := [Hash("/d/a", "new")], _ => None;
    OneHash();
    HashedMatch();
    HashedStays();
    assert Filter([], ScannedOn("/d")) == [] by { FilterAll([], ScannedOn("/d")); }
    NothingParsed(parse);
    assert [HASHED] + [] == [HASHED] && [] + [HASHED] == [HASHED];
  }

  lemma OneHash()
    ensures SetHashes([HASHED], [Hash("/d/a", "new")]) == [HASHED.(content := "new")]
  {
    var hashes := [Hash("/d/a", "new")];
    assert hashes[..0] == [];
    assert IndexOfPkg([HASHED], "/d/a") == 0;
  }

  lemma NothingParsed(parse: File -> Option<Pkg>)
    requires forall f :: parse(f).None?
    ensures ParseAll([NEXT_FILE], parse) == [] && !AnyProvisional([])
  {
    assert [NEXT_FILE][..0] == [];
  }

  // --- an unreadable file ---

  function Unlisted(files: seq<File>): Pkg -> bool {
    (p: Pkg) => !HasFile(files, p.path)
  }

  /** While some file cannot be read yet, no entry is lost for want of being listed. */
  lemma ProvisionalKeeps(files: seq<File>, packages: seq<Pkg>, drive: string, parse: File -> Option<Pkg>,
                         hashes: seq<Hash>)
    requires PathsKept(parse) && Distinct(files)
    requires var u := Reread(files, packages, drive, parse);
      |Filter(SetHashes(u.packages, hashes), Stays(drive, true, files, u.updated))| + |files| <= MAX_PACKAGES
    ensures var u := Reread(files, packages, drive, parse);
      Filter(Commit(files, SetHashes(u.packages, hashes), drive, u.updated, true), Unlisted(files))
      == Filter(SetHashes(packages, hashes), Unlisted(files))
  {
    hide Match, ParseAll, Filter, Distinct, PathsKept, Explained, Entries, Under, HasFile, SetHashes;
    var u := Reread(files, packages, drive, parse);
    var now := SetHashes(u.packages, hashes);
    EntriesAre(files, packages, drive, parse);
    EntriesShort(files, packages, drive, parse);
    var stays, unlisted := Stays(drive, true, files, u.updated), Unlisted(files);
    forall p: Pkg | p in u.updated
      ensures HasFile(files, p.path)
    {
      EntriesExplained(files, packages, drive, parse, p);
      ExplainedListed(p, files, packages, drive, parse);
    }
    forall p: Pkg | unlisted(p)
      ensures stays(p)
    {
    }
    FilterAll(u.updated, unlisted);
    FilterTwice(now, stays, unlisted);
    FilterJoined(Filter(now, stays), u.updated, unlisted);
    OthersHashed(files, packages, drive, hashes);
    FilterSame(now, SetHashes(packages, hashes), unlisted, unlisted);
  }

  // --- agreement with a full scan ---

  predicate SameButTime(p: Pkg, q: Pkg) {
    p.(mtime := q.mtime) == q
  }

  // What the catalogue says about a file of the same size and time is what reading it would say.
  ghost predicate Honest(packages: seq<Pkg>, files: seq<File>, drive: string, parse: File -> Option<Pkg>) {
    forall k, f :: 0 <= k < |packages| && Under(packages[k].path, drive) && f in files && Same(f, packages[k]) ==>
      parse(f).Some? && SameButTime(packages[k], parse(f).value)
  }

  /** If sizes and times tell files apart, the entries are those of a full scan, apart from their times. */
  lemma AgreesWithFullScan(after: seq<Pkg>, files: seq<File>, before: seq<Pkg>, others: seq<Pkg>, drive: string,
                           parse: File -> Option<Pkg>)
    requires Faithful(after, files, before, others, drive, parse) && Honest(before, files, drive, parse)
    ensures forall k :: 0 <= k < |files| ==>
      Count(after, files[k].path) == if parse(files[k]).Some? then 1 else 0
    ensures forall p :: p in after && Under(p.path, drive) ==>
      exists k :: 0 <= k < |files| && parse(files[k]).Some? && SameButTime(p, parse(files[k]).value)
  {
    hide Count, Filter, Under;
    forall p | p in after && Under(p.path, drive)
      ensures exists k :: 0 <= k < |files| && parse(files[k]).Some? && SameButTime(p, parse(files[k]).value)
    {
      var k :| 0 <= k < |files| && From(p, files[k], before, drive, parse);
      assert files[k] in files;
    }
    forall k | 0 <= k < |files| && MayKeep(files[k], before, drive)
      ensures parse(files[k]).Some?
    {
      assert files[k] in files;
    }
  }

  // --- a second scan ---

  // Every listed file can be read, and its time is known.
  ghost predicate Readable(files: seq<File>, parse: File -> Option<Pkg>) {
    forall f :: f in files ==>
      && f.mtime != 0
      && parse(f).Some? && parse(f).value.size == f.size && parse(f).value.mtime == f.mtime
  }

  lemma {:induction false} UnreadListed(files: seq<File>, packages: seq<Pkg>, drive: string)
    ensures forall f :: f in Match(files, packages, drive).unread ==> f in files
  {
    if files != [] {
      UnreadListed(files[..|files| - 1], packages, drive);
    }
  }

  lemma {:induction false} AllParsed(files: seq<File>, parse: File -> Option<Pkg>)
    requires forall f :: f in files ==> parse(f).Some?
    ensures |ParseAll(files, parse)| == |files|
  {
    if files != [] {
      AllParsed(files[..|files| - 1], parse);
    }
  }

  function Recordings(files: seq<File>): (r: seq<Scanned>)
    ensures |r| == |files| && forall k :: 0 <= k < |r| ==> r[k] == Record(files[k])
  {
    if files == [] then [] else Recordings(files[..|files| - 1]) + [Record(files[|files| - 1])]
  }

  /** New paths are simply appended to the records. */
  lemma {:induction false} AllAppended(s: seq<Scanned>, files: seq<File>)
    requires Distinct(files) && forall k :: 0 <= k < |files| ==> files[k].path != ""
    requires forall i, k :: 0 <= i < |s| && 0 <= k < |files| ==> s[i].path != files[k].path
    ensures UpsertAll(s, files) == s + Recordings(files)
  {
    if files != [] {
      var n := |files| - 1;
      AllAppended(s, files[..n]);
      assert s + Recordings(files) == s + Recordings(files[..n]) + [Record(files[n])];
    }
  }

  lemma RecordsAfter(scanned: seq<Scanned>, files: seq<File>, drive: string)
    requires Distinct(files) && AllUnder(files, drive)
    ensures var r := UpsertAll(Filter(scanned, ScannedOff(drive)), files);
      && |Filter(r, ScannedOn(drive))| == |files|
      && forall k :: 0 <= k < |files| ==> Recorded(files[k], r, drive)
  {
    hide Filter, UpsertAll, Distinct;
    var off, new_ := Filter(scanned, ScannedOff(drive)), Recordings(files);
    InFilter(scanned, ScannedOff(drive));
    assert forall i :: 0 <= i < |off| ==> off[i] in off;
    AllAppended(off, files);
    FilterJoined(off, new_, ScannedOn(drive));
    FilterAll(off, ScannedOn(drive));
    FilterAll(new_, ScannedOn(drive));
    forall k | 0 <= k < |files|
      ensures Recorded(files[k], off + new_, drive)
    {
      assert (off + new_)[|off| + k] == Record(files[k]);
    }
  }

  lemma UpdatedListed(p: Pkg, files: seq<File>, packages: seq<Pkg>, drive: string, parse: File -> Option<Pkg>)
    requires Explained(p, files, packages, drive, parse) && Readable(files, parse)
    ensures p.mtime != 0 && Listed(p, files)
  {
    var k :| 0 <= k < |files| && From(p, files[k], packages, drive, parse);
    assert files[k] in files;
    assert files[k].path == p.path && files[k].size == p.size;
    assert Near(files[k].mtime, p.mtime);
  }

  lemma AllEntered(files: seq<File>, packages: seq<Pkg>, drive: string, parse: File -> Option<Pkg>)
    requires Readable(files, parse)
    ensures |Entries(files, packages, drive, parse)| == |files|
  {
    UnreadListed(files, packages, drive);
    AllParsed(Match(files, packages, drive).unread, parse);
  }

  /** After a rebuild from readable files the same listing is recognised. */
  lemma RebuildKnown(files: seq<File>, packages: seq<Pkg>, scanned: seq<Scanned>, drive: string,
                     parse: File -> Option<Pkg>, laterPart: string -> bool, hashes: seq<Hash>)
    requires PathsKept(parse) && Distinct(files) && AllUnder(files, drive) && Readable(files, parse)
    requires |Filter(packages, PkgOff(drive))| + |files| <= MAX_PACKAGES
    ensures var u := Reread(files, packages, drive, parse);
      var after := Commit(files, SetHashes(u.packages, hashes), drive, u.updated, false);
      && |Filter(after, PkgOn(drive))| == |files|
      && EntriesListed(after, files, drive)
      && FilesKnown(files, after, UpsertAll(Filter(scanned, ScannedOff(drive)), files), drive, laterPart)
  {
    hide Match, ParseAll, Filter, UpsertAll, Distinct, PathsKept, Explained, Entries, Under, Commit, Recorded, Listed,
         Count, MayKeep, AllUnder, SetHashes;
    var u := Reread(files, packages, drive, parse);
    var after := Commit(files, SetHashes(u.packages, hashes), drive, u.updated, false);
    EntriesAre(files, packages, drive, parse);
    CommitIs(files, packages, drive, parse, hashes);
    AllEntered(files, packages, drive, parse);
    RecordsAfter(scanned, files, drive);
    RebuildFaithful(files, packages, drive, parse, hashes);
    var others := SetHashes(packages, hashes);
    InFilter(others, PkgOff(drive));
    var off := Filter(others, PkgOff(drive));
    FilterJoined(off, u.updated, PkgOn(drive));
    FilterAll(off, PkgOn(drive));
    forall k | 0 <= k < |after| && Under(after[k].path, drive)
      ensures after[k].mtime != 0 && Listed(after[k], files)
    {
      UpdatedListed(after[k], files, packages, drive, parse);
    }
    forall k | 0 <= k < |files|
      ensures HasEntry(files[k], after, drive)
    {
      assert files[k] in files;
      CountNone(after, files[k].path);
      var j :| 0 <= j < |after| && after[j].path == files[k].path;
      UnderOne(files, drive, k);
    }
  }

  lemma UnderOne(files: seq<File>, drive: string, k: nat)
    requires k < |files| && AllUnder(files, drive)
    ensures Under(files[k].path, drive)
  {
  }

  lemma NowMounted(drives: seq<Drive>, src: Source, count: nat, added: nat)
    requires DriveIndex(drives, src) < |drives| || |drives| < MAX_DRIVES
    ensures WasMounted(Refresh(drives, src, count, added), src)
  {
    var i := DriveIndex(drives, src);
    var after := Refresh(drives, src, count, added);
    assert Mentions(after[i], src) && after[i].mounted;
    assert forall k :: 0 <= k < i ==> after[k] == drives[k];
    var j := DriveIndex(after, src);
    assert j == i;
  }

  /** Scanning the same readable files again takes the fast path: packages and records stay as they are. */
  lemma ScanTwice(s: State, src: Source, files: seq<File>, parse: File -> Option<Pkg>, laterPart: string -> bool,
                  hashes: seq<Hash>)
    requires PathsKept(parse) && Distinct(files) && AllUnder(files, src.path) && Readable(files, parse)
    requires !Reread(files, s.packages, src.path, parse).provisional
    requires |Filter(s.packages, PkgOff(src.path))| + |files| <= MAX_PACKAGES
    requires DriveIndex(s.drives, src) < |s.drives| || |s.drives| < MAX_DRIVES
    ensures var t := Scan(s, src, Files(files), parse, laterPart, hashes).0;
      var again := Scan(t, src, Files(files), parse, laterPart, []);
      !again.1 && again.0.packages == t.packages && again.0.scanned == t.scanned
  {
    hide Reread, Commit, Filter, UpsertAll, EntriesListed, FilesKnown, Readable, Refresh, WasMounted, DriveIndex,
         Distinct, PathsKept, AllUnder, Faithful, SetHashes;
    var t := Scan(s, src, Files(files), parse, laterPart, hashes).0;
    if Identical(src, files, s.packages, s.scanned, s.drives, laterPart) {
      var n := |Filter(s.packages, PkgOn(src.path))|;
      NowMounted(s.drives, src, n, n);
      assert Identical(src, files, t.packages, t.scanned, t.drives, laterPart);
    } else {
      var u := Reread(files, s.packages, src.path, parse);
      RebuildKnown(files, s.packages, s.scanned, src.path, parse, laterPart, hashes);
      RecordsAfter(s.scanned, files, src.path);
      NowMounted(s.drives, src, |Filter(t.packages, PkgOn(src.path))|, |u.updated|);
      assert Identical(src, files, t.packages, t.scanned, t.drives, laterPart);
    }
  }
}
