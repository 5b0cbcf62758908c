/** What a quick scan does to entries, records and drives, in terms of paths, sizes and times alone. */
module ScanOutcomes {
  import opened Wrappers
  import Q = QuickScan

  // --- in plain terms ---

  /** The path is the drive's, or goes on behind it with a slash. */
  predicate Below(path: string, drive: string) {
    && drive != "" && |drive| <= |path| && path[..|drive|] == drive
    && (path == drive || drive[|drive| - 1] == '/' || path[|drive|] == '/')
  }

  lemma UnderIs(path: string, drive: string)
    ensures Q.Under(path, drive) <==> Below(path, drive)
  {
    if |drive| <= |path| {
      assert path == path[..|drive|] + path[|drive|..];
    }
  }

  /** The first drive that has the source's path or identifier. */
  predicate First(drives: seq<Q.Drive>, src: Q.Source, i: nat) {
    && i < |drives| && (drives[i].path == src.path || drives[i].id == src.id)
    && forall k :: 0 <= k < i ==> drives[k].path != src.path && drives[k].id != src.id
  }

  predicate Unknown(drives: seq<Q.Drive>, src: Q.Source) {
    forall k :: 0 <= k < |drives| ==> drives[k].path != src.path && drives[k].id != src.id
  }

  lemma FirstIs(drives: seq<Q.Drive>, src: Q.Source)
    ensures var i := Q.DriveIndex(drives, src);
      if i < |drives| then First(drives, src, i) && !Unknown(drives, src) else Unknown(drives, src)
    ensures forall i: nat, j: nat :: First(drives, src, i) && First(drives, src, j) ==> i == j
    ensures forall i: nat :: First(drives, src, i) ==> i == Q.DriveIndex(drives, src) < |drives|
  {
    var n := Q.DriveIndex(drives, src);
    if n < |drives| {
      assert Q.Mentions(drives[n], src);
    }
    assert forall k :: 0 <= k < n ==> !Q.Mentions(drives[k], src);
  }

  ghost predicate NoneBelow(s: Q.State, drive: string) {
    && (forall k :: 0 <= k < |s.packages| ==> !Below(s.packages[k].path, drive))
    && (forall k :: 0 <= k < |s.scanned| ==> !Below(s.scanned[k].path, drive))
  }

  // --- nothing reliable, or nothing there ---

  /** A listing that failed changes nothing. */
  lemma FailedChangesNothing(s: Q.State, src: Q.Source, parse: Q.File -> Option<Q.Pkg>, laterPart: string -> bool,
                             hashes: seq<Q.Hash>)
    ensures Q.Scan(s, src, Q.Failed, parse, laterPart, hashes) == (s, false)
  {
  }

  lemma {:induction false} KeptCount<T(!new)>(s: seq<T>, keep: T -> bool, drop: T -> bool)
    requires forall x :: keep(x) <==> !drop(x)
    ensures |Q.Filter(s, keep)| + |Q.Filter(s, drop)| == |s|
  {
    if s != [] {
      KeptCount(s[..|s| - 1], keep, drop);
    }
  }

  /** Where each element of what is kept stood before. */
  lemma {:induction false} KeptInOrder<T(!new)>(s: seq<T>, keep: T -> bool) returns (places: seq<nat>)
    ensures |places| == |Q.Filter(s, keep)|
    ensures forall i :: 0 <= i < |places| ==> places[i] < |s| && Q.Filter(s, keep)[i] == s[places[i]]
    ensures forall i, j :: 0 <= i < j < |places| ==> places[i] < places[j]
    ensures forall k :: 0 <= k < |s| && keep(s[k]) ==> k in places
  {
    if s == [] {
      places := [];
    } else {
      var n := |s| - 1;
      places := KeptInOrder(s[..n], keep);
      if keep(s[n]) {
        places := places + [n];
        assert places[|places| - 1] == n;
      }
      forall k | 0 <= k < |s| && keep(s[k])
        ensures k in places
      {
        if k < n {
          assert s[..n][k] == s[k];
        }
      }
    }
  }

  /** A source that is not mounted loses its entries and records; those of other sources stay as they are, in order. */
  lemma AfterUnmount(s: Q.State, src: Q.Source, parse: Q.File -> Option<Q.Pkg>, laterPart: string -> bool,
                     hashes: seq<Q.Hash>)
    ensures var t := Q.Scan(s, src, Q.Unmounted, parse, laterPart, hashes).0;
      && NoneBelow(t, src.path)
      && Q.Filter(t.packages, Q.PkgOff(src.path)) == Q.Filter(s.packages, Q.PkgOff(src.path)) == t.packages
      && Q.Filter(t.packages, Q.PkgOn(src.path)) == []
      && Q.Filter(t.scanned, Q.ScannedOff(src.path)) == Q.Filter(s.scanned, Q.ScannedOff(src.path)) == t.scanned
      && (forall k :: 0 <= k < |s.packages| && !Below(s.packages[k].path, src.path) ==> s.packages[k] in t.packages)
      && (forall k :: 0 <= k < |s.scanned| && !Below(s.scanned[k].path, src.path) ==> s.scanned[k] in t.scanned)
  {
    hide Q.Filter, Q.Under, Below, Q.DriveIndex;
    var drive := src.path;
    Q.InFilter(s.packages, Q.PkgOff(drive));
    Q.InFilter(s.scanned, Q.ScannedOff(drive));
    BelowAll(drive);
    var t := Q.Scan(s, src, Q.Unmounted, parse, laterPart, hashes).0;
    assert forall k :: 0 <= k < |t.packages| ==> t.packages[k] in t.packages;
    assert forall k :: 0 <= k < |t.scanned| ==> t.scanned[k] in t.scanned;
    Q.FilterAll(t.packages, Q.PkgOff(drive));
    Q.FilterAll(t.packages, Q.PkgOn(drive));
    Q.FilterAll(t.scanned, Q.ScannedOff(drive));
  }

  lemma BelowAll(drive: string)
    ensures forall p: string :: Q.Under(p, drive) <==> Below(p, drive)
  {
    hide Q.Under, Below;
    forall p: string
      ensures Q.Under(p, drive) <==> Below(p, drive)
    {
      UnderIs(p, drive);
    }
  }

  /** Its drive, the first that mentions it, is marked, other drives stay as they are; and it counts as a change exactly
    * if there was an entry, or the drive was mounted. */
  lemma DriveUnmounted(s: Q.State, src: Q.Source, parse: Q.File -> Option<Q.Pkg>, laterPart: string -> bool,
                       hashes: seq<Q.Hash>)
    ensures var (t, changed) := Q.Scan(s, src, Q.Unmounted, parse, laterPart, hashes);
      && (Unknown(s.drives, src) ==> t.drives == s.drives)
      && (forall i: nat :: First(s.drives, src, i) ==>
            t.drives == s.drives[i := s.drives[i].(mounted := false, count := 0, clickable := false)])
      && (changed <==>
            || (exists k :: 0 <= k < |s.packages| && Below(s.packages[k].path, src.path))
            || (exists i: nat :: First(s.drives, src, i) && s.drives[i].mounted))
  {
    hide Q.Filter, Q.Under, Below, Q.DriveIndex, First, Unknown;
    var drive := src.path;
    Q.InFilter(s.packages, Q.PkgOn(drive));
    BelowAll(drive);
    FirstIs(s.drives, src);
    var on := Q.Filter(s.packages, Q.PkgOn(drive));
    if on != [] {
      assert on[0] in s.packages;
      var k :| 0 <= k < |s.packages| && s.packages[k] == on[0];
      assert Below(s.packages[k].path, drive);
    }
    forall k | 0 <= k < |s.packages| && Below(s.packages[k].path, drive)
      ensures on != []
    {
      assert s.packages[k] in on;
    }
  }

  // --- drives of a source that is there ---

  /** The first drive that the source is mentioned by is mounted now, with the number of its entries; a source that no
    * drive mentions gets one, unless there are 16. Other drives stay as they are. */
  lemma DrivesAfter(s: Q.State, src: Q.Source, files: seq<Q.File>, parse: Q.File -> Option<Q.Pkg>,
                    laterPart: string -> bool, hashes: seq<Q.Hash>)
    ensures var t := Q.Scan(s, src, Q.Files(files), parse, laterPart, hashes).0;
      var n := |Q.Filter(t.packages, Q.PkgOn(src.path))|;
      && (forall i: nat :: First(s.drives, src, i) ==>
            t.drives == s.drives[i := s.drives[i].(mounted := true, count := n, clickable := n > 0)])
      && (Unknown(s.drives, src) && |s.drives| >= 16 ==> t.drives == s.drives)
      && (Unknown(s.drives, src) && |s.drives| < 16 ==>
            && |t.drives| == |s.drives| + 1 && t.drives[..|s.drives|] == s.drives
            && var d := t.drives[|s.drives|];
              && d.id == src.id && d.title == src.title && d.path == src.path && d.kind == src.kind && d.mounted
              && (d.clickable <==> d.count > 0 || src.kind == "smb"))
  {
    hide Q.Filter, Q.Identical, Q.Reread, Q.Commit, Q.UpsertAll, Q.DriveIndex, First, Unknown, Q.SetHashes;
    FirstIs(s.drives, src);
  }

  /** A new drive's count is the number of the source's entries too, if nothing is unreadable and there is room. */
  lemma NewDriveCount(s: Q.State, src: Q.Source, files: seq<Q.File>, parse: Q.File -> Option<Q.Pkg>,
                      laterPart: string -> bool, hashes: seq<Q.Hash>)
    requires Q.PathsKept(parse) && Q.Distinct(files) && Q.AllUnder(files, src.path)
    requires !Q.Reread(files, s.packages, src.path, parse).provisional
    requires |Q.Filter(s.packages, Q.PkgOff(src.path))| + |files| <= Q.MAX_PACKAGES
    requires Unknown(s.drives, src) && |s.drives| < 16
    ensures var t := Q.Scan(s, src, Q.Files(files), parse, laterPart, hashes).0;
      |t.drives| == |s.drives| + 1 && t.drives[|s.drives|].count == |Q.Filter(t.packages, Q.PkgOn(src.path))|
  {
    hide Q.Filter, Q.Identical, Q.Reread, Q.Commit, Q.UpsertAll, Q.DriveIndex, First, Unknown, Q.SetHashes, Q.Distinct,
         Q.PathsKept, Q.AllUnder;
    FirstIs(s.drives, src);
    Q.HashesLost(s, src, files, parse, hashes);
  }

  // --- records ---

  /** After a rebuild the source's records are those of the listed files, with their sizes and times, behind those of
    * other sources. */
  lemma RecordsAre(s: Q.State, src: Q.Source, files: seq<Q.File>, parse: Q.File -> Option<Q.Pkg>,
                   laterPart: string -> bool, hashes: seq<Q.Hash>)
    requires Q.Distinct(files) && Q.AllUnder(files, src.path)
    requires !Q.Reread(files, s.packages, src.path, parse).provisional
    requires Q.Scan(s, src, Q.Files(files), parse, laterPart, hashes).1
    ensures var t := Q.Scan(s, src, Q.Files(files), parse, laterPart, hashes).0;
      var n := |t.scanned| - |files|;
      && n >= 0 && t.scanned[..n] == Q.Filter(s.scanned, Q.ScannedOff(src.path))
      && (forall k :: 0 <= k < n ==> !Below(t.scanned[k].path, src.path))
      && forall k :: 0 <= k < |files| ==> t.scanned[n + k] == Q.Scanned(files[k].path, files[k].size, files[k].mtime)
  {
    hide Q.Filter, Q.Identical, Q.Reread, Q.Commit, Q.UpsertAll, Q.Refresh, Q.SetHashes, Q.Distinct, Q.Under, Below;
    var off := Q.Filter(s.scanned, Q.ScannedOff(src.path));
    Q.InFilter(s.scanned, Q.ScannedOff(src.path));
    assert forall i :: 0 <= i < |off| ==> off[i] in off;
    forall i | 0 <= i < |off|
      ensures !Below(off[i].path, src.path)
    {
      UnderIs(off[i].path, src.path);
    }
    PathsGiven(files, src.path);
    Q.AllAppended(off, files);
  }

  lemma PathsGiven(files: seq<Q.File>, drive: string)
    requires Q.AllUnder(files, drive)
    ensures forall k :: 0 <= k < |files| ==> files[k].path != ""
  {
  }

  /** There are never more than 4096 entries; what a rebuild leaves out for lack of room are the last of its own. */
  lemma CatalogueFits(s: Q.State, src: Q.Source, listing: Q.Listing, parse: Q.File -> Option<Q.Pkg>,
                      laterPart: string -> bool, hashes: seq<Q.Hash>)
    requires |s.packages| <= 4096
    ensures |Q.Scan(s, src, listing, parse, laterPart, hashes).0.packages| <= 4096
    ensures var u := Q.Reread(if listing.Files? then listing.files else [], s.packages, src.path, parse);
      var (t, changed) := Q.Scan(s, src, listing, parse, laterPart, hashes);
      listing.Files? && changed ==>
        exists stay, n: nat :: n <= |u.updated| && t.packages == stay + u.updated[..n]
          && (n < |u.updated| ==> |t.packages| == 4096)
  {
    hide Q.Filter, Q.Identical, Q.Match, Q.ParseAll, Q.UpsertAll, Q.SetHashes;
    if listing.Files? && Q.Scan(s, src, listing, parse, laterPart, hashes).1 {
      var files := listing.files;
      var u := Q.Reread(files, s.packages, src.path, parse);
      var stay := Q.Filter(Q.SetHashes(u.packages, hashes), Q.Stays(src.path, u.provisional, files, u.updated));
      var taken := Q.Take(u.updated, 4096 - |stay|);
      assert taken == u.updated[..|taken|];
      assert Q.Scan(s, src, listing, parse, laterPart, hashes).0.packages == stay + u.updated[..|taken|];
    }
  }

  // --- which entries are kept ---

  /** The old entry is kept for the file, or the file is read: kept if path and size are the same and the times no more
    * than two seconds apart, or one of them unknown. */
  predicate Fits(f: Q.File, p: Q.Pkg) {
    && f.path == p.path && f.size == p.size
    && (f.mtime == 0 || p.mtime == 0 || (f.mtime <= p.mtime + 2 && p.mtime <= f.mtime + 2))
  }

  lemma OneFile(p: Q.Pkg, f: Q.File, drive: string, parse: Q.File -> Option<Q.Pkg>)
    requires Below(p.path, drive)
    ensures var u := Q.Reread([f], [p], drive, parse);
      u.updated ==
        if Fits(f, p) then [p.(mtime := if p.mtime == 0 then f.mtime else p.mtime)]
        else if parse(f).Some? then [parse(f).value]
        else []
    ensures var u := Q.Reread([f], [p], drive, parse);
      u.provisional <==>
        !Fits(f, p) && parse(f).Some? && parse(f).value.titleId == "UNKNOWN"
        && parse(f).value.titleName == "Unknown Package"
  {
    hide Q.Match, Q.ParseAll, Q.AnyProvisional, Below, Fits;
    OneMatch(p, f, drive);
    OneParsed(f, parse);
  }

  lemma OneMatch(p: Q.Pkg, f: Q.File, drive: string)
    requires Below(p.path, drive)
    ensures var m := Q.Match([f], [p], drive);
      if Fits(f, p) then m.kept == [p.(mtime := if p.mtime == 0 then f.mtime else p.mtime)] && m.unread == []
      else m.kept == [] && m.unread == [f]
  {
    hide Q.Under, Below;
    UnderIs(p.path, drive);
    assert [f][..0] == [] && [p][1..] == [];
    Q.MatchNone([p], drive);
    assert Q.MatchIndex(f, [p], drive) == if Fits(f, p) then 0 else 1;
    Q.MatchStep([f], [p], drive);
  }

  lemma OneParsed(f: Q.File, parse: Q.File -> Option<Q.Pkg>)
    ensures Q.ParseAll([], parse) == [] && !Q.AnyProvisional([])
    ensures Q.ParseAll([f], parse) == if parse(f).Some? then [parse(f).value] else []
    ensures parse(f).Some? ==>
      (Q.AnyProvisional([parse(f).value]) <==>
         parse(f).value.titleId == "UNKNOWN" && parse(f).value.titleName == "Unknown Package")
  {
    assert [f][..0] == [];
    if parse(f).Some? {
      assert [parse(f).value][0] == parse(f).value;
    }
  }

  // --- when reading is skipped ---

  /** A listed file that says the same of path, size and time as far as they are known. */
  predicate Alike(f: Q.File, path: string, size: nat, mtime: Q.Time) {
    && f.path == path && f.size == size
    && (f.mtime == 0 || (f.mtime <= mtime + 2 && mtime <= f.mtime + 2))
  }

  // Each entry of the source has a time, and a listed file that is alike.
  ghost predicate EntriesStand(s: Q.State, files: seq<Q.File>, drive: string) {
    forall k :: 0 <= k < |s.packages| && Below(s.packages[k].path, drive) ==>
      && s.packages[k].mtime != 0
      && exists j :: 0 <= j < |files| && Alike(files[j], s.packages[k].path, s.packages[k].size, s.packages[k].mtime)
  }

  // A record of the source says the same as a listed file, or the same but for a time it does not have.
  ghost predicate Matched(f: Q.File, scanned: seq<Q.Scanned>, drive: string) {
    exists k :: 0 <= k < |scanned| && Below(scanned[k].path, drive)
      && (|| Alike(f, scanned[k].path, scanned[k].size, scanned[k].mtime)
          || (scanned[k].mtime == 0 && scanned[k].path == f.path && scanned[k].size == f.size))
  }

  ghost predicate Entered(f: Q.File, packages: seq<Q.Pkg>, drive: string) {
    exists k :: 0 <= k < |packages| && Below(packages[k].path, drive) && packages[k].path == f.path
  }

  // Each listed file has such a record, and an entry, unless it is a later part.
  ghost predicate FilesStand(s: Q.State, files: seq<Q.File>, drive: string, laterPart: string -> bool) {
    forall j :: 0 <= j < |files| ==>
      && Matched(files[j], s.scanned, drive)
      && (laterPart(files[j].path) || Entered(files[j], s.packages, drive))
  }

  lemma EntriesStandIs(s: Q.State, files: seq<Q.File>, drive: string)
    ensures Q.EntriesListed(s.packages, files, drive) <==> EntriesStand(s, files, drive)
  {
    hide Q.Under, Below;
    BelowAll(drive);
    forall p: Q.Pkg
      ensures Q.Listed(p, files) <==> exists j :: 0 <= j < |files| && Alike(files[j], p.path, p.size, p.mtime)
    {
      ListedIs(p, files);
    }
  }

  lemma ListedIs(p: Q.Pkg, files: seq<Q.File>)
    ensures Q.Listed(p, files) <==> exists j :: 0 <= j < |files| && Alike(files[j], p.path, p.size, p.mtime)
  {
    forall j | 0 <= j < |files|
      ensures Alike(files[j], p.path, p.size, p.mtime) <==>
        files[j].path == p.path && files[j].size == p.size
        && (Q.Near(files[j].mtime, p.mtime) || files[j].mtime == 0)
    {
    }
  }

  lemma MatchedIs(f: Q.File, scanned: seq<Q.Scanned>, drive: string)
    ensures Q.Recorded(f, scanned, drive) <==> Matched(f, scanned, drive)
  {
    hide Q.Under, Below, Alike;
    BelowAll(drive);
    forall k | 0 <= k < |scanned|
      ensures Alike(f, scanned[k].path, scanned[k].size, scanned[k].mtime) <==>
        scanned[k].path == f.path && scanned[k].size == f.size
        && (Q.Near(f.mtime, scanned[k].mtime) || f.mtime == 0)
    {
      AlikeIs(f, scanned[k].path, scanned[k].size, scanned[k].mtime);
    }
  }

  lemma AlikeIs(f: Q.File, path: string, size: nat, mtime: Q.Time)
    ensures Alike(f, path, size, mtime) <==>
      path == f.path && size == f.size && (Q.Near(f.mtime, mtime) || f.mtime == 0)
  {
  }

  lemma EnteredIs(f: Q.File, packages: seq<Q.Pkg>, drive: string)
    ensures Q.HasEntry(f, packages, drive) <==> Entered(f, packages, drive)
  {
    hide Q.Under, Below;
    BelowAll(drive);
  }

  lemma FilesStandIs(s: Q.State, files: seq<Q.File>, drive: string, laterPart: string -> bool)
    ensures Q.FilesKnown(files, s.packages, s.scanned, drive, laterPart) <==> FilesStand(s, files, drive, laterPart)
  {
    hide Q.Recorded, Q.HasEntry, Matched, Entered;
    forall j | 0 <= j < |files|
      ensures Q.Recorded(files[j], s.scanned, drive) <==> Matched(files[j], s.scanned, drive)
      ensures Q.HasEntry(files[j], s.packages, drive) <==> Entered(files[j], s.packages, drive)
    {
      MatchedIs(files[j], s.scanned, drive);
      EnteredIs(files[j], s.packages, drive);
    }
  }

  /** Reading is skipped, and entries and records stay as they are, exactly if there are as many listed files as records
    * of the source, and: none is listed, there is no entry, and the drive was mounted; or there are entries, no more
    * than files, each stands for a listed file, and each file has its record and its entry. */
  lemma SkipsExactly(s: Q.State, src: Q.Source, files: seq<Q.File>, parse: Q.File -> Option<Q.Pkg>,
                     laterPart: string -> bool, hashes: seq<Q.Hash>)
    ensures var (t, changed) := Q.Scan(s, src, Q.Files(files), parse, laterPart, hashes);
      var entries := |Q.Filter(s.packages, Q.PkgOn(src.path))|;
      && (!changed ==> t.packages == s.packages && t.scanned == s.scanned)
      && (!changed <==>
            && |files| == |Q.Filter(s.scanned, Q.ScannedOn(src.path))|
            && if files == [] then entries == 0 && exists i: nat :: First(s.drives, src, i) && s.drives[i].mounted
               else 0 < entries <= |files| && EntriesStand(s, files, src.path)
                    && FilesStand(s, files, src.path, laterPart))
  {
    hide Q.Filter, Q.EntriesListed, Q.FilesKnown, Q.Rescan, Q.Refresh, First, Unknown, EntriesStand, FilesStand,
         Q.DriveIndex;
    FirstIs(s.drives, src);
    EntriesStandIs(s, files, src.path);
    FilesStandIs(s, files, src.path, laterPart);
  }
}
