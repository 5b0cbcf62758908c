/** Reading a split package from beginning to end, one disc after the other. */
module DiscSwapping {
  import opened Bytes
  import opened StreamMap
  import Slices
  import Splitter
  import PartHeader
  import opened Wrappers
  import V = VirtualStream

  type Cut = c: Slices.Cut | Slices.ValidCut(c) && c.first <= c.rest && c.total < TWO_POW_64
    witness Slices.Cut(0, 1, 1)

  /** The range part k really has. */
  function Real(c: Cut, k: nat): Range
    requires k < Slices.Count(c)
  {
    Slices.SliceBounds(c, k);
    Range(true, Slices.Start(c, k), Slices.Length(c, k))
  }

  /** What the stream believes once the first m parts are known. */
  ghost predicate Believes(rs: seq<Range>, c: Cut, m: nat) {
    && 1 <= m <= |rs| == Slices.Count(c)
    && (forall k :: 0 <= k < m ==> rs[k] == Real(c, k))
    && (forall k :: m <= k < |rs| ==> rs[k] == Guessed(c.first, c.total, |rs|, k))
  }

  /** The truths agree with the cut. */
  ghost predicate Describes(truths: seq<Truth>, c: Cut) {
    && |truths| == Slices.Count(c)
    && forall k :: 0 <= k < |truths| ==> Range(true, truths[k].start, truths[k].size) == Real(c, k)
  }

  /** The guess for part k still contains the byte where the part really begins. */
  ghost predicate GoodGuess(c: Cut, k: nat) {
    k == Slices.Count(c) - 1 || (k - 1) * (c.rest - c.first) < c.first
  }

  /** No part but the last is guessed too far off. */
  ghost predicate InOrder(c: Cut) {
    (Slices.Count(c) - 3) * (c.rest - c.first) < c.first
  }

  lemma InOrderIff(c: Cut)
    ensures InOrder(c) <==> forall k :: 1 <= k < Slices.Count(c) ==> GoodGuess(c, k)
  {
    hide Slices.Count;
    var n: int, d := Slices.Count(c), c.rest - c.first;
    if n >= 3 {
      assert GoodGuess(c, n - 2) <==> InOrder(c);
      forall k | 1 <= k < n && InOrder(c)
        ensures GoodGuess(c, k)
      {
        if k <= n - 2 {
          MulMono(k - 1, n - 3, d);
        }
      }
    } else {
      MulMono(n - 3, 0, d);
    }
  }

  lemma MulMono(a: int, b: int, d: nat)
    requires a <= b
    ensures a * d <= b * d
  {
  }

  lemma RealCovers(c: Cut, k: nat, o: nat)
    requires k < Slices.Count(c)
    ensures Covers(Real(c, k), o) <==> Slices.Start(c, k) <= o < Slices.End(c, k)
  {
    hide Slices.Count;
    Slices.SliceBounds(c, k);
  }

  lemma MultipleBelowStart(c: Cut, k: nat)
    ensures k * c.first <= Slices.Start(c, k)
  {
    if k > 0 {
      Slices.StartFromFirst(c, k);
      MulMono(0, k - 1, c.rest - c.first);
    }
  }

  /** Guesses are plain multiples of the first slice's size; nothing wraps around. */
  lemma {:induction false} GuessIsMultiple(c: Cut, k: nat)
    requires k < Slices.Count(c)
    ensures GuessedStart(c.first, k) == k * c.first <= Slices.Start(c, k)
    decreases k
  {
    hide Slices.Count, Slices.Start;
    MultipleBelowStart(c, k);
    Slices.SliceBounds(c, k);
    if k > 0 {
      GuessIsMultiple(c, k - 1);
      assert k * c.first == (k - 1) * c.first + c.first;
    }
  }

  lemma GuessCovers(c: Cut, k: nat, o: nat)
    requires 1 <= k < Slices.Count(c)
    ensures Covers(Guessed(c.first, c.total, Slices.Count(c), k), o) <==>
      k * c.first <= o < if k == Slices.Count(c) - 1 then c.total else (k + 1) * c.first
  {
    hide Slices.Count, GuessedStart, Slices.Start, Guessed, Covers;
    GuessIsMultiple(c, k);
    Slices.SliceBounds(c, k);
    NextMultiple(k, c.first);
    if k < Slices.Count(c) - 1 {
      GuessIsMultiple(c, k + 1);
      Slices.SliceBounds(c, k + 1);
    }
    GuessedCovers(c, k, o);
  }

  lemma NextMultiple(k: nat, a: nat)
    ensures (k + 1) * a == k * a + a
  {
  }

  lemma GuessedCovers(c: Cut, k: nat, o: nat)
    requires 1 <= k < Slices.Count(c) && GuessedStart(c.first, k) <= c.total
    requires k == Slices.Count(c) - 1 || GuessedStart(c.first, k) + c.first <= c.total
    ensures var start := GuessedStart(c.first, k);
      Covers(Guessed(c.first, c.total, Slices.Count(c), k), o) <==>
      start <= o < if k == Slices.Count(c) - 1 then c.total else start + c.first
  {
    hide Slices.Count, GuessedStart;
  }

  lemma GoodGuessCovers(c: Cut, m: nat)
    requires 1 <= m < Slices.Count(c)
    ensures m * c.first <= Slices.Start(c, m) < c.total
    ensures GoodGuess(c, m) <==> Covers(Guessed(c.first, c.total, Slices.Count(c), m), Slices.Start(c, m))
  {
    hide Slices.Count, Slices.Start, Guessed, Covers;
    GuessCovers(c, m, Slices.Start(c, m));
    Slices.SliceBounds(c, m);
    StartPositive(c, m);
    GuessIsMultiple(c, m);
    Slices.StartFromFirst(c, m);
    assert (m + 1) * c.first == m * c.first + c.first;
  }

  lemma StartPositive(c: Cut, m: nat)
    requires 1 <= m < Slices.Count(c)
    ensures Slices.Start(c, m) < c.total && Slices.End(c, m - 1) == Slices.Start(c, m)
  {
    Slices.SliceBounds(c, m - 1);
  }

  /** Known parts before the offset do not contain it. */
  lemma EarlierDoNotCover(c: Cut, m: nat, o: nat)
    requires 1 <= m <= Slices.Count(c) && o >= Slices.Start(c, m - 1)
    ensures forall k: nat :: k < m - 1 ==> !Covers(Real(c, k), o)
  {
    hide Real, Covers;
    forall k: nat | k < m - 1
      ensures !Covers(Real(c, k), o)
    {
      RealCovers(c, k, o);
      Slices.EarlierSliceEnds(c, k, m - 1);
    }
  }

  /** Inside the part that was read last, the lookup asks for nothing. */
  lemma SettleInside(rs: seq<Range>, truths: seq<Truth>, c: Cut, m: nat, o: nat)
    requires Believes(rs, c, m) && Describes(truths, c)
    requires Slices.Start(c, m - 1) <= o < Slices.End(c, m - 1)
    ensures Settle(rs, truths, o) == Settled(rs, [], m - 1)
  {
    hide Slices.Count, Slices.Start, Real, Covers, Guessed;
    EarlierDoNotCover(c, m, o);
    RealCovers(c, m - 1, o);
    FirstCoverIs(rs, o, 0, m - 1);
    KnownReal(c, m - 1);
  }

  lemma KnownReal(c: Cut, k: nat)
    requires k < Slices.Count(c)
    ensures Real(c, k).known
    ensures k > 0 ==> !Guessed(c.first, c.total, Slices.Count(c), k).known
  {
    hide Slices.Count;
  }

  /** The start of the next part is found in no part already known. */
  lemma KnownEndBefore(c: Cut, m: nat)
    requires 1 <= m < Slices.Count(c)
    ensures forall k: nat :: k < m ==> !Covers(Real(c, k), Slices.Start(c, m))
    ensures Covers(Real(c, m), Slices.Start(c, m))
  {
    hide Slices.Count, Real, Covers;
    EarlierDoNotCover(c, m + 1, Slices.Start(c, m));
    RealCovers(c, m, Slices.Start(c, m));
    Slices.SliceBounds(c, m);
    StartPositive(c, m);
  }

  lemma LearnBelieves(rs: seq<Range>, truths: seq<Truth>, c: Cut, m: nat)
    requires Believes(rs, c, m) && Describes(truths, c) && m < |rs|
    ensures Believes(Learn(rs, truths, m), c, m + 1)
  {
    hide Slices.Count, Real, Guessed;
  }

  /** At the start of the next part, a good guess asks for exactly that part. */
  lemma SettleGood(rs: seq<Range>, truths: seq<Truth>, c: Cut, m: nat)
    requires Believes(rs, c, m) && Describes(truths, c) && m < |rs| && GoodGuess(c, m)
    ensures Settle(rs, truths, Slices.Start(c, m)) == Settled(Learn(rs, truths, m), [m], m)
    ensures Believes(Learn(rs, truths, m), c, m + 1)
  {
    hide Slices.Count, Slices.Start, Real, Covers, Guessed, GoodGuess;
    var o := Slices.Start(c, m);
    KnownEndBefore(c, m);
    GoodGuessCovers(c, m);
    FirstCoverIs(rs, o, 0, m);
    KnownReal(c, m);
    var learned := Learn(rs, truths, m);
    LearnBelieves(rs, truths, c, m);
    FirstCoverIs(learned, o, 0, m);
    assert Settle(learned, truths, o) == Settled(learned, [], m);
  }

  /** Of the guesses from part m on, at most one contains the offset. */
  lemma GuessesDisjoint(c: Cut, i: nat, j: nat, o: nat)
    requires 1 <= i < j < Slices.Count(c)
    requires Covers(Guessed(c.first, c.total, Slices.Count(c), i), o)
    ensures !Covers(Guessed(c.first, c.total, Slices.Count(c), j), o)
  {
    hide Slices.Count, Guessed, Covers;
    GuessCovers(c, i, o);
    GuessCovers(c, j, o);
    MulMono(i + 1, j, c.first);
  }

  /** At the start of a part whose guess is bad, a later part is asked for in vain. */
  lemma SettleBad(rs: seq<Range>, truths: seq<Truth>, c: Cut, m: nat)
    requires Believes(rs, c, m) && Describes(truths, c) && m < |rs| && !GoodGuess(c, m)
    ensures Settle(rs, truths, Slices.Start(c, m)).part == |rs|
  {
    hide Slices.Count, Slices.Start, Real, Covers, Guessed, GoodGuess;
    var o, n := Slices.Start(c, m), |rs|;
    KnownEndBefore(c, m);
    GoodGuessCovers(c, m);
    var i := FirstCover(rs, o, 0);
    if i < n {
      LaterGuess(rs, c, m, i);
      KnownReal(c, i);
      var learned := Learn(rs, truths, i);
      forall k | 0 <= k < n
        ensures !Covers(learned[k], o)
      {
        if k > i {
          GuessesDisjoint(c, i, k, o);
        } else if k == i {
          Slices.EarlierSliceEnds(c, m, i);
          RealCovers(c, i, o);
          StartsApart(c, m, i);
        }
      }
      FirstCoverIs(learned, o, 0, n);
      assert Settle(learned, truths, o).part == n;
    }
  }

  lemma LaterGuess(rs: seq<Range>, c: Cut, m: nat, i: nat)
    requires Believes(rs, c, m) && m < |rs| && !GoodGuess(c, m) && i < |rs|
    requires Covers(rs[i], Slices.Start(c, m))
    ensures m < i
  {
    hide Slices.Count, Slices.Start, Real, Covers, Guessed, GoodGuess;
    KnownEndBefore(c, m);
    GoodGuessCovers(c, m);
  }

  lemma StartsApart(c: Cut, m: nat, i: nat)
    requires m < i
    ensures Slices.Start(c, m) < Slices.Start(c, i)
  {
    Slices.StartGap(c, m, i);
  }

  /** The parts after the first that are asked for while reading m parts in order, numbered from 1. */
  function FirstPrompts(m: nat): seq<nat> {
    if m <= 1 then [] else FirstPrompts(m - 1) + [m]
  }

  ghost predicate ReadSoFar(stream: V.VirtualStream, c: Cut, m: nat, o: nat)
    reads stream, stream.media
  {
    && stream.Valid() && stream.Attended() && stream.totalSize == c.total
    && Describes(stream.truths, c) && Believes(V.RangesOf(stream.slots), c, m)
    && Slices.Start(c, m - 1) <= o <= Slices.End(c, m - 1)
    && stream.InReach(m - 1)
  }

  /** The part the next read comes from, numbered from 1 like a count of known parts. */
  ghost function PartRead(c: Cut, m: nat, o: nat): nat
    requires 1 <= m <= Slices.Count(c)
  {
    if o < Slices.End(c, m - 1) then m else m + 1
  }

  lemma Foresee(stream: V.VirtualStream, c: Cut, m: nat, o: nat)
    requires 1 <= m <= Slices.Count(c) && ReadSoFar(stream, c, m, o) && o < c.total
    ensures var s, q := Settle(V.RangesOf(stream.slots), stream.truths, o), PartRead(c, m, o);
      && q <= Slices.Count(c) == |s.ranges|
      && (q == m || GoodGuess(c, m) ==>
            && s.part == q - 1 && Believes(s.ranges, c, q) && stream.Handy(s)
            && Numbered(s.asked) == (if q == m then [] else [q])
            && Slices.Start(c, q - 1) <= o < Slices.End(c, q - 1))
      && (q > m && !GoodGuess(c, m) ==> s.part == |stream.slots|)
  {
    hide Slices.Count, Slices.Start, Real, Covers, Guessed, GoodGuess, Settle, Believes, Slices.End,
         V.VirtualStream.Valid, V.VirtualStream.Attended, V.RangesOf, Learn, Describes;
    var rs := V.RangesOf(stream.slots);
    KnownSize(rs, c, m);
    if o < Slices.End(c, m - 1) {
      SettleInside(rs, stream.truths, c, m, o);
    } else {
      NextPart(c, m);
      if GoodGuess(c, m) {
        SettleGood(rs, stream.truths, c, m);
        Slices.SliceBounds(c, m);
      } else {
        SettleBad(rs, stream.truths, c, m);
      }
    }
  }

  lemma KnownSize(rs: seq<Range>, c: Cut, m: nat)
    requires Believes(rs, c, m)
    ensures |rs| == Slices.Count(c)
  {
  }

  /** A read from the last known part stays within it. */
  lemma StaysInPart(stream: V.VirtualStream, c: Cut, m: nat, o: nat, count: nat, n: int)
    requires stream.Valid() && stream.Attended() && stream.totalSize == c.total
    requires Describes(stream.truths, c) && Believes(V.RangesOf(stream.slots), c, m)
    requires stream.InReach(m - 1) && Slices.Start(c, m - 1) <= o < Slices.End(c, m - 1) && count > 0
    requires n == Min(count, stream.slots[m - 1].start + stream.slots[m - 1].size - o)
    ensures n > 0 && ReadSoFar(stream, c, m, o + n)
  {
    hide Slices.Count, Slices.Start, Covers, Guessed;
    assert V.RangesOf(stream.slots)[m - 1] == Real(c, m - 1);
  }

  /** One read of the loop: either it goes on within the part, or it changes discs, or the guess for
      the next part was too bad and the read fails. */
  method ReadNext(stream: V.VirtualStream, ghost c: Cut, ghost m: nat, o: nat, count: nat)
    returns (n: int, data: Octets)
    requires 1 <= m <= Slices.Count(c) && ReadSoFar(stream, c, m, o)
    requires count > 0 && o < stream.totalSize
    modifies stream`slots, stream`currentPart, stream.media
    ensures n == -1 || n > 0
    ensures n > 0 ==> o + n <= |stream.package| && data == stream.package[o..o + n]
    ensures PartRead(c, m, o) <= Slices.Count(c)
    ensures n > 0 <==> PartRead(c, m, o) == m || GoodGuess(c, m)
    ensures n > 0 ==> ReadSoFar(stream, c, PartRead(c, m, o), o + n)
    ensures var asked := if PartRead(c, m, o) == m then [] else [m + 1];
      n > 0 ==> stream.media.prompts == old(stream.media.prompts) + asked
  {
    hide Slices.Count, Slices.Start, Slices.End, Real, Covers, Guessed, GoodGuess, Settle, Learn, Believes,
         Numbered, Describes, V.VirtualStream.Valid, V.VirtualStream.Attended, V.VirtualStream.InReach, V.RangesOf,
         UnknownCount;
    Foresee(stream, c, m, o);
    ghost var q := PartRead(c, m, o);
    n, data := stream.Read(o, count);
    if q == m || GoodGuess(c, m) {
      StaysInPart(stream, c, q, o, count, n);
    }
  }

  lemma NextPart(c: Cut, m: nat)
    requires 1 <= m <= Slices.Count(c) && Slices.End(c, m - 1) < c.total
    ensures m < Slices.Count(c) && Slices.End(c, m - 1) == Slices.Start(c, m)
  {
    Slices.SliceBounds(c, m - 1);
  }

  /** Reading from 0 to the end in pieces, as the installer's streaming loop does. It gets the whole
      package, asking for parts 2, 3, ... once each in order, exactly when no guess is too far off. */
  method ReadWhole(stream: V.VirtualStream, ghost c: Cut, piece: nat) returns (ok: bool, data: Octets)
    requires piece > 0 && ReadSoFar(stream, c, 1, 0)
    modifies stream`slots, stream`currentPart, stream.media
    ensures ok <==> InOrder(c)
    ensures ok ==> data == stream.package
    ensures ok ==> stream.media.prompts == old(stream.media.prompts) + FirstPrompts(Slices.Count(c))
  {
    hide Slices.Count, Slices.Start, Slices.End, ReadSoFar, InOrder, GoodGuess;
    InOrderIff(c);
    ghost var m := 1;
    var o := 0;
    data := [];
    assert stream.totalSize == |stream.package| by {
      SizeIsPackage(stream, c, 1, 0);
    }
    while o < stream.totalSize
      invariant 1 <= m <= Slices.Count(c) && o <= stream.totalSize && ReadSoFar(stream, c, m, o)
      invariant data == stream.package[..o]
      invariant forall k :: 1 <= k < m ==> GoodGuess(c, k)
      invariant stream.media.prompts == old(stream.media.prompts) + FirstPrompts(m)
    {
      var n, got := ReadNext(stream, c, m, o, Min(piece, stream.totalSize - o));
      if n < 0 {
        return false, data;
      }
      assert data + got == stream.package[..o + n];
      data, o, m := data + got, o + n, PartRead(c, m, o);
    }
    SizeIsPackage(stream, c, m, o);
    ok := true;
  }

  lemma SizeIsPackage(stream: V.VirtualStream, c: Cut, m: nat, o: nat)
    requires 1 <= m <= Slices.Count(c) && ReadSoFar(stream, c, m, o)
    ensures stream.totalSize == |stream.package| && o <= stream.totalSize
    ensures o == stream.totalSize ==> m == Slices.Count(c)
  {
    hide Believes, Describes, Slices.Count, Slices.Start, Slices.End,
         V.VirtualStream.Valid, V.VirtualStream.Attended, V.VirtualStream.InReach;
    stream.SameLength();
    Slices.SliceBounds(c, m - 1);
  }

  /** The parts of a split job, as their headers describe them. */
  function TruthsOf(j: Splitter.Job): (ts: seq<Truth>)
    ensures |ts| == Splitter.PartCount(j)
  {
    seq(Splitter.PartCount(j), k requires 0 <= k < Splitter.PartCount(j) => TruthOf(j, k))
  }

  function TruthOf(j: Splitter.Job, k: nat): Truth
    requires k < Splitter.PartCount(j)
  {
    Truth(Splitter.PartFile(j, k), Slices.Start(Splitter.CutOf(j), k), |Splitter.Slice(j, k)|,
          Splitter.DataOffset(j, k))
  }

  /** Every slice file is labelled with, and holds, its slice. */
  lemma PartIsTrue(j: Splitter.Job, k: nat)
    requires Splitter.AllPackable(j) && k < Splitter.PartCount(j)
    ensures V.Holds(TruthOf(j, k), j.pkg) && V.Labelled(TruthOf(j, k), k)
    ensures V.Matches(Splitter.PartFile(j, k), j.uuid, k + 1)
  {
    hide Splitter.PartFile, PartHeader.ReadHeader, Splitter.AllPackable, Slices.Count, Slices.Start;
    Splitter.PartFileLayout(j, k);
    var c := Splitter.CutOf(j);
    Slices.SliceBounds(c, k);
    Slices.StartGap(c, 0, k);
    StartZero(c);
    FitsIn64(j);
    var f, d := Splitter.PartFile(j, k), Splitter.DataOffset(j, k);
    assert f[d..d + |Splitter.Slice(j, k)|] == f[d..];
  }

  lemma StartZero(c: Slices.Cut)
    ensures Slices.Start(c, 0) == 0
  {
  }

  lemma FitsIn64(j: Splitter.Job)
    requires Splitter.AllPackable(j)
    ensures |j.pkg| < TWO_POW_64
  {
    hide Splitter.InfoOf, PartHeader.TextField, Slices.Count;
    assert PartHeader.Packable(Splitter.HeaderOf(j, 0));
  }

  /** The cut of a job, as the stream sees it: the first slice never has more room than the others. */
  function StreamCut(j: Splitter.Job): (c: Cut)
    requires Splitter.AllPackable(j)
  {
    FitsIn64(j);
    Splitter.CutOf(j)
  }

  /** The files with the job's identifier are its parts, staged copies are genuine, and every part exists. */
  ghost predicate Carries(media: V.Media, j: Splitter.Job) {
    media.Faithful(j.uuid, TruthsOf(j)) && StagedGenuine(media, j) && AllParts(media, j)
  }

  ghost predicate StagedGenuine(media: V.Media, j: Splitter.Job) {
    forall k {:trigger media.staged(k)} :: 1 <= k <= Splitter.PartCount(j) && media.staged(k) in media.library ==>
      media.library[media.staged(k)] == Splitter.PartFile(j, k - 1)
  }

  ghost predicate AllParts(media: V.Media, j: Splitter.Job) {
    forall k :: 0 <= k < Splitter.PartCount(j) ==> HasPart(media, j, k)
  }

  ghost predicate HasPart(media: V.Media, j: Splitter.Job, k: nat)
    requires k < Splitter.PartCount(j)
  {
    exists p :: p in media.library && media.library[p] == Splitter.PartFile(j, k)
  }

  lemma CarriesPresents(media: V.Media, j: Splitter.Job, path: V.Path)
    requires Splitter.AllPackable(j) && Carries(media, j)
    requires path in media.library && media.library[path] == Splitter.PartFile(j, 0)
    ensures media.Presents(path, j.pkg, TruthsOf(j))
    ensures PartHeader.ReadHeader(media.library[path]) == PartHeader.Valid(Splitter.HeaderOf(j, 0))
    ensures V.Matches(media.library[path], j.uuid, 1)
  {
    hide Splitter.PartFile, PartHeader.ReadHeader, Splitter.AllPackable, V.Holds, V.Labelled, V.Matches,
         Splitter.InfoOf, PartHeader.TextField;
    Splitter.PartFileLayout(j, 0);
    forall k | 0 <= k < Splitter.PartCount(j)
      ensures V.Holds(TruthOf(j, k), j.pkg) && V.Labelled(TruthOf(j, k), k)
    {
      PartIsTrue(j, k);
    }
    PartIsTrue(j, 0);
  }

  /** Opened with only part 1 at hand, the stream knows part 1 and has guessed the rest. */
  lemma OpenedIsReady(stream: V.VirtualStream, j: Splitter.Job, path: V.Path)
    requires Splitter.AllPackable(j) && Carries(stream.media, j)
    requires path in stream.media.library && stream.media.library[path] == Splitter.PartFile(j, 0)
    requires stream.Valid() && stream.package == j.pkg && stream.truths == TruthsOf(j) && stream.uuid == j.uuid
    requires stream.hasWaiter && stream.media.reliable && stream.media.mounted == {path}
    requires stream.slots[0].path == Some(path)
    requires forall k :: 0 <= k < |stream.slots| ==>
      V.RangeOf(stream.slots[k]) == Guessed(stream.truths[0].size, |stream.package|, |stream.slots|, k)
    ensures ReadSoFar(stream, StreamCut(j), 1, 0)
  {
    hide Splitter.PartFile, PartHeader.ReadHeader, Splitter.AllPackable, V.Holds, V.Labelled, V.Matches,
         V.VirtualStream.Valid, GuessedStart, Slices.Count, Slices.Start;
    stream.SameLength();
    var c := StreamCut(j);
    Slices.SliceBounds(c, 0);
    StartZero(c);
    FirstGuess(c);
    forall part | 1 <= part <= |stream.truths|
      ensures stream.Exists(part)
    {
      assert HasPart(stream.media, j, part - 1);
      PartIsTrue(j, part - 1);
    }
    forall k | 0 <= k < |stream.truths|
      ensures Range(true, stream.truths[k].start, stream.truths[k].size) == Real(c, k)
    {
      Slices.SliceBounds(c, k);
    }
  }

  lemma FirstGuess(c: Cut)
    ensures Slices.Count(c) > 1 ==> Slices.Length(c, 0) == c.first
    ensures Guessed(Slices.Length(c, 0), c.total, Slices.Count(c), 0) == Real(c, 0)
  {
    Slices.SliceBounds(c, 0);
  }

  /** A split package, played from discs with only the first one in the drive. */
  method StreamFromDiscs(stream: V.VirtualStream, ghost j: Splitter.Job, path: V.Path, piece: nat)
    returns (ok: bool, data: Octets)
    requires Splitter.AllPackable(j) && Splitter.PartCount(j) <= PartHeader.MAX_PARTS && piece > 0
    requires stream.media.Valid() && Carries(stream.media, j) && stream.media.Alone(path)
    requires path in stream.media.library && stream.media.library[path] == Splitter.PartFile(j, 0)
    requires stream.hasWaiter && stream.media.reliable
    modifies stream, stream.media
    ensures ok <==> InOrder(StreamCut(j))
    ensures ok ==> data == j.pkg
    ensures ok ==> stream.media.prompts == old(stream.media.prompts) + FirstPrompts(Splitter.PartCount(j))
  {
    hide Splitter.AllPackable, Splitter.PartFile, Splitter.CutOf, Slices.Count, Carries, ReadSoFar, InOrder,
         V.VirtualStream.Valid, PartHeader.ReadHeader, V.Matches;
    CarriesPresents(stream.media, j, path);
    var code := stream.Open(path, j.pkg, TruthsOf(j));
    OpenedIsReady(stream, j, path);
    ok, data := ReadWhole(stream, StreamCut(j), piece);
  }

  // --- each part on a disc of its own ---

  function DiscPath(k: nat): V.Path {
    seq(k + 1, _ => 'd')
  }

  /** The first n parts of a job. */
  function Discs(j: Splitter.Job, n: nat): map<V.Path, Octets>
    requires n <= Splitter.PartCount(j)
  {
    hide *;
    if n == 0 then map[] else Discs(j, n - 1)[DiscPath(n - 1) := Splitter.PartFile(j, n - 1)]
  }

  lemma {:induction false} DiscsAre(j: Splitter.Job, n: nat)
    requires n <= Splitter.PartCount(j)
    ensures forall k :: 0 <= k < n ==> DiscPath(k) in Discs(j, n) && Discs(j, n)[DiscPath(k)] == Splitter.PartFile(j, k)
    ensures forall p :: p in Discs(j, n) ==> 0 < |p| <= n && p == DiscPath(|p| - 1)
  {
    hide Splitter.PartFile, Splitter.PartCount;
    if n > 0 {
      DiscsAre(j, n - 1);
      assert |DiscPath(n - 1)| == n;
      forall k | 0 <= k < n - 1
        ensures DiscPath(k) != DiscPath(n - 1)
      {
        assert |DiscPath(k)| == k + 1;
      }
    }
  }

  lemma OnlyOwnPart(j: Splitter.Job, k: nat, part: nat)
    requires Splitter.AllPackable(j) && k < Splitter.PartCount(j)
    requires V.Matches(Splitter.PartFile(j, k), j.uuid, part)
    ensures part == k + 1
  {
    hide Splitter.PartFile, PartHeader.ReadHeader, Splitter.AllPackable;
    PartIsTrue(j, k);
  }

  lemma DiscsFaithful(media: V.Media, j: Splitter.Job)
    requires Splitter.AllPackable(j) && media.library == Discs(j, Splitter.PartCount(j))
    ensures media.Faithful(j.uuid, TruthsOf(j))
  {
    hide Splitter.PartFile, Splitter.AllPackable, V.Matches, Discs, DiscPath, Splitter.PartCount;
    DiscsAre(j, Splitter.PartCount(j));
    forall p, part: nat | p in media.library && V.Matches(media.library[p], j.uuid, part)
      ensures 1 <= part <= |TruthsOf(j)| && media.library[p] == TruthsOf(j)[part - 1].file
    {
      OnlyOwnPart(j, |p| - 1, part);
    }
  }

  lemma DiscsCarry(media: V.Media, j: Splitter.Job)
    requires Splitter.AllPackable(j) && media.library == Discs(j, Splitter.PartCount(j))
    requires forall k :: media.staged(k) == ""
    ensures Carries(media, j)
  {
    hide Splitter.PartFile, Splitter.AllPackable, V.Media.Faithful, Discs, DiscPath, Splitter.PartCount, AllParts,
         StagedGenuine;
    DiscsFaithful(media, j);
    DiscsComplete(media, j);
    NoneStaged(media, j);
  }

  lemma DiscsComplete(media: V.Media, j: Splitter.Job)
    requires media.library == Discs(j, Splitter.PartCount(j))
    ensures AllParts(media, j)
  {
    hide Splitter.PartFile, Discs, DiscPath, Splitter.PartCount;
    DiscsAre(j, Splitter.PartCount(j));
    forall k | 0 <= k < Splitter.PartCount(j)
      ensures HasPart(media, j, k)
    {
      assert DiscPath(k) in media.library;
    }
  }

  lemma NoneStaged(media: V.Media, j: Splitter.Job)
    requires media.library == Discs(j, Splitter.PartCount(j)) && forall k :: media.staged(k) == ""
    ensures StagedGenuine(media, j)
  {
    hide Splitter.PartFile, Discs, DiscPath, Splitter.PartCount;
    DiscsAre(j, Splitter.PartCount(j));
    assert "" !in media.library;
  }

  /** A package is split, each part is burnt on a disc, the first one is inserted and the stream read to its end. */
  method PlayDiscs(j: Splitter.Job, piece: nat) returns (ok: bool, data: Octets)
    requires Splitter.AllPackable(j) && Splitter.PartCount(j) <= PartHeader.MAX_PARTS && piece > 0
    ensures ok <==> InOrder(StreamCut(j))
    ensures ok ==> data == j.pkg
  {
    hide Splitter.AllPackable, Splitter.PartFile, Carries, InOrder, Discs, Splitter.PartCount;
    var library := Discs(j, Splitter.PartCount(j));
    DiscsAre(j, Splitter.PartCount(j));
    var media := new V.Media(library, _ => "", true, {DiscPath(0)});
    DiscsCarry(media, j);
    var stream := new V.VirtualStream(media, true);
    ok, data := StreamFromDiscs(stream, j, DiscPath(0), piece);
  }

  /** With room for the icon and more in the first part, a guess is off by one icon per part skipped. */
  lemma InOrderByIcon(j: Splitter.Job)
    requires Splitter.AllPackable(j) && j.partSize > PartHeader.HEADER_SIZE + |j.meta.icon|
    ensures InOrder(StreamCut(j)) <==>
      (Splitter.PartCount(j) - 3) * |j.meta.icon| < j.partSize - PartHeader.HEADER_SIZE - |j.meta.icon|
  {
    hide Splitter.AllPackable, Slices.Count;
  }

  // --- a package that cannot be read in order ---

  // A package of six bytes with an icon of one, in parts of two bytes more than a header: slices of 1, 2, 2 and 1.
  const FAR: Splitter.Job :=
    Splitter.Job(Zeros(6), Splitter.Meta([], [], [], [], [], [], [0]), Zeros(16), PartHeader.HEADER_SIZE + 2)

  lemma FarCut()
    ensures Splitter.CutOf(FAR) == Slices.Cut(6, 1, 2) && Splitter.PartCount(FAR) == 4
  {
    var c := Slices.Cut(6, 1, 2);
    assert Slices.Start(c, 1) == 1 && Slices.Start(c, 2) == 3 && Slices.Start(c, 3) == 5 && Slices.Start(c, 4) == 7;
    assert Slices.CountFrom(c, 3) == 4;
    assert Slices.CountFrom(c, 2) == 4;
    assert Slices.CountFrom(c, 1) == 4;
  }

  lemma {:induction false} FarArchive(n: nat)
    requires n <= Splitter.PartCount(FAR)
    ensures Splitter.ArchiveSize(FAR, n) <= n * (PartHeader.HEADER_SIZE + 7)
  {
    hide Splitter.PartCount, Splitter.Slice, Splitter.DataOffset;
    if n > 0 {
      FarArchive(n - 1);
      FarSlice(n - 1);
    }
  }

  lemma FarSlice(k: nat)
    requires k < Splitter.PartCount(FAR)
    ensures |Splitter.Slice(FAR, k)| <= 6 && Slices.Start(Splitter.CutOf(FAR), k) <= 6
    ensures Splitter.DataOffset(FAR, k) <= PartHeader.HEADER_SIZE + 1
  {
    hide Slices.Start, Slices.Count;
    Slices.SliceBounds(Splitter.CutOf(FAR), k);
  }

  lemma FarHeader(k: nat)
    requires k < Splitter.PartCount(FAR) == 4
    ensures PartHeader.Packable(Splitter.HeaderOf(FAR, k))
  {
    hide PartHeader.TextField, Slices.Start, Slices.Count, Splitter.CutOf, Splitter.Slice, Splitter.ArchiveSize;
    FarArchive(4);
    FarSlice(k);
  }

  lemma FarPackable()
    ensures Splitter.AllPackable(FAR)
  {
    hide PartHeader.Packable, Splitter.HeaderOf, Splitter.PartCount;
    FarCut();
    forall k: nat | k < 4
      ensures PartHeader.Packable(Splitter.HeaderOf(FAR, k))
    {
      FarHeader(k);
    }
  }

  /** The splitter cuts that package, and it cannot be read from one disc to the next: the third part is guessed to be
    * over before it begins. */
  lemma FarGuess()
    ensures Splitter.AllPackable(FAR) && Splitter.PartCount(FAR) == 4 && !InOrder(StreamCut(FAR))
  {
    hide Splitter.AllPackable, Slices.Count;
    FarCut();
    FarPackable();
  }

  /** It is read all the same, and fails. */
  method PlayFar(piece: nat) returns (ok: bool)
    requires piece > 0
    ensures !ok
  {
    hide Splitter.AllPackable, InOrder;
    FarGuess();
    var data;
    ok, data := PlayDiscs(FAR, piece);
  }
}
