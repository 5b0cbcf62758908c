/** Which part of a multi-part package an offset is looked up in, while some parts are only guessed.
    Parts are numbered from 0 here. */
module StreamMap {
  import opened Bytes

  // What the stream believes about one part: known from its header, or guessed at open time.
  datatype Range = Range(known: bool, start: nat, size: nat)

  // A part as its own header describes it, with its file.
  datatype Truth = Truth(file: Octets, start: nat, size: nat, dataOffset: nat)

  /** The lookup test; start + size is a 64-bit sum. */
  predicate Covers(r: Range, o: nat) {
    r.start <= o < (r.start + r.size) % TWO_POW_64
  }

  /** Where part k is guessed to start when only part 0, of the given size, has been seen. */
  function GuessedStart(first: nat, k: nat): nat {
    if k == 0 then 0 else (GuessedStart(first, k - 1) + first) % TWO_POW_64
  }

  /** What the stream believes after opening with only part 0 at hand. */
  function Guessed(first: nat, total: nat, n: nat, k: nat): Range
    requires k < n
  {
    var start := GuessedStart(first, k);
    Range(k == 0, start, if 0 < k == n - 1 then (total - start) % TWO_POW_64 else first)
  }

  /** The first part from index i on whose range holds the offset; |rs| when there is none. */
  function FirstCover(rs: seq<Range>, o: nat, i: nat): (k: nat)
    requires i <= |rs|
    ensures i <= k <= |rs|
    ensures k < |rs| ==> Covers(rs[k], o)
    ensures forall j :: i <= j < k ==> !Covers(rs[j], o)
    decreases |rs| - i
  {
    if i == |rs| || Covers(rs[i], o) then i else FirstCover(rs, o, i + 1)
  }

  /** A cover with nothing before it is the first cover. */
  lemma {:induction false} FirstCoverIs(rs: seq<Range>, o: nat, i: nat, k: nat)
    requires i <= k <= |rs|
    requires k < |rs| ==> Covers(rs[k], o)
    requires forall j :: i <= j < k ==> !Covers(rs[j], o)
    ensures FirstCover(rs, o, i) == k
    decreases k - i
  {
    if i < k {
      FirstCoverIs(rs, o, i + 1, k);
    }
  }

  function UnknownCount(rs: seq<Range>): (n: nat)
    ensures n <= |rs|
  {
    if rs == [] then 0
    else UnknownCount(rs[..|rs| - 1]) + if rs[|rs| - 1].known then 0 else 1
  }

  lemma {:induction false} LearningOne(rs: seq<Range>, k: nat, r: Range)
    requires k < |rs| && r.known
    ensures UnknownCount(rs[k := r]) == UnknownCount(rs) - if rs[k].known then 0 else 1
  {
    var n := |rs| - 1;
    if k == n {
      assert rs[k := r][..n] == rs[..n];
    } else {
      assert rs[k := r][..n] == rs[..n][k := r];
      LearningOne(rs[..n], k, r);
    }
  }

  function Learn(rs: seq<Range>, truths: seq<Truth>, k: nat): seq<Range>
    requires |rs| == |truths| && k < |rs|
  {
    rs[k := Range(true, truths[k].start, truths[k].size)]
  }

  // Ranges after the lookup, the parts asked for on the way, the part settled on (|ranges| if none).
  datatype Settled = Settled(ranges: seq<Range>, asked: seq<nat>, part: nat)

  /** The lookup when every disc asked for is brought: guesses are corrected until the offset falls
      into a known part or into none. */
  function Settle(rs: seq<Range>, truths: seq<Truth>, o: nat): (s: Settled)
    requires |rs| == |truths|
    ensures |s.ranges| == |rs|
    ensures |s.asked| <= UnknownCount(rs)
    decreases UnknownCount(rs)
  {
    var k := FirstCover(rs, o, 0);
    if k == |rs| || rs[k].known then Settled(rs, [], k)
    else
      LearningOne(rs, k, Range(true, truths[k].start, truths[k].size));
      var more := Settle(Learn(rs, truths, k), truths, o);
      Settled(more.ranges, [k] + more.asked, more.part)
  }

  /** A lookup that has asked for some parts so far and will end as s does. */
  ghost predicate OnCourse(rs: seq<Range>, truths: seq<Truth>, o: nat, asked: seq<nat>, s: Settled) {
    && |rs| == |truths|
    && var now := Settle(rs, truths, o);
       now.ranges == s.ranges && now.part == s.part && asked + now.asked == s.asked
  }

  lemma OnceMore(rs: seq<Range>, truths: seq<Truth>, o: nat, asked: seq<nat>, s: Settled)
    requires OnCourse(rs, truths, o, asked, s)
    ensures var k := FirstCover(rs, o, 0);
      if k < |rs| && !rs[k].known then
        && OnCourse(Learn(rs, truths, k), truths, o, asked + [k], s)
        && |asked| < |s.asked| && s.asked[|asked|] == k
        && UnknownCount(Learn(rs, truths, k)) == UnknownCount(rs) - 1
      else s == Settled(rs, asked, k)
  {
    var k := FirstCover(rs, o, 0);
    if k < |rs| && !rs[k].known {
      LearningOne(rs, k, Range(true, truths[k].start, truths[k].size));
      var more := Settle(Learn(rs, truths, k), truths, o);
      assert asked + [k] + more.asked == asked + ([k] + more.asked);
    }
  }

  function Numbered(asked: seq<nat>): seq<nat> {
    seq(|asked|, i requires 0 <= i < |asked| => asked[i] + 1)
  }

  lemma NumberedSnoc(asked: seq<nat>, k: nat)
    ensures Numbered(asked + [k]) == Numbered(asked) + [k + 1]
  {
  }

  // A lookup under way: how it must end, what had been asked for before, what it has asked for since,
  // whether it had to ask for a known part again, and the most it may still amount to.
  ghost predicate UnderWay(rs: seq<Range>, truths: seq<Truth>, o: nat, s: Settled, handy: bool, reach: bool,
                           before: seq<nat>, prompts: seq<nat>, asked: seq<nat>, again: bool, most: nat) {
    && OnCourse(rs, truths, o, asked, s)
    && |prompts| + UnknownCount(rs) <= most + (if again then 1 else 0)
    && (handy && s.part < |rs| && s.asked != [] ==> s.asked[|s.asked| - 1] == s.part)
    && (if again then !handy && reach
        else prompts == before + Numbered(asked)
             && (handy && s.part < |rs| && |s.asked| == |asked| ==> reach))
  }

  lemma Setout(rs: seq<Range>, truths: seq<Truth>, o: nat, s: Settled, handy: bool, reach: bool,
               prompts: seq<nat>)
    requires |rs| == |truths| && s == Settle(rs, truths, o)
    requires handy && s.part < |rs| ==>
      if s.asked != [] then s.asked[|s.asked| - 1] == s.part else s.part == FirstCover(rs, o, 0) ==> reach
    ensures UnderWay(rs, truths, o, s, handy, reach, prompts, prompts, [], false,
                     |prompts| + UnknownCount(rs))
  {
    assert Numbered([]) == [] && prompts + [] == prompts && [] + s.asked == s.asked;
    OnceMore(rs, truths, o, [], s);
  }

  lemma OutOfReach(rs: seq<Range>, truths: seq<Truth>, o: nat, s: Settled, handy: bool,
                   before: seq<nat>, prompts: seq<nat>, asked: seq<nat>, again: bool, most: nat)
    requires UnderWay(rs, truths, o, s, handy, false, before, prompts, asked, again, most)
    ensures |prompts| <= most
  {
  }

  lemma AfterWait(rs: seq<Range>, truths: seq<Truth>, o: nat, s: Settled, handy: bool, reach: bool,
                  before: seq<nat>, prompts: seq<nat>, asked: seq<nat>, again: bool, most: nat)
    requires UnderWay(rs, truths, o, s, handy, false, before, prompts, asked, again, most)
    requires var i := FirstCover(rs, o, 0);
      i < |rs| && (FirstCover(Learn(rs, truths, i), o, 0) == i ==> reach)
      && (rs[i].known ==> Learn(rs, truths, i) == rs)
    ensures var i := FirstCover(rs, o, 0);
      UnderWay(Learn(rs, truths, i), truths, o, s, handy, reach, before, prompts + [i + 1],
               if rs[i].known then asked else asked + [i], rs[i].known, most)
    ensures !again
    ensures var i := FirstCover(rs, o, 0);
      UnknownCount(Learn(rs, truths, i)) == UnknownCount(rs) - if rs[i].known then 0 else 1
  {
    hide Settle, FirstCover, Learn, UnknownCount;
    var i := FirstCover(rs, o, 0);
    OnceMore(rs, truths, o, asked, s);
    NumberedSnoc(asked, i);
    if !rs[i].known {
      assert before + Numbered(asked) + [i + 1] == before + Numbered(asked + [i]);
      OnceMore(Learn(rs, truths, i), truths, o, asked + [i], s);
    }
  }

  lemma AtRest(rs: seq<Range>, truths: seq<Truth>, o: nat, s: Settled, handy: bool, reach: bool,
               before: seq<nat>, prompts: seq<nat>, asked: seq<nat>, again: bool, most: nat)
    requires UnderWay(rs, truths, o, s, handy, reach, before, prompts, asked, again, most)
    requires var i := FirstCover(rs, o, 0); i == |rs| || rs[i].known
    ensures s.ranges == rs && s.part == FirstCover(rs, o, 0)
    ensures |prompts| <= most + 1
    ensures handy ==> prompts == before + Numbered(s.asked)
  {
    OnceMore(rs, truths, o, asked, s);
  }
}
