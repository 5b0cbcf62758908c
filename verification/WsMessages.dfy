/** What the decoder makes of whole messages, and of the examples of section 5.7 of RFC 6455. */
module WsMessages {
  import opened Bytes
  import opened Wrappers
  import opened WsFrames

  // --- frames one after the other ---

  function Through(s: State, fs: seq<Frame>): State
    decreases |fs|
  {
    if fs == [] then s else Through(Take(s, fs[0]), fs[1..])
  }

  lemma {:induction false} ThroughBuffer(s: State, b: Octets, fs: seq<Frame>)
    ensures Through(s.(buf := b), fs) == Through(s, fs).(buf := b)
    decreases |fs|
  {
    hide Take;
    if fs != [] {
      TakeBuffer(s, s.(buf := b), fs[0]);
      ThroughBuffer(Take(s, fs[0]), b, fs[1..]);
    }
  }

  /** Draining a buffer of encoded frames, none of them ending the turn, takes each of them in order. */
  lemma {:induction false} DrainThrough(s: State, xs: seq<Sent>, tail: Octets)
    requires (forall i :: 0 <= i < |xs| ==> Sendable(xs[i])) && Quiet(s, xs) && !Complete(tail)
    requires s.buf == EncodeAll(xs) + tail
    ensures Drain(s) == Through(s, Frames(xs)).(buf := tail)
    decreases |xs|
  {
    hide Complete, Stops, Take, Encode, Drain, Calm, First, Size, Sendable;
    if xs == [] {
      assert [] + tail == tail;
      DrainNone(s);
    } else {
      var x, rest := xs[0], EncodeAll(xs[1..]) + tail;
      EncodedStep(xs, tail);
      DrainFirst(s, x, rest);
      QuietBuffer(Take(s, x.frame), rest, xs[1..]);
      DrainThrough(Take(s, x.frame).(buf := rest), xs[1..], tail);
      ThroughBuffer(Take(s, x.frame), rest, Frames(xs[1..]));
      assert Frames(xs)[0] == x.frame && Frames(xs)[1..] == Frames(xs[1..]);
    }
  }

  // --- messages ---

  // A text message in parts: a text frame, then continuations, the last one final.
  predicate TextMessage(fs: seq<Frame>, parts: seq<Octets>) {
    && |fs| == |parts| > 0
    && (forall i :: 0 <= i < |fs| ==>
          && fs[i].opcode == (if i == 0 then 1 else 0) && fs[i].payload == parts[i]
          && (fs[i].fin <==> i == |fs| - 1))
  }

  // The same from a continuation on.
  predicate Continued(fs: seq<Frame>, parts: seq<Octets>) {
    && |fs| == |parts|
    && (forall i :: 0 <= i < |fs| ==>
          fs[i].opcode == 0 && fs[i].payload == parts[i] && (fs[i].fin <==> i == |fs| - 1))
  }

  lemma {:induction false} Continues(s: State, fs: seq<Frame>, parts: seq<Octets>)
    requires Continued(fs, parts) && fs != [] && s.textOn && s.fragOp == 1
    ensures var t := Through(s, fs);
      t.text == s.text + parts && !t.textOn && t.ended == s.ended && t.fragOp == 1
    decreases |fs|
  {
    var t := Take(s, fs[0]);
    assert t.text == s.text + [parts[0]] && t.textOn == !fs[0].fin && t.fragOp == 1 && t.ended == s.ended;
    assert s.text + [parts[0]] + parts[1..] == s.text + parts;
    if |fs| > 1 {
      Continues(t, fs[1..], parts[1..]);
    } else {
      assert fs[1..] == [] && parts == [parts[0]];
    }
  }

  /** A text message is put together from its parts, in order, and replaces what was there before. */
  lemma PutTogether(s: State, fs: seq<Frame>, parts: seq<Octets>)
    requires TextMessage(fs, parts)
    ensures var t := Through(s, fs);
      t.text == parts && !t.textOn && t.ended == s.ended && t.fragOp == 1
  {
    var t := Take(s, fs[0]);
    assert t.text == [parts[0]] && t.textOn == !fs[0].fin && t.fragOp == 1 && t.ended == s.ended;
    if |fs| > 1 {
      Continues(t, fs[1..], parts[1..]);
      assert [parts[0]] + parts[1..] == parts;
    } else {
      assert fs[1..] == [] && parts == [parts[0]];
    }
  }

  /** Pings and pongs change nothing but the list of frames. */
  lemma ControlFrames(s: State, f: Frame)
    requires f.opcode == 9 || f.opcode == 10
    ensures Take(s, f) == s.(frames := s.frames + [f]) && !Stops(s, f)
  {
  }

  /** A binary message leaves the text alone, and so do its continuations. */
  lemma BinaryFrames(s: State, f: Frame)
    requires f.opcode == 2 || (f.opcode == 0 && s.fragOp != 1)
    ensures var t := Take(s, f);
      t.text == s.text && t.textOn == s.textOn && t.ended == s.ended && !Stops(s, f)
      && t.fragOp == if f.opcode == 2 then 2 else s.fragOp
  {
  }

  /** A close frame, and the continuation of a text that is over, end the connection; nothing else does. */
  lemma Ending(s: State, f: Frame)
    ensures Take(s, f).ended <==>
      s.ended || f.opcode == 8 || (f.opcode == 0 && s.fragOp == 1 && !s.textOn)
    ensures Take(s, f).frames == s.frames + [f]
  {
  }

  lemma {:induction false} MessageQuiet(s: State, xs: seq<Sent>, parts: seq<Octets>)
    requires Continued(Frames(xs), parts) && s.fragOp == 1 && (xs != [] ==> s.textOn)
    ensures Quiet(s, xs)
    decreases |xs|
  {
    if xs != [] {
      assert Frames(xs)[0] == xs[0].frame && Frames(xs)[1..] == Frames(xs[1..]);
      MessageQuiet(Take(s, xs[0].frame), xs[1..], parts[1..]);
    }
  }

  /** A message whose masked frames arrive in any division is there in full, its parts in order. */
  lemma MessageArrives(xs: seq<Sent>, parts: seq<Octets>, chunks: seq<Octets>)
    requires (forall i :: 0 <= i < |xs| ==> Sendable(xs[i])) && TextMessage(Frames(xs), parts)
    requires Joined(chunks) == EncodeAll(xs)
    ensures var t := Feed(INITIAL, chunks); t.text == parts && !t.textOn && !t.ended && t.buf == []
  {
    hide Drain, Feed, Joined, Calm, EncodeAll, Through, Complete, Sendable;
    var fs := Frames(xs);
    FirstQuiet(xs, parts);
    var stream := EncodeAll(xs);
    assert stream + [] == stream && INITIAL.buf + stream == stream;
    NoFrame();
    QuietBuffer(INITIAL, stream, xs);
    DrainAll(With(INITIAL, stream), xs, []);
    FeedIsOnce(chunks);
    DrainThrough(With(INITIAL, stream), xs, []);
    PutTogether(With(INITIAL, stream), fs, parts);
  }

  lemma NoFrame()
    ensures !Complete([])
  {
  }

  lemma FirstQuiet(xs: seq<Sent>, parts: seq<Octets>)
    requires TextMessage(Frames(xs), parts)
    ensures Quiet(INITIAL, xs)
  {
    var fs := Frames(xs);
    assert fs[0] == xs[0].frame && fs[1..] == Frames(xs[1..]);
    var t := Take(INITIAL, xs[0].frame);
    assert !Stops(INITIAL, xs[0].frame) && t.fragOp == 1 && t.textOn == !fs[0].fin;
    MessageQuiet(t, xs[1..], parts[1..]);
  }

  // --- the standard's examples ---

  lemma HalvesFit()
    ensures Pow2(0) == 1 && Pow2(1) == 2 && Pow2(2) == 4 && Pow2(3) == 8 && Pow2(4) == 16 && Pow2(5) == 32
    ensures Pow2(6) == 64 && Pow2(7) == 128 && Pow2(8) == 256
  {
    assert Pow2(2) == 2 * Pow2(1) && Pow2(4) == 2 * Pow2(3) && Pow2(6) == 2 * Pow2(5);
  }

  lemma FirstOctet()
    ensures XorOctet(0x7F, 0x37) == 0x48
  {
    EightBits();
    HalvesFit();
    assert Xor(0, 0, 1) == 0;
    assert Xor(1, 0, 2) == 1;
    assert Xor(3, 1, 3) == 2;
    assert Xor(7, 3, 4) == 4;
    assert Xor(15, 6, 5) == 9;
    assert Xor(31, 13, 6) == 18;
    assert Xor(63, 27, 7) == 36;
    assert Xor(127, 55, 8) == 72;
  }

  lemma SecondOctet()
    ensures XorOctet(0x9F, 0xFA) == 0x65
  {
    EightBits();
    HalvesFit();
    assert Xor(1, 1, 1) == 0;
    assert Xor(2, 3, 2) == 1;
    assert Xor(4, 7, 3) == 3;
    assert Xor(9, 15, 4) == 6;
    assert Xor(19, 31, 5) == 12;
    assert Xor(39, 62, 6) == 25;
    assert Xor(79, 125, 7) == 50;
    assert Xor(159, 250, 8) == 101;
  }

  lemma ThirdOctet()
    ensures XorOctet(0x4D, 0x21) == 0x6C
  {
    EightBits();
    HalvesFit();
    assert Xor(0, 0, 1) == 0;
    assert Xor(1, 0, 2) == 1;
    assert Xor(2, 1, 3) == 3;
    assert Xor(4, 2, 4) == 6;
    assert Xor(9, 4, 5) == 13;
    assert Xor(19, 8, 6) == 27;
    assert Xor(38, 16, 7) == 54;
    assert Xor(77, 33, 8) == 108;
  }

  lemma FourthOctet()
    ensures XorOctet(0x51, 0x3D) == 0x6C
  {
    EightBits();
    HalvesFit();
    assert Xor(0, 0, 1) == 0;
    assert Xor(1, 0, 2) == 1;
    assert Xor(2, 1, 3) == 3;
    assert Xor(5, 3, 4) == 6;
    assert Xor(10, 7, 5) == 13;
    assert Xor(20, 15, 6) == 27;
    assert Xor(40, 30, 7) == 54;
    assert Xor(81, 61, 8) == 108;
  }

  lemma FifthOctet()
    ensures XorOctet(0x58, 0x37) == 0x6F
  {
    EightBits();
    HalvesFit();
    assert Xor(0, 0, 1) == 0;
    assert Xor(1, 0, 2) == 1;
    assert Xor(2, 1, 3) == 3;
    assert Xor(5, 3, 4) == 6;
    assert Xor(11, 6, 5) == 13;
    assert Xor(22, 13, 6) == 27;
    assert Xor(44, 27, 7) == 55;
    assert Xor(88, 55, 8) == 111;
  }

  // The text Hello, masked.
  const HELLO: Octets := [0x81, 0x85, 0x37, 0xFA, 0x21, 0x3D, 0x7F, 0x9F, 0x4D, 0x51, 0x58]

  lemma HelloHeader()
    ensures ReadHeader(HELLO) == Some(Header(5, 2)) && Complete(HELLO) && Size(HELLO) == 11
    ensures HELLO[2..6] == [0x37, 0xFA, 0x21, 0x3D] && HELLO[6..11] == [0x7F, 0x9F, 0x4D, 0x51, 0x58]
    ensures HELLO[0] == 0x81 && |HELLO| == 11
  {
  }

  lemma HelloUnmasked()
    ensures Masked([0x7F, 0x9F, 0x4D, 0x51, 0x58], [0x37, 0xFA, 0x21, 0x3D]) == [0x48, 0x65, 0x6C, 0x6C, 0x6F]
  {
    hide XorOctet;
    FirstOctet();
    SecondOctet();
    ThirdOctet();
    FourthOctet();
    FifthOctet();
  }

  lemma HelloFrame()
    ensures Complete(HELLO) && Size(HELLO) == 11
    ensures First(HELLO) == Frame(TEXT, true, [0x48, 0x65, 0x6C, 0x6C, 0x6F])
  {
    hide Masked, ReadHeader, HELLO;
    HelloHeader();
    HelloUnmasked();
  }

  /** A masked text message of a single frame. */
  lemma Hello()
    ensures OnData(INITIAL, HELLO)
         == State([], [Frame(TEXT, true, [0x48, 0x65, 0x6C, 0x6C, 0x6F])], [[0x48, 0x65, 0x6C, 0x6C, 0x6F]], false, 1,
                  false)
  {
    hide Complete, First, Size;
    HelloFrame();
    NoFrame();
    assert INITIAL.buf + HELLO == HELLO && HELLO[11..] == [];
    var t := Take(INITIAL.(buf := HELLO), First(HELLO)).(buf := []);
    NothingLeft(t);
  }

  /** Two hundred and fifty-six octets, and sixty-four kilobytes: the length in two octets, and in eight. */
  lemma LongForms(rest: Octets)
    ensures ReadHeader([0x82, 0xFE, 0x01, 0x00] + rest) == Some(Header(256, 4))
    ensures ReadHeader([0x82, 0xFF, 0, 0, 0, 0, 0, 1, 0, 0] + rest) == Some(Header(65536, 10))
  {
    hide FromBe;
    var two, eight := [0x82, 0xFE, 0x01, 0x00] + rest, [0x82, 0xFF, 0, 0, 0, 0, 0, 1, 0, 0] + rest;
    assert two[2..4] == [1, 0] && eight[2..10] == [0, 0, 0, 0, 0, 1, 0, 0];
    BigEndian();
  }

  lemma BigEndian()
    ensures FromBe([1, 0]) == 256 && FromBe([0, 0, 0, 0, 0, 1, 0, 0]) == 65536
  {
    assert [1, 0][..1] == [1] && [1][..0] == [];
    assert FromBe([1]) == 1;
    var b: Octets := [0, 0, 0, 0, 0, 1, 0, 0];
    assert b[..7] == [0, 0, 0, 0, 0, 1, 0] && b[..7][..6] == [0, 0, 0, 0, 0, 1] && b[..7][..6][..5] == [0, 0, 0, 0, 0];
    assert [0, 0, 0, 0, 0][..4] == [0, 0, 0, 0] && [0, 0, 0, 0][..3] == [0, 0, 0] && [0, 0, 0][..2] == [0, 0];
    assert [0, 0][..1] == [0] && [0][..0] == [];
    assert FromBe([0]) == 0 && FromBe([0, 0]) == 0 && FromBe([0, 0, 0]) == 0 && FromBe([0, 0, 0, 0]) == 0;
    assert FromBe([0, 0, 0, 0, 0]) == 0 && FromBe(b[..7][..6]) == 1 && FromBe(b[..7]) == 256;
  }
}
