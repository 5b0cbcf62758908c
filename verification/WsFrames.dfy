/** The decoder of client frames on an upload connection (sections 5.2 and 5.3 of RFC 6455), fed in arbitrary pieces. */
module WsFrames {
  import opened Bytes
  import opened Wrappers

  datatype Frame = Frame(opcode: nat, fin: bool, payload: Octets)

  const CONTINUATION: nat := 0
  const TEXT: nat := 1
  const BINARY: nat := 2
  const CLOSE: nat := 8
  const PING: nat := 9

  /** The exclusive or of two numbers of that many bits. */
  function Xor(a: nat, b: nat, bits: nat): (r: nat)
    requires a < Pow2(bits) && b < Pow2(bits)
    ensures r < Pow2(bits)
  {
    if bits == 0 then 0 else (if a % 2 == b % 2 then 0 else 1) + 2 * Xor(a / 2, b / 2, bits - 1)
  }

  function Pow2(n: nat): (p: nat)
    ensures p > 0
  {
    if n == 0 then 1 else 2 * Pow2(n - 1)
  }

  lemma {:induction false} XorTwice(a: nat, b: nat, bits: nat)
    requires a < Pow2(bits) && b < Pow2(bits)
    ensures Xor(Xor(a, b, bits), b, bits) == a
  {
    if bits > 0 {
      XorTwice(a / 2, b / 2, bits - 1);
    }
  }

  lemma EightBits()
    ensures Pow2(8) == 256
  {
    assert Pow2(4) == 16;
  }

  function XorOctet(a: byte, b: byte): byte {
    EightBits();
    Xor(a, b, 8)
  }

  /** The payload with every octet combined with its octet of the mask. */
  function Masked(payload: Octets, mask: Octets): (r: Octets)
    requires |mask| == 4
    ensures |r| == |payload|
  {
    seq(|payload|, i requires 0 <= i < |payload| => XorOctet(payload[i], mask[i % 4]))
  }

  // --- one frame off the front of the buffer ---

  // How long header and payload are; no header yet, or an unmasked frame, is nothing to work on.
  datatype Header = Header(length: nat, size: nat)

  function ReadHeader(buf: Octets): (h: Option<Header>)
    ensures h.Some? ==> 2 <= h.value.size <= |buf|
  {
    if |buf| < 2 then None
    else
      var short := buf[1] % 0x80;
      if short == 126 then if |buf| < 4 then None else Some(Header(FromBe(buf[2..4]), 4))
      else if short == 127 then if |buf| < 10 then None else Some(Header(FromBe(buf[2..10]), 10))
      else Some(Header(short, 2))
  }

  function Total(h: Header): nat {
    h.size + 4 + h.length
  }

  predicate Complete(buf: Octets) {
    ReadHeader(buf).Some? && buf[1] >= 0x80 && Total(ReadHeader(buf).value) <= |buf|
  }

  function First(buf: Octets): Frame
    requires Complete(buf)
  {
    var h := ReadHeader(buf).value;
    Frame(buf[0] % 0x10, buf[0] >= 0x80, Masked(buf[h.size + 4..Total(h)], buf[h.size..h.size + 4]))
  }

  function Size(buf: Octets): (n: nat)
    requires Complete(buf)
    ensures 6 <= n <= |buf|
  {
    Total(ReadHeader(buf).value)
  }

  // --- the decoder ---

  // The connection: what is buffered, the frames decoded so far, and the text message being put together.
  datatype State = State(buf: Octets, frames: seq<Frame>, text: seq<Octets>, textOn: bool, fragOp: nat, ended: bool)

  const INITIAL := State([], [], [], false, 0, false)

  predicate TextFrame(s: State, f: Frame) {
    f.opcode == TEXT || (f.opcode == CONTINUATION && s.fragOp == TEXT)
  }

  // A close frame, or the continuation of a text that is over, ends the turn.
  predicate Stops(s: State, f: Frame) {
    f.opcode == CLOSE || (f.opcode == CONTINUATION && s.fragOp == TEXT && !s.textOn)
  }

  /** The state after a frame, apart from the buffer. */
  function Take(s: State, f: Frame): State {
    var t := s.(frames := s.frames + [f]);
    if Stops(s, f) then t.(ended := true)
    else if TextFrame(s, f) then
      t.(fragOp := TEXT, text := (if f.opcode == TEXT then [] else s.text) + [f.payload], textOn := !f.fin)
    else if f.opcode == BINARY then t.(fragOp := BINARY)
    else t
  }

  /** The loop over the frames in the buffer. */
  function Drain(s: State): State
    decreases |s.buf|
  {
    if !Complete(s.buf) then s
    else
      var f := First(s.buf);
      var t := Take(s, f).(buf := s.buf[Size(s.buf)..]);
      if Stops(s, f) then t else Drain(t)
  }

  function OnData(s: State, chunk: Octets): State {
    Drain(s.(buf := s.buf + chunk))
  }

  function Feed(s: State, chunks: seq<Octets>): State {
    if chunks == [] then s else OnData(Feed(s, chunks[..|chunks| - 1]), chunks[|chunks| - 1])
  }

  function Joined(chunks: seq<Octets>): Octets {
    if chunks == [] then [] else Joined(chunks[..|chunks| - 1]) + chunks[|chunks| - 1]
  }

  // --- the program ---

  class Decoder {
    var buf: Octets
    var frames: seq<Frame>
    var text: seq<Octets>
    var textOn: bool
    var fragOp: nat
    var ended: bool

    ghost function Now(): State
      reads this
    {
      State(buf, frames, text, textOn, fragOp, ended)
    }

    constructor ()
      ensures Now() == INITIAL
    {
      buf, frames, text, textOn, fragOp, ended := [], [], [], false, 0, false;
    }

    /** Unmasking in place. */
    method Unmask(masked: Octets, mask: Octets) returns (payload: Octets)
      requires |mask| == 4
      ensures payload == Masked(masked, mask)
    {
      var a := new byte[|masked|](i requires 0 <= i < |masked| => masked[i]);
      var i := 0;
      while i < a.Length
        invariant i <= a.Length
        invariant forall k :: 0 <= k < i ==> a[k] == XorOctet(masked[k], mask[k % 4])
        invariant forall k :: i <= k < a.Length ==> a[k] == masked[k]
      {
        a[i] := XorOctet(a[i], mask[i % 4]);
        i := i + 1;
      }
      payload := a[..];
    }

    /** What a decoded frame changes, and whether it ends the turn. */
    method Handle(opcode: nat, fin: bool, pay: Octets) returns (stop: bool)
      modifies this`frames, this`text, this`textOn, this`fragOp, this`ended
      ensures Now() == Take(old(Now()), Frame(opcode, fin, pay))
      ensures stop == Stops(old(Now()), Frame(opcode, fin, pay))
    {
      frames := frames + [Frame(opcode, fin, pay)];
      stop := false;
      if opcode == CLOSE {
        ended := true;
        return true;
      }
      if opcode == TEXT || (opcode == CONTINUATION && fragOp == TEXT) {
        if opcode == TEXT {
          text := [];
          textOn := true;
          fragOp := TEXT;
        }
        if !textOn {
          ended := true;
          return true;
        }
        text := text + [pay];
        if fin {
          textOn := false;
        }
      } else if opcode == BINARY {
        fragOp := BINARY;
      }
    }

    /** The handler of one data event. */
    method Data(chunk: Octets)
      modifies this
      ensures Now() == OnData(old(Now()), chunk)
    {
      hide ReadHeader, Masked, Take, Stops;
      buf := buf + chunk;
      ghost var start := Now();
      while Complete(buf)
        invariant Drain(Now()) == Drain(start)
        decreases |buf|
      {
        var h := ReadHeader(buf).value;
        var opcode, fin := buf[0] % 0x10, buf[0] >= 0x80;
        var pay := Unmask(buf[h.size + 4..Total(h)], buf[h.size..h.size + 4]);
        ghost var before := Now();
        buf := buf[Total(h)..];
        TakeBuffer(before, Now(), Frame(opcode, fin, pay));
        StopsAlike(before, Now(), Frame(opcode, fin, pay));
        var stop := Handle(opcode, fin, pay);
        if stop {
          return;
        }
      }
    }
  }

  // --- how the stream is cut does not matter ---

  lemma SamePart(a: Octets, b: Octets, n: nat, i: nat, j: nat)
    requires i <= j <= n <= |a| && n <= |b| && a[..n] == b[..n]
    ensures a[i..j] == b[i..j]
  {
    SubSub(a, 0, n, i, j);
    SubSub(b, 0, n, i, j);
  }

  lemma SameHeader(a: Octets, b: Octets, n: nat)
    requires ReadHeader(a).Some? && ReadHeader(a).value.size <= n <= |a| && n <= |b| && a[..n] == b[..n]
    ensures ReadHeader(b) == ReadHeader(a)
  {
    var size := ReadHeader(a).value.size;
    assert a[..n][1] == a[1] && b[..n][1] == b[1];
    if size == 4 {
      SamePart(a, b, n, 2, 4);
    } else if size == 10 {
      SamePart(a, b, n, 2, 10);
    }
  }

  /** What the first frame is depends on its own octets only. */
  lemma SameFrame(a: Octets, b: Octets)
    requires Complete(a) && Size(a) <= |b| && a[..Size(a)] == b[..Size(a)]
    ensures Complete(b) && First(b) == First(a) && Size(b) == Size(a)
  {
    hide ReadHeader, Masked;
    var h, n := ReadHeader(a).value, Size(a);
    SameHeader(a, b, n);
    assert a[..n][0] == a[0] && b[..n][0] == b[0] && a[..n][1] == a[1] && b[..n][1] == b[1];
    SamePart(a, b, n, h.size + 4, n);
    SamePart(a, b, n, h.size, h.size + 4);
  }

  /** A complete frame stays what it is when more data arrives. */
  lemma CompleteStays(a: Octets, b: Octets)
    requires Complete(a)
    ensures Complete(a + b) && First(a + b) == First(a) && Size(a + b) == Size(a)
    ensures (a + b)[Size(a)..] == a[Size(a)..] + b
  {
    hide First, Size, Complete;
    SizeBound(a);
    assert (a + b)[..Size(a)] == a[..Size(a)];
    SameFrame(a, a + b);
  }

  // No frame that ends a turn is followed by another complete frame.
  predicate Calm(s: State)
    decreases |s.buf|
  {
    Complete(s.buf) ==>
      var t := Take(s, First(s.buf)).(buf := s.buf[Size(s.buf)..]);
      if Stops(s, First(s.buf)) then !Complete(t.buf) else Calm(t)
  }

  function With(s: State, more: Octets): State {
    s.(buf := s.buf + more)
  }

  lemma {:induction false} DrainTwice(s: State, b: Octets)
    requires Calm(With(s, b))
    ensures OnData(Drain(s), b) == OnData(s, b) && Calm(With(Drain(s), b))
    decreases |s.buf|
  {
    hide First, Size, Complete, Stops, Take;
    if Complete(s.buf) {
      CompleteStays(s.buf, b);
      SizeBound(s.buf);
      var f, n := First(s.buf), Size(s.buf);
      var t := Take(s, f).(buf := s.buf[n..]);
      TakeBuffer(s, With(s, b), f);
      assert Take(With(s, b), f).(buf := (s.buf + b)[n..]) == With(t, b);
      if Stops(s, f) {
        StopsAlike(s, With(s, b), f);
      } else {
        StopsAlike(s, With(s, b), f);
        DrainTwice(t, b);
      }
    }
  }

  lemma SizeBound(buf: Octets)
    requires Complete(buf)
    ensures 0 < Size(buf) <= |buf|
  {
  }

  lemma TakeBuffer(s: State, t: State, f: Frame)
    requires t == s.(buf := t.buf)
    ensures Take(t, f) == Take(s, f).(buf := t.buf) && Take(s, f).buf == s.buf
  {
  }

  lemma StopsAlike(s: State, t: State, f: Frame)
    requires t == s.(buf := t.buf)
    ensures Stops(s, f) == Stops(t, f)
  {
  }

  lemma CalmPrefix(s: State, b: Octets)
    requires Calm(With(s, b))
    ensures Calm(s)
    decreases |s.buf|
  {
    hide First, Size, Complete, Stops, Take;
    if Complete(s.buf) {
      CompleteStays(s.buf, b);
      SizeBound(s.buf);
      var f, n := First(s.buf), Size(s.buf);
      var t := Take(s, f).(buf := s.buf[n..]);
      TakeBuffer(s, With(s, b), f);
      assert Take(With(s, b), f).(buf := (s.buf + b)[n..]) == With(t, b);
      StopsAlike(s, With(s, b), f);
      if Stops(s, f) {
        if Complete(t.buf) {
          CompleteStays(t.buf, b);
        }
      } else {
        CalmPrefix(t, b);
      }
    }
  }

  lemma {:induction false} FeedIsOnce(chunks: seq<Octets>)
    requires Calm(With(INITIAL, Joined(chunks)))
    ensures Feed(INITIAL, chunks) == OnData(INITIAL, Joined(chunks))
  {
    hide Calm, Drain;
    if chunks == [] {
      NothingToDrain();
      assert INITIAL.buf + [] == [];
    } else {
      var n := |chunks| - 1;
      var before := Joined(chunks[..n]);
      assert With(INITIAL, Joined(chunks)) == With(With(INITIAL, before), chunks[n]);
      CalmPrefix(With(INITIAL, before), chunks[n]);
      FeedIsOnce(chunks[..n]);
      DrainTwice(With(INITIAL, before), chunks[n]);
    }
  }

  lemma NothingToDrain()
    ensures Drain(INITIAL) == INITIAL
  {
  }

  lemma {:induction false} DrainMore(s: State)
    ensures |Drain(s).frames| >= |s.frames| + if Complete(s.buf) then 1 else 0
    decreases |s.buf|
  {
    hide First, Size, Complete, Stops, Take;
    if Complete(s.buf) {
      SizeBound(s.buf);
      var f := First(s.buf);
      TakesOne(s, f);
      var t := Take(s, f).(buf := s.buf[Size(s.buf)..]);
      if !Stops(s, f) {
        DrainMore(t);
      }
    }
  }

  lemma TakesOne(s: State, f: Frame)
    ensures Take(s, f).frames == s.frames + [f]
  {
  }

  // The buffer's first k bytes.
  function Cut(s: State, k: nat): State
    requires k <= |s.buf|
  {
    s.(buf := s.buf[..k])
  }

  lemma CutFrame(s: State, k: nat)
    requires Complete(s.buf) && Size(s.buf) <= k <= |s.buf|
    ensures Complete(s.buf[..k]) && First(s.buf[..k]) == First(s.buf) && Size(s.buf[..k]) == Size(s.buf)
  {
    hide First, Size, Complete;
    assert s.buf[..k][..Size(s.buf)] == s.buf[..Size(s.buf)];
    SameFrame(s.buf, s.buf[..k]);
  }

  /** A stream that is not calm is decoded further when it is cut behind the frame that ends the turn. */
  lemma {:induction false} CutMatters(s: State) returns (k: nat)
    requires !Calm(s)
    ensures k <= |s.buf|
    ensures |OnData(Drain(Cut(s, k)), s.buf[k..]).frames| > |Drain(s).frames|
    decreases |s.buf|
  {
    hide First, Size, Complete, Stops;
    SizeBound(s.buf);
    var f, n := First(s.buf), Size(s.buf);
    var t := Take(s, f).(buf := s.buf[n..]);
    if Stops(s, f) {
      k := n;
      CutFrame(s, n);
      TakeBuffer(s, Cut(s, n), f);
      StopsAlike(s, Cut(s, n), f);
      var u := Drain(Cut(s, n));
      assert s.buf[..n][n..] == [];
      assert u.buf == [] && u.buf + s.buf[n..] == s.buf[n..];
      DrainMore(u.(buf := s.buf[n..]));
    } else {
      var j := CutMatters(t);
      k := n + j;
      CutFrame(s, k);
      TakeBuffer(s, Cut(s, k), f);
      StopsAlike(s, Cut(s, k), f);
      assert s.buf[..k][n..] == t.buf[..j];
      assert s.buf[k..] == t.buf[j..];
    }
  }

  /** However a stream is divided, the connection ends up the same, if and only if no close frame or stray text
    * continuation in it is followed by another complete frame. */
  lemma CutIndependent(stream: Octets)
    ensures (forall chunks :: Joined(chunks) == stream ==> Feed(INITIAL, chunks) == OnData(INITIAL, stream))
       <==> Calm(With(INITIAL, stream))
  {
    hide Calm, OnData, Feed, Joined;
    if Calm(With(INITIAL, stream)) {
      forall chunks | Joined(chunks) == stream
        ensures Feed(INITIAL, chunks) == OnData(INITIAL, stream)
      {
        FeedIsOnce(chunks);
      }
    } else {
      var chunks := CutDiffers(stream);
    }
  }

  lemma CutDiffers(stream: Octets) returns (chunks: seq<Octets>)
    requires !Calm(With(INITIAL, stream))
    ensures Joined(chunks) == stream && Feed(INITIAL, chunks) != OnData(INITIAL, stream)
  {
    hide Calm, Drain, Feed, Joined;
    assert INITIAL.buf + stream == stream;
    var k := CutMatters(With(INITIAL, stream));
    var a, b := stream[..k], stream[k..];
    chunks := [a, b];
    TwoChunks(a, b);
    assert a + b == stream;
    assert INITIAL.buf + a == a;
  }

  lemma TwoChunks(a: Octets, b: Octets)
    ensures Joined([a, b]) == a + b && Feed(INITIAL, [a, b]) == OnData(OnData(INITIAL, a), b)
  {
    assert [a, b][..1] == [a] && [a][..0] == [];
    assert Joined([a]) == [] + a == a;
    assert Feed(INITIAL, [a]) == OnData(INITIAL, a);
  }

  // --- a stream whose division matters ---

  // A close frame and a ping, both empty, with a mask of zeros.
  const CLOSE_FRAME: Octets := [0x88, 0x80, 0, 0, 0, 0]
  const PING_FRAME: Octets := [0x89, 0x80, 0, 0, 0, 0]

  lemma EmptyFrame(buf: Octets, rest: Octets, opcode: nat)
    requires buf == [0x80 + opcode, 0x80, 0, 0, 0, 0] + rest && opcode < 0x10
    ensures Complete(buf) && First(buf) == Frame(opcode, true, []) && Size(buf) == 6 && buf[6..] == rest
  {
  }

  lemma NothingLeft(s: State)
    ensures s.buf == [] ==> Drain(s) == s
  {
  }

  /** Both in one event, the ping stays in the buffer; in two, it is decoded. */
  lemma CutAfterClose()
    ensures !Calm(With(INITIAL, CLOSE_FRAME + PING_FRAME))
    ensures OnData(INITIAL, CLOSE_FRAME + PING_FRAME).frames == [Frame(CLOSE, true, [])]
    ensures Feed(INITIAL, [CLOSE_FRAME, PING_FRAME]).frames == [Frame(CLOSE, true, []), Frame(PING, true, [])]
  {
    hide Complete, First, Size;
    EmptyFrame(CLOSE_FRAME + PING_FRAME, PING_FRAME, CLOSE);
    EmptyFrame(PING_FRAME, [], PING);
    EmptyFrame(CLOSE_FRAME, [], CLOSE);
    TwoChunks(CLOSE_FRAME, PING_FRAME);
    assert INITIAL.buf + (CLOSE_FRAME + PING_FRAME) == CLOSE_FRAME + PING_FRAME;
    assert INITIAL.buf + CLOSE_FRAME == CLOSE_FRAME;
    assert PING_FRAME + [] == PING_FRAME && CLOSE_FRAME + [] == CLOSE_FRAME;
    var t := OnData(INITIAL, CLOSE_FRAME);
    assert t == State([], [Frame(CLOSE, true, [])], [], false, 0, true);
    assert t.buf + PING_FRAME == PING_FRAME;
    NothingLeft(Take(t.(buf := PING_FRAME), Frame(PING, true, [])).(buf := []));
  }

  // --- encoding, as a client does it ---

  /** n octets of a number, most significant first. */
  function Wide(v: nat, n: nat): (b: Octets)
    ensures |b| == n
  {
    if n == 0 then [] else Wide(v / 256, n - 1) + [v % 256]
  }

  lemma {:induction false} WideBack(v: nat, n: nat)
    requires v < Pow256(n)
    ensures FromBe(Wide(v, n)) == v
  {
    if n > 0 {
      WideBack(v / 256, n - 1);
      var b := Wide(v, n);
      assert b[..|b| - 1] == Wide(v / 256, n - 1);
    }
  }

  // The payload's length, with the mask's bit: in the second octet, or behind it in two or in eight more.
  function Lengths(n: nat): (b: Octets)
    ensures |b| in {1, 3, 9} && b[0] >= 0x80
  {
    if n < 126 then [0x80 + n]
    else if n < 65536 then [0x80 + 126] + Wide(n, 2)
    else [0x80 + 127] + Wide(n, 8)
  }

  // A frame that can be sent.
  predicate Encodable(f: Frame) {
    f.opcode < 16 && |f.payload| < 0x8000_0000_0000_0000
  }

  /** A masked frame. */
  function Encode(f: Frame, mask: Octets): Octets
    requires |mask| == 4 && Encodable(f)
  {
    [f.opcode + if f.fin then 0x80 else 0] + (Lengths(|f.payload|) + (mask + Masked(f.payload, mask)))
  }

  lemma MaskTwice(payload: Octets, mask: Octets)
    requires |mask| == 4
    ensures Masked(Masked(payload, mask), mask) == payload
  {
    hide Xor, Pow2;
    EightBits();
    forall i | 0 <= i < |payload|
      ensures Masked(Masked(payload, mask), mask)[i] == payload[i]
    {
      XorTwice(payload[i], mask[i % 4], 8);
    }
  }

  lemma HeaderBack(first: byte, n: nat, rest: Octets)
    requires n < 0x8000_0000_0000_0000
    ensures var b := [first] + (Lengths(n) + rest);
      ReadHeader(b) == Some(Header(n, 1 + |Lengths(n)|)) && b[1] >= 0x80
  {
    hide Wide, FromBe;
    var b := [first] + (Lengths(n) + rest);
    assert b[1] == Lengths(n)[0];
    if 126 <= n < 65536 {
      assert Pow256(2) == 65536;
      WideBack(n, 2);
      assert b[2..4] == Wide(n, 2);
    } else if n >= 65536 {
      assert Pow256(4) == 0x1_0000_0000;
      assert Pow256(8) == 0x1_0000_0000_0000_0000;
      WideBack(n, 8);
      assert b[2..10] == Wide(n, 8);
    }
  }

  lemma Layout(first: byte, l: Octets, mask: Octets, p: Octets, rest: Octets)
    ensures var b, h, m := [first] + (l + (mask + p)) + rest, 1 + |l|, 1 + |l| + |mask|;
      && b == [first] + (l + (mask + (p + rest)))
      && b[0] == first && b[h..m] == mask && b[m..m + |p|] == p && b[m + |p|..] == rest
  {
    var b, h, m := [first] + (l + (mask + p)) + rest, 1 + |l|, 1 + |l| + |mask|;
    assert b == ([first] + l) + (mask + (p + rest));
    assert b == ([first] + l + mask) + (p + rest);
    assert b == ([first] + l + mask + p) + rest;
  }

  /** The decoder reads back the frame that was encoded, whatever follows it. */
  lemma FrameBack(f: Frame, mask: Octets, rest: Octets)
    requires Encodable(f) && |mask| == 4
    ensures var b := Encode(f, mask) + rest;
      Complete(b) && First(b) == f && Size(b) == |Encode(f, mask)| && b[Size(b)..] == rest
  {
    hide ReadHeader, Lengths, Masked;
    var l, p := Lengths(|f.payload|), Masked(f.payload, mask);
    var first := f.opcode + if f.fin then 0x80 else 0;
    Layout(first, l, mask, p, rest);
    HeaderBack(first, |f.payload|, mask + (p + rest));
    MaskTwice(f.payload, mask);
  }

  datatype Sent = Sent(frame: Frame, mask: Octets)

  predicate Sendable(x: Sent) {
    Encodable(x.frame) && |x.mask| == 4
  }

  function EncodeAll(xs: seq<Sent>): Octets
    requires forall i :: 0 <= i < |xs| ==> Sendable(xs[i])
  {
    if xs == [] then []
    else
      assert Sendable(xs[0]);
      Encode(xs[0].frame, xs[0].mask) + EncodeAll(xs[1..])
  }

  function Frames(xs: seq<Sent>): (r: seq<Frame>)
    ensures |r| == |xs|
  {
    if xs == [] then [] else [xs[0].frame] + Frames(xs[1..])
  }

  // None of the frames ends the turn.
  predicate Quiet(s: State, xs: seq<Sent>)
    decreases |xs|
  {
    xs == [] || (!Stops(s, xs[0].frame) && Quiet(Take(s, xs[0].frame), xs[1..]))
  }

  lemma QuietBuffer(s: State, b: Octets, xs: seq<Sent>)
    ensures Quiet(s, xs) == Quiet(s.(buf := b), xs)
    decreases |xs|
  {
    hide Take, Stops;
    if xs != [] {
      StopsAlike(s, s.(buf := b), xs[0].frame);
      TakeBuffer(s, s.(buf := b), xs[0].frame);
      QuietBuffer(Take(s, xs[0].frame), b, xs[1..]);
    }
  }

  lemma DrainFirst(s: State, x: Sent, rest: Octets)
    requires Sendable(x) && !Stops(s, x.frame) && s.buf == Encode(x.frame, x.mask) + rest
    ensures var t := Take(s, x.frame).(buf := rest);
      |rest| < |s.buf| && Drain(s) == Drain(t) && Calm(s) == Calm(t) && t.frames == s.frames + [x.frame]
  {
    hide First, Size, Complete, Stops, Take, Encode;
    FrameBack(x.frame, x.mask, rest);
    SizeBound(s.buf);
    TakesOne(s, x.frame);
  }

  lemma FramesStep(before: seq<Frame>, xs: seq<Sent>)
    requires xs != []
    ensures before + [xs[0].frame] + Frames(xs[1..]) == before + Frames(xs)
  {
  }

  lemma EncodedStep(xs: seq<Sent>, tail: Octets)
    requires xs != [] && forall i :: 0 <= i < |xs| ==> Sendable(xs[i])
    ensures Sendable(xs[0])
    ensures EncodeAll(xs) + tail == Encode(xs[0].frame, xs[0].mask) + (EncodeAll(xs[1..]) + tail)
  {
    hide Encode;
    Regroup(Encode(xs[0].frame, xs[0].mask), EncodeAll(xs[1..]), tail);
  }

  lemma Regroup(a: Octets, b: Octets, c: Octets)
    ensures a + b + c == a + (b + c)
  {
  }

  lemma DrainNone(s: State)
    requires !Complete(s.buf)
    ensures Drain(s) == s && Calm(s)
  {
  }

  lemma {:induction false} DrainAll(s: State, xs: seq<Sent>, tail: Octets)
    requires (forall i :: 0 <= i < |xs| ==> Sendable(xs[i])) && Quiet(s, xs) && !Complete(tail)
    requires s.buf == EncodeAll(xs) + tail
    ensures Drain(s).frames == s.frames + Frames(xs) && Drain(s).buf == tail && Calm(s)
    decreases |xs|
  {
    hide Complete, Stops, Take, Encode, Drain, Calm, First, Size, Sendable;
    if xs == [] {
      assert [] + tail == tail;
      DrainNone(s);
    } else {
      var x, rest := xs[0], EncodeAll(xs[1..]) + tail;
      EncodedStep(xs, tail);
      DrainFirst(s, x, rest);
      QuietBuffer(Take(s, x.frame), rest, xs[1..]);
      DrainAll(Take(s, x.frame).(buf := rest), xs[1..], tail);
      FramesStep(s.frames, xs);
    }
  }

  /** Masked frames, none of them ending the turn, are all decoded from any division of their stream, and what is
    * left of an incomplete last frame stays in the buffer. */
  lemma DecodesAll(xs: seq<Sent>, tail: Octets, chunks: seq<Octets>)
    requires (forall i :: 0 <= i < |xs| ==> Sendable(xs[i])) && Quiet(INITIAL, xs) && !Complete(tail)
    requires Joined(chunks) == EncodeAll(xs) + tail
    ensures Feed(INITIAL, chunks).frames == Frames(xs) && Feed(INITIAL, chunks).buf == tail
  {
    hide Calm, Drain, Feed, Quiet, Complete, Joined;
    var stream := EncodeAll(xs) + tail;
    assert INITIAL.buf + stream == stream;
    QuietBuffer(INITIAL, stream, xs);
    DrainAll(With(INITIAL, stream), xs, tail);
    assert [] + Frames(xs) == Frames(xs);
    FeedIsOnce(chunks);
  }
}
