/** What the shrunken icon shows, in terms of the octets of the original. */
module IconColours {
  import opened Bytes
  import I = IconBox

  // The octet of channel k at (x, y), the pixels being laid out in rows of w, four octets each.
  function At(img: I.Image, k: nat, x: nat, y: nat): byte
    requires I.Picture(img) && k < 4 && x < img.w && y < img.h
  {
    I.OffsetInside(x, y, img.w, img.h, 4, k);
    img.rgba[(y * img.w + x) * 4 + k]
  }

  // The octet that Downscale leaves for channel k at (x, y).
  function Shown(img: I.Image, k: nat, x: nat, y: nat): byte
    requires I.Picture(img) && k < 3
  {
    I.Octet(img, (y * I.Boxes(img.w, I.Step(img.w, img.h)) + x) * 3 + k)
  }

  // Is there such a pixel in the small picture?
  predicate Small(img: I.Image, x: nat, y: nat)
    requires I.Picture(img)
  {
    x < I.Boxes(img.w, I.Step(img.w, img.h)) && y < I.Boxes(img.h, I.Step(img.w, img.h))
  }

  // The pixel (i, j) of the original belongs to the pixel (x, y) of the small picture, at this many to one.
  predicate Belongs(img: I.Image, step: nat, x: nat, y: nat, i: nat, j: nat) {
    x * step <= i < (x + 1) * step && i < img.w && y * step <= j < (y + 1) * step && j < img.h
  }

  /** The least number of pixels to one that leaves no more than 128 on a side. */
  lemma LeastStep(img: I.Image)
    requires I.Picture(img)
    ensures var s := I.Step(img.w, img.h);
      && s > 0 && img.w <= 128 * s && img.h <= 128 * s
      && (s > 1 ==> img.w > 128 * (s - 1) || img.h > 128 * (s - 1))
  {
  }

  lemma InBox(img: I.Image, x: nat, y: nat, i: nat, j: nat)
    requires I.Picture(img) && Small(img, x, y)
    ensures var b := I.BoxAt(img, x, y);
      && I.Inside(img, b)
      && (b.x0 <= i < b.x1 && b.y0 <= j < b.y1 <==> Belongs(img, I.Step(img.w, img.h), x, y, i, j))
  {
    hide I.Step, I.Boxes;
    I.BoxInside(img, x, y);
  }

  lemma ShownIs(img: I.Image, k: nat, x: nat, y: nat)
    requires I.Picture(img) && k < 3 && Small(img, x, y)
    ensures Shown(img, k, x, y) == I.Small(img, k, x, y)
  {
    hide I.Step, I.Boxes, I.Octet, I.Small;
    I.OctetIs(img, x, y, k);
  }

  // --- blending ---

  lemma Opaque(p: byte, back: byte)
    ensures I.Blend(p, 255, back) == p
  {
  }

  lemma Transparent(p: byte, back: byte)
    ensures I.Blend(p, 0, back) == back
  {
  }

  /** More opacity brings the pixel's own colour nearer. */
  lemma Nearer(p: byte, a: byte, b: byte, back: byte)
    requires a <= b
    ensures p >= back ==> I.Blend(p, a, back) <= I.Blend(p, b, back)
    ensures p <= back ==> I.Blend(p, b, back) <= I.Blend(p, a, back)
  {
    var u, v := p * a + back * (255 - a), p * b + back * (255 - b);
    assert v - u == (p - back) * (b - a);
    if p >= back {
      Signs(p - back, b - a);
      Divided(u + 127, v + 127);
    }
    if p <= back {
      Signs(back - p, b - a);
      assert (p - back) * (b - a) == -((back - p) * (b - a));
      Divided(v + 127, u + 127);
    }
  }

  lemma Signs(a: int, b: int)
    requires a >= 0 && b >= 0
    ensures a * b >= 0
  {
  }

  lemma Divided(u: int, v: int)
    requires u <= v
    ensures u / 255 <= v / 255
  {
  }

  /** The blended value is the nearest to the weighted mean. */
  lemma Nearest(p: byte, a: byte, back: byte)
    ensures -127 <= 255 * I.Blend(p, a, back) - (p * a + back * (255 - a)) <= 127
  {
  }

  lemma ValueIs(img: I.Image, k: nat, x: nat, y: nat)
    requires I.Picture(img) && k < 3 && x < img.w && y < img.h
    ensures I.Value(img, k, x, y) == I.Blend(At(img, k, x, y), At(img, 3, x, y), [20, 21, 32][k])
  {
    hide I.Blend;
  }

  // --- the small picture ---

  /** Where the original is opaque, a channel lies between the extremes of that channel. */
  lemma OpaqueBetween(img: I.Image, k: nat, x: nat, y: nat, lo: nat, hi: nat)
    requires I.Picture(img) && k < 3 && Small(img, x, y)
    requires forall i: nat, j: nat :: Belongs(img, I.Step(img.w, img.h), x, y, i, j) ==>
      At(img, 3, i, j) == 255 && lo <= At(img, k, i, j) <= hi
    ensures lo <= Shown(img, k, x, y) <= hi
  {
    hide I.Step, I.Boxes, I.Value, I.Blend, Belongs, At, Shown;
    var b := I.BoxAt(img, x, y);
    InBox(img, x, y, 0, 0);
    forall i, j | b.x0 <= i < b.x1 && b.y0 <= j < b.y1
      ensures lo <= I.Value(img, k, i, j) <= hi
    {
      InBox(img, x, y, i, j);
      ValueIs(img, k, i, j);
      Opaque(At(img, k, i, j), [20, 21, 32][k]);
    }
    I.ChannelBetween(img, k, x, y, lo, hi);
    ShownIs(img, k, x, y);
  }

  /** Where it is transparent, the backdrop shows. */
  lemma TransparentBackdrop(img: I.Image, x: nat, y: nat)
    requires I.Picture(img) && Small(img, x, y)
    requires forall i: nat, j: nat :: Belongs(img, I.Step(img.w, img.h), x, y, i, j) ==> At(img, 3, i, j) == 0
    ensures Shown(img, 0, x, y) == 20 && Shown(img, 1, x, y) == 21 && Shown(img, 2, x, y) == 32
  {
    hide I.Step, I.Boxes, Belongs, At, Shown;
    BackdropChannel(img, 0, x, y, 20);
    BackdropChannel(img, 1, x, y, 21);
    BackdropChannel(img, 2, x, y, 32);
  }

  lemma BackdropChannel(img: I.Image, k: nat, x: nat, y: nat, back: byte)
    requires I.Picture(img) && k < 3 && Small(img, x, y) && back == [20, 21, 32][k]
    requires forall i: nat, j: nat :: Belongs(img, I.Step(img.w, img.h), x, y, i, j) ==> At(img, 3, i, j) == 0
    ensures Shown(img, k, x, y) == back
  {
    hide I.Step, I.Boxes, I.Value, I.Blend, Belongs, At, Shown;
    var b := I.BoxAt(img, x, y);
    InBox(img, x, y, 0, 0);
    forall i, j | b.x0 <= i < b.x1 && b.y0 <= j < b.y1
      ensures back <= I.Value(img, k, i, j) <= back
    {
      InBox(img, x, y, i, j);
      ValueIs(img, k, i, j);
      Transparent(At(img, k, i, j), back);
    }
    I.ChannelBetween(img, k, x, y, back, back);
    ShownIs(img, k, x, y);
  }

  // Two pictures of the same colours, the second nowhere less opaque.
  ghost predicate MoreOpaque(a: I.Image, b: I.Image)
    requires I.Picture(a) && I.Picture(b)
  {
    && a.w == b.w && a.h == b.h
    && forall x: nat, y: nat :: x < a.w && y < a.h ==>
         && At(a, 3, x, y) <= At(b, 3, x, y)
         && forall k: nat :: k < 3 ==> At(a, k, x, y) == At(b, k, x, y)
  }

  lemma {:induction false} RowGrows(a: I.Image, b: I.Image, k: nat, y: nat, x0: nat, x1: nat)
    requires I.Picture(a) && I.Picture(b) && a.w == b.w && k < 3 && y < a.h && y < b.h && x0 <= x1 <= a.w
    requires forall x :: x0 <= x < x1 ==> I.Value(a, k, x, y) <= I.Value(b, k, x, y)
    ensures I.RowSum(a, k, y, x0, x1) <= I.RowSum(b, k, y, x0, x1)
    decreases x1
  {
    hide I.Value;
    if x0 < x1 {
      RowGrows(a, b, k, y, x0, x1 - 1);
    }
  }

  lemma {:induction false} BoxGrows(a: I.Image, b: I.Image, k: nat, c: I.Box)
    requires I.Picture(a) && I.Picture(b) && a.w == b.w && a.h == b.h && k < 3
    requires c.x0 <= c.x1 <= a.w && c.y0 <= c.y1 <= a.h
    requires forall x, y :: c.x0 <= x < c.x1 && c.y0 <= y < c.y1 ==> I.Value(a, k, x, y) <= I.Value(b, k, x, y)
    ensures I.BoxSum(a, k, c.x0, c.x1, c.y0, c.y1) <= I.BoxSum(b, k, c.x0, c.x1, c.y0, c.y1)
    decreases c.y1
  {
    hide I.Value;
    if c.y0 < c.y1 {
      BoxGrows(a, b, k, c.(y1 := c.y1 - 1));
      RowGrows(a, b, k, c.y1 - 1, c.x0, c.x1);
    }
  }

  lemma AverageGrows(s: nat, t: nat, n: nat)
    requires s <= t && n > 0
    ensures I.Average(s, n) <= I.Average(t, n)
  {
    var u, v := s + n / 2, t + n / 2;
    I.DivMul(u, n);
    I.DivMul(v, n);
    I.LessFactor(u / n, v / n + 1, n);
  }

  lemma SmallGrows(a: I.Image, b: I.Image, k: nat, x: nat, y: nat)
    requires I.Picture(a) && I.Picture(b) && a.w == b.w && a.h == b.h && k < 3 && Small(a, x, y)
    requires forall i: nat, j: nat :: Belongs(a, I.Step(a.w, a.h), x, y, i, j) ==>
      I.Value(a, k, i, j) <= I.Value(b, k, i, j)
    ensures Shown(a, k, x, y) <= Shown(b, k, x, y)
  {
    hide I.Step, I.Boxes, I.Value, Belongs, Shown, I.BoxSum;
    var c := I.BoxAt(a, x, y);
    InBox(a, x, y, 0, 0);
    forall i, j | c.x0 <= i < c.x1 && c.y0 <= j < c.y1
      ensures I.Value(a, k, i, j) <= I.Value(b, k, i, j)
    {
      InBox(a, x, y, i, j);
    }
    I.BoxInside(a, x, y);
    BoxGrows(a, b, k, c);
    AverageGrows(I.BoxSum(a, k, c.x0, c.x1, c.y0, c.y1), I.BoxSum(b, k, c.x0, c.x1, c.y0, c.y1), I.Pixels(c));
    ShownIs(a, k, x, y);
    ShownIs(b, k, x, y);
  }

  /** With more opacity a channel moves away from the backdrop, towards the original's own colours. */
  lemma MovesToPixel(a: I.Image, b: I.Image, k: nat, x: nat, y: nat)
    requires I.Picture(a) && I.Picture(b) && MoreOpaque(a, b) && k < 3 && Small(a, x, y)
    ensures
      (forall i: nat, j: nat :: Belongs(a, I.Step(a.w, a.h), x, y, i, j) ==> At(a, k, i, j) >= [20, 21, 32][k]) ==>
        Shown(a, k, x, y) <= Shown(b, k, x, y)
    ensures
      (forall i: nat, j: nat :: Belongs(a, I.Step(a.w, a.h), x, y, i, j) ==> At(a, k, i, j) <= [20, 21, 32][k]) ==>
        Shown(b, k, x, y) <= Shown(a, k, x, y)
  {
    hide I.Step, I.Boxes, I.Value, I.Blend, Shown, At;
    var back := [20, 21, 32][k];
    forall i: nat, j: nat | Belongs(a, I.Step(a.w, a.h), x, y, i, j)
      ensures At(a, k, i, j) >= back ==> I.Value(a, k, i, j) <= I.Value(b, k, i, j)
      ensures At(a, k, i, j) <= back ==> I.Value(b, k, i, j) <= I.Value(a, k, i, j)
    {
      ValueIs(a, k, i, j);
      ValueIs(b, k, i, j);
      Nearer(At(a, k, i, j), At(a, 3, i, j), At(b, 3, i, j), back);
    }
    if forall i: nat, j: nat :: Belongs(a, I.Step(a.w, a.h), x, y, i, j) ==> At(a, k, i, j) >= back {
      SmallGrows(a, b, k, x, y);
    }
    if forall i: nat, j: nat :: Belongs(a, I.Step(a.w, a.h), x, y, i, j) ==> At(a, k, i, j) <= back {
      SmallGrows(b, a, k, x, y);
    }
  }

  /** A picture of at most 128 pixels on a side keeps its size, and each octet is the nearest to the mean of colour and
    * backdrop, weighted by the opacity. */
  lemma NotShrunk(img: I.Image, k: nat, x: nat, y: nat)
    requires I.Picture(img) && img.w <= 128 && img.h <= 128 && k < 3 && x < img.w && y < img.h
    ensures I.Step(img.w, img.h) == 1 && I.Boxes(img.w, 1) == img.w && I.Boxes(img.h, 1) == img.h
    ensures var mean := At(img, k, x, y) * At(img, 3, x, y) + [20, 21, 32][k] * (255 - At(img, 3, x, y));
      -127 <= 255 * Shown(img, k, x, y) - mean <= 127
  {
    hide I.Blend, I.Value, Shown, At;
    assert I.Step(img.w, img.h) == 1;
    var v := I.Value(img, k, x, y);
    ValueIs(img, k, x, y);
    Nearest(At(img, k, x, y), At(img, 3, x, y), [20, 21, 32][k]);
    I.ChannelBetween(img, k, x, y, v, v);
    ShownIs(img, k, x, y);
  }

  lemma Figure(d: nat)
    requires d < 10
    ensures I.Digit(d) == "0123456789"[d]
  {
  }

  lemma Capital(d: nat)
    requires d < 26
    ensures I.Digit(10 + d) == "ABCDEFGHIJKLMNOPQRSTUVWXYZ"[d]
  {
  }

  lemma SmallLetter(d: nat)
    requires d < 26
    ensures I.Digit(36 + d) == "abcdefghijklmnopqrstuvwxyz"[d]
  {
  }

  lemma Mark(d: nat)
    requires d < 21
    ensures I.Digit(62 + d) == "#$%*+,-.:;=?@[]^_{|}~"[d]
  {
  }

  /** The base's 83 digits. */
  lemma Alphabet(d: nat)
    requires d < 83
    ensures d < 10 ==> I.Digit(d) == "0123456789"[d]
    ensures 10 <= d < 36 ==> I.Digit(d) == "ABCDEFGHIJKLMNOPQRSTUVWXYZ"[d - 10]
    ensures 36 <= d < 62 ==> I.Digit(d) == "abcdefghijklmnopqrstuvwxyz"[d - 36]
    ensures 62 <= d ==> I.Digit(d) == "#$%*+,-.:;=?@[]^_{|}~"[d - 62]
  {
    hide I.Digit;
    if d < 10 {
      Figure(d);
    } else if d < 36 {
      Capital(d - 10);
    } else if d < 62 {
      SmallLetter(d - 36);
    } else {
      Mark(d - 62);
    }
  }

  /** Each octet is the nearest whole number to the mean of its box. */
  lemma NearestMean(img: I.Image, k: nat, x: nat, y: nat)
    requires I.Picture(img) && k < 3 && Small(img, x, y)
    ensures var b := I.BoxAt(img, x, y);
      && I.Inside(img, b)
      && var n, sum := I.Pixels(b), I.BoxSum(img, k, b.x0, b.x1, b.y0, b.y1);
        -n <= 2 * (n * Shown(img, k, x, y)) - 2 * sum <= n
  {
    hide I.Step, I.Boxes, I.BoxSum, Shown;
    I.BoxInside(img, x, y);
    ShownIs(img, k, x, y);
    var b := I.BoxAt(img, x, y);
    I.DivMul(I.BoxSum(img, k, b.x0, b.x1, b.y0, b.y1) + I.Pixels(b) / 2, I.Pixels(b));
    I.OneMore(Shown(img, k, x, y), I.Pixels(b));
  }
}
