/** The preparation of an icon's placeholder: shrinking by averaging boxes, and digits in base 83. */
module IconBox {
  import opened Bytes
  import JsonText

  const MAX_SIDE: nat := 2048
  const SMALL_SIDE: nat := 128

  // --- boxes ---

  function Step(w: nat, h: nat): (s: nat)
    requires w > 0 && h > 0
    ensures s > 0
  {
    ((if w > h then w else h) + 127) / 128
  }

  /** How many boxes of that step cover a side. */
  function Boxes(side: nat, step: nat): (n: nat)
    requires step > 0
  {
    (side + step - 1) / step
  }

  /** Where box i ends: after a full step, or with the picture. */
  function End(i: nat, step: nat, side: nat): nat {
    Min((i + 1) * step, side)
  }

  lemma DivMul(a: nat, b: nat)
    requires b > 0
    ensures (a / b) * b <= a < (a / b + 1) * b
  {
  }

  /** Boxes are not empty, the last one ends with the side, and every position is in exactly one. */
  lemma BoxesTile(side: nat, step: nat)
    requires side > 0 && step > 0
    ensures Boxes(side, step) > 0 && End(Boxes(side, step) - 1, step, side) == side
    ensures forall i :: 0 <= i < Boxes(side, step) ==> i * step < End(i, step, side) <= side
    ensures forall p :: 0 <= p < side ==>
      p / step < Boxes(side, step) && (p / step) * step <= p < End(p / step, step, side)
  {
    hide Boxes, End;
    var n := Boxes(side, step);
    BoxCount(side, step);
    BoxFull(side, step, n - 1);
    LastBox(side, step);
    forall i | 0 <= i < n
      ensures i * step < End(i, step, side) <= side
    {
      BoxFull(side, step, i);
    }
    forall p | 0 <= p < side
      ensures p / step < n && (p / step) * step <= p < End(p / step, step, side)
    {
      BoxOf(side, step, p);
    }
  }

  lemma BoxCount(side: nat, step: nat)
    requires side > 0 && step > 0
    ensures var n := Boxes(side, step); n > 0 && (n - 1) * step < side <= n * step
  {
    DivMul(side + step - 1, step);
    var n := Boxes(side, step);
    assert (n + 1) * step == n * step + step && (n - 1) * step == n * step - step;
  }

  lemma LastBox(side: nat, step: nat)
    requires side > 0 && step > 0
    ensures Boxes(side, step) > 0 && End(Boxes(side, step) - 1, step, side) == side
  {
    hide Boxes;
    BoxCount(side, step);
  }

  lemma BoxFull(side: nat, step: nat, i: nat)
    requires side > 0 && step > 0 && i < Boxes(side, step)
    ensures i * step < End(i, step, side) <= side
  {
    hide Boxes;
    BoxCount(side, step);
    Monotone(i, Boxes(side, step) - 1, step);
    assert (i + 1) * step == i * step + step;
  }

  /** Which box a position is in. */
  lemma BoxOf(side: nat, step: nat, p: nat)
    requires p < side && step > 0
    ensures p / step < Boxes(side, step) && (p / step) * step <= p < End(p / step, step, side)
  {
    hide Boxes;
    var n := Boxes(side, step);
    BoxCount(side, step);
    DivMul(p, step);
    if p / step >= n {
      Monotone(n, p / step, step);
    }
  }

  lemma Monotone(a: nat, b: nat, step: nat)
    requires a <= b
    ensures a * step <= b * step
  {
  }

  /** Only one box holds a position. */
  lemma OneBox(p: nat, i: nat, step: nat, side: nat)
    requires step > 0 && i * step <= p < End(i, step, side)
    ensures i == p / step
  {
    DivMul(p, step);
    if i < p / step {
      Monotone(i + 1, p / step, step);
    } else if i > p / step {
      Monotone(p / step + 1, i, step);
    }
  }

  /** The small picture is never larger than 128 on a side. */
  lemma SmallSides(w: nat, h: nat)
    requires 0 < w <= MAX_SIDE && 0 < h <= MAX_SIDE
    ensures var s := Step(w, h); 0 < Boxes(w, s) <= SMALL_SIDE && 0 < Boxes(h, s) <= SMALL_SIDE
  {
    var s := Step(w, h);
    FitsBoxes(w, s);
    FitsBoxes(h, s);
  }

  lemma FitsBoxes(side: nat, step: nat)
    requires side > 0 && step > 0 && side <= SMALL_SIDE * step
    ensures 0 < Boxes(side, step) <= SMALL_SIDE
  {
    DivMul(side + step - 1, step);
    var n := Boxes(side, step);
    if n > SMALL_SIDE {
      Monotone(SMALL_SIDE + 1, n, step);
    }
  }

  // --- colours ---

  const BLEND_R: byte := 20
  const BLEND_G: byte := 21
  const BLEND_B: byte := 32

  /** A channel over the backdrop, with the pixel's opacity. */
  function Blend(p: byte, a: byte, back: byte): (v: byte)
    ensures Min(p, back) <= v && (v <= p || v <= back)
  {
    BlendBounds(p, a, back);
    (p * a + back * (255 - a) + 127) / 255
  }

  lemma BlendBounds(p: byte, a: byte, back: byte)
    ensures var v := (p * a + back * (255 - a) + 127) / 255; Min(p, back) <= v && (v <= p || v <= back) && v < 256
  {
    var lo, hi := Min(p, back), if p < back then back else p;
    Scale(lo, p, a);
    Scale(lo, back, 255 - a);
    Scale(p, hi, a);
    Scale(back, hi, 255 - a);
    assert lo * a + lo * (255 - a) == lo * 255;
    assert hi * a + hi * (255 - a) == hi * 255;
  }

  lemma Scale(x: int, y: int, k: int)
    requires x <= y && k >= 0
    ensures x * k <= y * k
  {
  }

  /** A row-major picture's octet k of pixel (x, y), with c octets a pixel. */
  function Offset(x: nat, y: nat, w: nat, c: nat, k: nat): nat {
    (y * w + x) * c + k
  }

  lemma OffsetInside(x: nat, y: nat, w: nat, h: nat, c: nat, k: nat)
    requires x < w && y < h && k < c
    ensures Offset(x, y, w, c, k) < w * h * c
  {
    assert y * w + x + 1 <= (y + 1) * w <= h * w by {
      Monotone(y + 1, h, w);
    }
    Monotone(y * w + x + 1, w * h, c);
  }

  // A decoded picture, four octets a pixel.
  datatype Image = Image(w: nat, h: nat, rgba: Octets)

  predicate Picture(img: Image) {
    0 < img.w <= MAX_SIDE && 0 < img.h <= MAX_SIDE && |img.rgba| == img.w * img.h * 4
  }

  function Back(k: nat): byte {
    if k == 0 then BLEND_R else if k == 1 then BLEND_G else BLEND_B
  }

  /** Channel k of a pixel, over the backdrop. */
  function Value(img: Image, k: nat, x: nat, y: nat): byte
    requires Picture(img) && k < 3 && x < img.w && y < img.h
  {
    OffsetInside(x, y, img.w, img.h, 4, k);
    OffsetInside(x, y, img.w, img.h, 4, 3);
    Blend(img.rgba[Offset(x, y, img.w, 4, k)], img.rgba[Offset(x, y, img.w, 4, 3)], Back(k))
  }

  function RowSum(img: Image, k: nat, y: nat, x0: nat, x1: nat): nat
    requires Picture(img) && k < 3 && y < img.h && x0 <= x1 <= img.w
    decreases x1
  {
    if x0 == x1 then 0 else RowSum(img, k, y, x0, x1 - 1) + Value(img, k, x1 - 1, y)
  }

  function BoxSum(img: Image, k: nat, x0: nat, x1: nat, y0: nat, y1: nat): nat
    requires Picture(img) && k < 3 && x0 <= x1 <= img.w && y0 <= y1 <= img.h
    decreases y1
  {
    if y0 == y1 then 0 else BoxSum(img, k, x0, x1, y0, y1 - 1) + RowSum(img, k, y1 - 1, x0, x1)
  }

  /** The rounded average of n values. */
  function Average(sum: nat, n: nat): nat
    requires n > 0
  {
    (sum + n / 2) / n
  }

  // The bounds of box (x, y), and what channel k of the small picture is there.
  datatype Box = Box(x0: nat, x1: nat, y0: nat, y1: nat)

  function BoxAt(img: Image, x: nat, y: nat): Box
    requires Picture(img)
  {
    var s := Step(img.w, img.h);
    Box(x * s, End(x, s, img.w), y * s, End(y, s, img.h))
  }

  function Pixels(b: Box): int {
    (b.x1 - b.x0) * (b.y1 - b.y0)
  }

  predicate Inside(img: Image, b: Box) {
    b.x0 < b.x1 <= img.w && b.y0 < b.y1 <= img.h
  }

  lemma BoxInside(img: Image, x: nat, y: nat)
    requires Picture(img)
    requires x < Boxes(img.w, Step(img.w, img.h)) && y < Boxes(img.h, Step(img.w, img.h))
    ensures Inside(img, BoxAt(img, x, y)) && Pixels(BoxAt(img, x, y)) > 0
  {
    hide Step, Boxes, End;
    var s := Step(img.w, img.h);
    BoxesTile(img.w, s);
    BoxesTile(img.h, s);
    var b := BoxAt(img, x, y);
    Positive(b.x1 - b.x0, b.y1 - b.y0);
  }

  lemma Positive(a: int, b: int)
    requires a > 0 && b > 0
    ensures a * b > 0
  {
  }

  // --- averages lie between the extremes ---

  lemma {:induction false} RowBetween(img: Image, k: nat, y: nat, x0: nat, x1: nat, lo: nat, hi: nat)
    requires Picture(img) && k < 3 && y < img.h && x0 <= x1 <= img.w
    requires forall x :: x0 <= x < x1 ==> lo <= Value(img, k, x, y) <= hi
    ensures lo * (x1 - x0) <= RowSum(img, k, y, x0, x1) <= hi * (x1 - x0)
    decreases x1
  {
    hide Value;
    if x0 < x1 {
      RowBetween(img, k, y, x0, x1 - 1, lo, hi);
      assert lo * (x1 - x0) == lo * (x1 - 1 - x0) + lo;
      assert hi * (x1 - x0) == hi * (x1 - 1 - x0) + hi;
    }
  }

  lemma {:induction false} BoxBetween(img: Image, k: nat, b: Box, lo: nat, hi: nat)
    requires Picture(img) && k < 3 && b.x0 <= b.x1 <= img.w && b.y0 <= b.y1 <= img.h
    requires forall x, y :: b.x0 <= x < b.x1 && b.y0 <= y < b.y1 ==> lo <= Value(img, k, x, y) <= hi
    ensures lo * Pixels(b) <= BoxSum(img, k, b.x0, b.x1, b.y0, b.y1) <= hi * Pixels(b)
    decreases b.y1
  {
    hide Value, Pixels;
    if b.y0 == b.y1 {
      NoPixels(b);
    } else {
      var c := b.(y1 := b.y1 - 1);
      BoxBetween(img, k, c, lo, hi);
      RowBetween(img, k, b.y1 - 1, b.x0, b.x1, lo, hi);
      OneRow(b, lo);
      OneRow(b, hi);
    }
  }

  lemma NoPixels(b: Box)
    requires b.y0 == b.y1
    ensures Pixels(b) == 0
  {
  }

  lemma OneRow(b: Box, v: int)
    requires b.y0 < b.y1
    ensures v * Pixels(b) == v * Pixels(b.(y1 := b.y1 - 1)) + v * (b.x1 - b.x0)
  {
    var cols, rows := b.x1 - b.x0, b.y1 - b.y0;
    assert cols * rows == cols * (rows - 1) + cols;
  }

  lemma AverageBetween(sum: nat, n: nat, lo: nat, hi: nat)
    requires n > 0 && lo * n <= sum <= hi * n
    ensures lo <= Average(sum, n) <= hi
  {
    var t := sum + n / 2;
    assert 0 <= n / 2 < n;
    DivMul(t, n);
    LessFactor(lo, t / n + 1, n);
    OneMore(hi, n);
    LessFactor(t / n, hi + 1, n);
  }

  lemma OneMore(a: int, n: nat)
    ensures (a + 1) * n == a * n + n
  {
  }

  lemma LessFactor(a: nat, b: nat, n: nat)
    requires a * n < b * n
    ensures a < b
  {
    if a >= b {
      Monotone(b, a, n);
    }
  }

  /** Every channel of the small picture lies between the least and the greatest blended value of its box. */
  lemma ChannelBetween(img: Image, k: nat, x: nat, y: nat, lo: nat, hi: nat)
    requires Picture(img) && k < 3
    requires x < Boxes(img.w, Step(img.w, img.h)) && y < Boxes(img.h, Step(img.w, img.h))
    requires var b := BoxAt(img, x, y);
      Inside(img, b) && forall i, j :: b.x0 <= i < b.x1 && b.y0 <= j < b.y1 ==> lo <= Value(img, k, i, j) <= hi
    ensures var b := BoxAt(img, x, y);
      Pixels(b) > 0 && lo <= Average(BoxSum(img, k, b.x0, b.x1, b.y0, b.y1), Pixels(b)) <= hi
  {
    hide Value, BoxSum, Step, Boxes;
    BoxInside(img, x, y);
    var b := BoxAt(img, x, y);
    BoxBetween(img, k, b, lo, hi);
    AverageBetween(BoxSum(img, k, b.x0, b.x1, b.y0, b.y1), Pixels(b), lo, hi);
  }

  // --- nothing is counted twice or left out ---

  lemma {:induction false} RowSplit(img: Image, k: nat, y: nat, x0: nat, x1: nat, x2: nat)
    requires Picture(img) && k < 3 && y < img.h && x0 <= x1 <= x2 <= img.w
    ensures RowSum(img, k, y, x0, x2) == RowSum(img, k, y, x0, x1) + RowSum(img, k, y, x1, x2)
    decreases x2
  {
    hide Value;
    if x1 < x2 {
      RowSplit(img, k, y, x0, x1, x2 - 1);
    }
  }

  lemma {:induction false} SplitAcross(img: Image, k: nat, x0: nat, x1: nat, x2: nat, y0: nat, y1: nat)
    requires Picture(img) && k < 3 && x0 <= x1 <= x2 <= img.w && y0 <= y1 <= img.h
    ensures BoxSum(img, k, x0, x2, y0, y1) == BoxSum(img, k, x0, x1, y0, y1) + BoxSum(img, k, x1, x2, y0, y1)
    decreases y1
  {
    hide Value, RowSum;
    if y0 < y1 {
      SplitAcross(img, k, x0, x1, x2, y0, y1 - 1);
      RowSplit(img, k, y1 - 1, x0, x1, x2);
    }
  }

  lemma {:induction false} SplitDown(img: Image, k: nat, x0: nat, x1: nat, y0: nat, y1: nat, y2: nat)
    requires Picture(img) && k < 3 && x0 <= x1 <= img.w && y0 <= y1 <= y2 <= img.h
    ensures BoxSum(img, k, x0, x1, y0, y2) == BoxSum(img, k, x0, x1, y0, y1) + BoxSum(img, k, x0, x1, y1, y2)
    decreases y2
  {
    hide Value, RowSum;
    if y1 < y2 {
      SplitDown(img, k, x0, x1, y0, y1, y2 - 1);
    }
  }

  // Where the first n boxes of a side end.
  function Reach(n: nat, step: nat, side: nat): nat {
    Min(n * step, side)
  }

  lemma Reaches(n: nat, step: nat, side: nat)
    requires step > 0 && side > 0 && n < Boxes(side, step)
    ensures Reach(n, step, side) == n * step && Reach(n + 1, step, side) == End(n, step, side)
    ensures n * step < End(n, step, side) <= side
  {
    hide Boxes;
    BoxesTile(side, step);
  }

  /** The sums of the first n boxes of a row of boxes. */
  function Across(img: Image, k: nat, y0: nat, y1: nat, n: nat): nat
    requires Picture(img) && k < 3 && y0 <= y1 <= img.h && n <= Boxes(img.w, Step(img.w, img.h))
  {
    if n == 0 then 0
    else
      var s := Step(img.w, img.h);
      Reaches(n - 1, s, img.w);
      Across(img, k, y0, y1, n - 1) + BoxSum(img, k, (n - 1) * s, End(n - 1, s, img.w), y0, y1)
  }

  lemma {:induction false} AcrossIs(img: Image, k: nat, y0: nat, y1: nat, n: nat)
    requires Picture(img) && k < 3 && y0 <= y1 <= img.h && n <= Boxes(img.w, Step(img.w, img.h))
    ensures Across(img, k, y0, y1, n) == BoxSum(img, k, 0, Reach(n, Step(img.w, img.h), img.w), y0, y1)
  {
    hide BoxSum, Step, Boxes, End;
    var s := Step(img.w, img.h);
    if n == 0 {
      EmptyBox(img, k, y0, y1);
    } else {
      AcrossIs(img, k, y0, y1, n - 1);
      Reaches(n - 1, s, img.w);
      SplitAcross(img, k, 0, (n - 1) * s, End(n - 1, s, img.w), y0, y1);
    }
  }

  lemma {:induction false} EmptyBox(img: Image, k: nat, y0: nat, y1: nat)
    requires Picture(img) && k < 3 && y0 <= y1 <= img.h
    ensures BoxSum(img, k, 0, 0, y0, y1) == 0
    decreases y1
  {
    if y0 < y1 {
      EmptyBox(img, k, y0, y1 - 1);
    }
  }

  /** The sums of all boxes of the first m rows of boxes. */
  function Down(img: Image, k: nat, m: nat): nat
    requires Picture(img) && k < 3 && m <= Boxes(img.h, Step(img.w, img.h))
  {
    if m == 0 then 0
    else
      var s := Step(img.w, img.h);
      Reaches(m - 1, s, img.h);
      Down(img, k, m - 1) + Across(img, k, (m - 1) * s, End(m - 1, s, img.h), Boxes(img.w, s))
  }

  lemma {:induction false} DownIs(img: Image, k: nat, m: nat)
    requires Picture(img) && k < 3 && m <= Boxes(img.h, Step(img.w, img.h))
    ensures Down(img, k, m) == BoxSum(img, k, 0, img.w, 0, Reach(m, Step(img.w, img.h), img.h))
  {
    hide BoxSum, Step, Boxes, End, Across;
    var s := Step(img.w, img.h);
    if m == 0 {
      NoRows(img, k);
    } else {
      DownIs(img, k, m - 1);
      Reaches(m - 1, s, img.h);
      AcrossIs(img, k, (m - 1) * s, End(m - 1, s, img.h), Boxes(img.w, s));
      Covered(img.w, s);
      SplitDown(img, k, 0, img.w, 0, (m - 1) * s, End(m - 1, s, img.h));
    }
  }

  lemma NoRows(img: Image, k: nat)
    requires Picture(img) && k < 3
    ensures BoxSum(img, k, 0, img.w, 0, 0) == 0
  {
  }

  lemma Covered(side: nat, step: nat)
    requires side > 0 && step > 0
    ensures Reach(Boxes(side, step), step, side) == side
  {
    hide Boxes;
    BoxesTile(side, step);
    Reaches(Boxes(side, step) - 1, step, side);
  }

  /** Added up over all boxes, every pixel's value is counted exactly once. */
  lemma AllCounted(img: Image, k: nat)
    requires Picture(img) && k < 3
    ensures Down(img, k, Boxes(img.h, Step(img.w, img.h))) == BoxSum(img, k, 0, img.w, 0, img.h)
  {
    hide Down, BoxSum, Step, Boxes;
    DownIs(img, k, Boxes(img.h, Step(img.w, img.h)));
    Covered(img.h, Step(img.w, img.h));
  }

  // --- the program ---

  /** Channel k of pixel (x, y) of the small picture. */
  function Small(img: Image, k: nat, x: nat, y: nat): byte
    requires Picture(img) && k < 3
    requires x < Boxes(img.w, Step(img.w, img.h)) && y < Boxes(img.h, Step(img.w, img.h))
  {
    BoxInside(img, x, y);
    ChannelBetween(img, k, x, y, 0, 255);
    var b := BoxAt(img, x, y);
    Average(BoxSum(img, k, b.x0, b.x1, b.y0, b.y1), Pixels(b))
  }

  lemma MoreRows(b: Box, rows: nat)
    ensures (b.x1 - b.x0) * rows + (b.x1 - b.x0) == (b.x1 - b.x0) * (rows + 1)
  {
  }

  /** The accumulators of one box. */
  method SumBox(img: Image, b: Box) returns (r: nat, g: nat, bl: nat, n: nat)
    requires Picture(img) && Inside(img, b)
    ensures r == BoxSum(img, 0, b.x0, b.x1, b.y0, b.y1) && g == BoxSum(img, 1, b.x0, b.x1, b.y0, b.y1)
    ensures bl == BoxSum(img, 2, b.x0, b.x1, b.y0, b.y1) && n == Pixels(b)
  {
    hide Value, RowSum;
    r, g, bl, n := 0, 0, 0, 0;
    var ys := b.y0;
    while ys < b.y1
      invariant b.y0 <= ys <= b.y1
      invariant r == BoxSum(img, 0, b.x0, b.x1, b.y0, ys) && g == BoxSum(img, 1, b.x0, b.x1, b.y0, ys)
      invariant bl == BoxSum(img, 2, b.x0, b.x1, b.y0, ys) && n == (b.x1 - b.x0) * (ys - b.y0)
    {
      var rr, rg, rb := SumRow(img, ys, b.x0, b.x1);
      MoreRows(b, ys - b.y0);
      r, g, bl, n := r + rr, g + rg, bl + rb, n + (b.x1 - b.x0);
      ys := ys + 1;
    }
  }

  method SumRow(img: Image, y: nat, x0: nat, x1: nat) returns (r: nat, g: nat, b: nat)
    requires Picture(img) && y < img.h && x0 <= x1 <= img.w
    ensures r == RowSum(img, 0, y, x0, x1) && g == RowSum(img, 1, y, x0, x1) && b == RowSum(img, 2, y, x0, x1)
  {
    hide Blend;
    r, g, b := 0, 0, 0;
    var xs := x0;
    while xs < x1
      invariant x0 <= xs <= x1
      invariant r == RowSum(img, 0, y, x0, xs) && g == RowSum(img, 1, y, x0, xs) && b == RowSum(img, 2, y, x0, xs)
    {
      OffsetInside(xs, y, img.w, img.h, 4, 3);
      var p := Offset(xs, y, img.w, 4, 0);
      var a := img.rgba[p + 3];
      r := r + Blend(img.rgba[p], a, BLEND_R);
      g := g + Blend(img.rgba[p + 1], a, BLEND_G);
      b := b + Blend(img.rgba[p + 2], a, BLEND_B);
      xs := xs + 1;
    }
  }

  lemma Flat(x: nat, y: nat, w: nat)
    requires x < w
    ensures (y * w + x) / w == y && (y * w + x) % w == x
  {
    var q := y * w + x;
    DivMul(q, w);
    if q / w < y {
      Monotone(q / w + 1, y, w);
    }
    if q / w > y {
      Monotone(y + 1, q / w, w);
    }
  }

  lemma Remainder(p: nat, w: nat)
    requires w > 0
    ensures 0 <= p % w < w && 0 <= p / w
  {
  }

  /** The small picture's octet o, its pixels being laid out in rows, three octets each. */
  function Octet(img: Image, o: nat): byte
    requires Picture(img)
  {
    hide Boxes, Step, Small;
    var s := Step(img.w, img.h);
    var w, h, p := Boxes(img.w, s), Boxes(img.h, s), o / 3;
    if w == 0 then 0
    else
      Remainder(p, w);
      var x: nat, y: nat := p % w, p / w;
      if y < h then Small(img, o % 3, x, y) else 0
  }

  lemma OctetIs(img: Image, x: nat, y: nat, k: nat)
    requires Picture(img) && k < 3
    requires x < Boxes(img.w, Step(img.w, img.h)) && y < Boxes(img.h, Step(img.w, img.h))
    ensures Octet(img, Offset(x, y, Boxes(img.w, Step(img.w, img.h)), 3, k)) == Small(img, k, x, y)
  {
    hide Small, Boxes, Step;
    var w := Boxes(img.w, Step(img.w, img.h));
    Flat(x, y, w);
    var o := Offset(x, y, w, 3, k);
    assert o == 3 * (y * w + x) + k && o / 3 == y * w + x && o % 3 == k;
  }

  /** One pixel of the small picture. */
  method WritePixel(img: Image, x: nat, y: nat, rgb: array<byte>, o: nat)
    requires Picture(img)
    requires x < Boxes(img.w, Step(img.w, img.h)) && y < Boxes(img.h, Step(img.w, img.h))
    requires o == Offset(x, y, Boxes(img.w, Step(img.w, img.h)), 3, 0) && o + 3 <= rgb.Length
    modifies rgb
    ensures forall j :: 0 <= j < o ==> rgb[j] == old(rgb[j])
    ensures forall j :: o <= j < o + 3 ==> rgb[j] == Octet(img, j)
  {
    hide Boxes, Step, Octet, BoxSum, Average;
    BoxInside(img, x, y);
    var b := BoxAt(img, x, y);
    var r, g, bl, n := SumBox(img, b);
    OctetIs(img, x, y, 0);
    OctetIs(img, x, y, 1);
    OctetIs(img, x, y, 2);
    assert Small(img, 0, x, y) == Average(r, n) && Small(img, 1, x, y) == Average(g, n);
    assert Small(img, 2, x, y) == Average(bl, n);
    rgb[o] := Average(r, n);
    rgb[o + 1] := Average(g, n);
    rgb[o + 2] := Average(bl, n);
  }

  lemma RowEnd(w: nat, y: nat)
    ensures 3 * (y * w + w) == 3 * ((y + 1) * w)
  {
  }

  /** The downscaling part of icon_compute_blurhash. */
  method Downscale(img: Image) returns (rgb: array<byte>, sw: nat, sh: nat)
    requires Picture(img)
    ensures fresh(rgb) && 0 < sw <= SMALL_SIDE && 0 < sh <= SMALL_SIDE && rgb.Length == sw * sh * 3
    ensures sw == Boxes(img.w, Step(img.w, img.h)) && sh == Boxes(img.h, Step(img.w, img.h))
    ensures forall o :: 0 <= o < rgb.Length ==> rgb[o] == Octet(img, o)
  {
    hide Octet;
    SmallSides(img.w, img.h);
    var step := Step(img.w, img.h);
    sw, sh := Boxes(img.w, step), Boxes(img.h, step);
    rgb := new byte[sw * sh * 3];
    var y := 0;
    while y < sh
      invariant y <= sh && 3 * (y * sw) <= rgb.Length
      invariant forall o :: 0 <= o < 3 * (y * sw) ==> rgb[o] == Octet(img, o)
    {
      RowEnd(sw, y);
      DownscaleRow(img, y, rgb, sw, sh);
      y := y + 1;
    }
    assert 3 * (sh * sw) == sw * sh * 3;
  }

  method DownscaleRow(img: Image, y: nat, rgb: array<byte>, sw: nat, sh: nat)
    requires Picture(img) && sw == Boxes(img.w, Step(img.w, img.h)) && sh == Boxes(img.h, Step(img.w, img.h))
    requires y < sh && rgb.Length == sw * sh * 3
    requires forall o :: 0 <= o < 3 * (y * sw) ==> rgb[o] == Octet(img, o)
    modifies rgb
    ensures 3 * ((y + 1) * sw) <= rgb.Length
    ensures forall o :: 0 <= o < 3 * ((y + 1) * sw) ==> rgb[o] == Octet(img, o)
  {
    hide Boxes, Step, Octet;
    var start, x := y * sw, 0;
    while x < sw
      invariant x <= sw
      invariant forall o :: 0 <= o < 3 * (start + x) ==> o < rgb.Length && rgb[o] == Octet(img, o)
    {
      PixelPlace(x, y, sw, sh);
      WritePixel(img, x, y, rgb, 3 * (start + x));
      x := x + 1;
    }
    RowEnd(sw, y);
    Monotone(y + 1, sh, sw);
  }

  lemma PixelPlace(x: nat, y: nat, w: nat, h: nat)
    requires x < w && y < h
    ensures 3 * (y * w + x) == Offset(x, y, w, 3, 0) && 3 * (y * w + x) + 3 <= w * h * 3
  {
    OffsetInside(x, y, w, h, 3, 2);
  }

  // --- digits in base 83 ---

  const MARKS := "#$%*+,-.:;=?@[]^_{|}~"

  /** The base's digits: figures, capital and small letters, then marks in the order of their codes. */
  function Digit(d: nat): char
    requires d < 83
  {
    if d < 10 then ('0' as int + d) as char
    else if d < 36 then ('A' as int + d - 10) as char
    else if d < 62 then ('a' as int + d - 36) as char
    else MARKS[d - 62]
  }

  function MarkIndex(c: char, i: nat): (r: nat)
    requires i <= 21
    decreases 21 - i
  {
    if i == 21 || MARKS[i] == c then i else MarkIndex(c, i + 1)
  }

  function DigitValue(c: char): nat {
    if '0' <= c <= '9' then c as int - '0' as int
    else if 'A' <= c <= 'Z' then c as int - 'A' as int + 10
    else if 'a' <= c <= 'z' then c as int - 'a' as int + 36
    else 62 + MarkIndex(c, 0)
  }

  lemma MarksAre(i: nat)
    requires i < 21
    ensures i > 0 ==> MARKS[i - 1] < MARKS[i]
    ensures MARKS[i] > ' ' && MARKS[i] != '"' && MARKS[i] != '\\'
    ensures !('0' <= MARKS[i] <= '9') && !('A' <= MARKS[i] <= 'Z') && !('a' <= MARKS[i] <= 'z')
  {
  }

  lemma {:induction false} MarksRise(i: nat, j: nat)
    requires i < j < 21
    ensures MARKS[i] < MARKS[j]
  {
    MarksAre(j);
    if i < j - 1 {
      MarksRise(i, j - 1);
    }
  }

  lemma {:induction false} MarkFound(d: nat, i: nat)
    requires i <= d < 21
    ensures MarkIndex(MARKS[d], i) == d
    decreases d - i
  {
    if i < d {
      MarksRise(i, d);
      MarkFound(d, i + 1);
    }
  }

  lemma DigitBack(d: nat)
    requires d < 83
    ensures DigitValue(Digit(d)) == d
  {
    if d >= 62 {
      MarksAre(d - 62);
      MarkFound(d - 62, 0);
    }
  }

  function Pow83(n: nat): (p: nat)
    ensures p > 0
  {
    if n == 0 then 1 else 83 * Pow83(n - 1)
  }

  /** A number in n digits, the most significant first. */
  function Encode83(v: nat, n: nat): (s: string)
    ensures |s| == n
  {
    if n == 0 then "" else Encode83(v / 83, n - 1) + [Digit(v % 83)]
  }

  function Decode83(s: string): nat {
    if s == "" then 0 else 83 * Decode83(s[..|s| - 1]) + DigitValue(s[|s| - 1])
  }

  lemma {:induction false} Base83Back(v: nat, n: nat)
    requires v < Pow83(n)
    ensures Decode83(Encode83(v, n)) == v
  {
    hide Digit, DigitValue;
    if n > 0 {
      Base83Back(v / 83, n - 1);
      DigitBack(v % 83);
      var s := Encode83(v, n);
      assert s[..|s| - 1] == Encode83(v / 83, n - 1);
    }
  }

  /** encode_base83: the digits come out backwards first. */
  method EncodeBase83(value: nat, length: nat) returns (out: string)
    requires length <= 8
    ensures out == Encode83(value, length)
  {
    hide Digit;
    var tmp := new char[8];
    var v, i := value, 0;
    ghost var digits := "";
    while i < length
      invariant i <= length && |digits| == i && forall j :: 0 <= j < i ==> tmp[j] == digits[i - 1 - j]
      invariant Encode83(value, length) == Encode83(v, length - i) + digits
    {
      tmp[i] := Digit(v % 83);
      digits := [Digit(v % 83)] + digits;
      v := v / 83;
      i := i + 1;
    }
    out := "";
    while i > 0
      invariant i <= length && out == digits[..length - i]
    {
      i := i - 1;
      out := out + [tmp[i]];
    }
  }

  lemma {:induction false} DigitsBare(v: nat, n: nat)
    ensures JsonText.Bare(Encode83(v, n))
  {
    if n > 0 {
      DigitsBare(v / 83, n - 1);
      if v % 83 >= 62 {
        MarksAre(v % 83 - 62);
      }
    }
  }

  // The hash's parts after the transform: grid size, strongest detail, average colour, and the details.
  function Hash(size: nat, strongest: nat, average: nat, details: seq<nat>): (s: string)
    ensures |s| == 6 + 2 * |details|
  {
    if details == [] then Encode83(size, 1) + Encode83(strongest, 1) + Encode83(average, 4)
    else Hash(size, strongest, average, details[..|details| - 1]) + Encode83(details[|details| - 1], 2)
  }

  /** A hash, whatever the icon, has no character that the metadata record would have to escape, and fits its field. */
  lemma {:induction false} HashBare(size: nat, strongest: nat, average: nat, details: seq<nat>)
    ensures JsonText.Bare(Hash(size, strongest, average, details))
    ensures |details| <= 23 ==> |Hash(size, strongest, average, details)| < 64
  {
    hide Encode83;
    if details == [] {
      DigitsBare(size, 1);
      DigitsBare(strongest, 1);
      DigitsBare(average, 4);
    } else {
      HashBare(size, strongest, average, details[..|details| - 1]);
      DigitsBare(details[|details| - 1], 2);
    }
  }
}
