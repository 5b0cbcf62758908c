/** Where the slices of a split package begin and end. Slices are numbered from 0 here. */
module Slices {
  import opened Bytes

  // total bytes to cut, room in the first slice, room in every later one
  datatype Cut = Cut(total: nat, first: nat, rest: nat)

  predicate ValidCut(c: Cut) {
    c.first >= 1 && c.rest >= 1
  }

  function Room(c: Cut, k: nat): nat {
    if k == 0 then c.first else c.rest
  }

  function Start(c: Cut, k: nat): nat {
    if k == 0 then 0 else Start(c, k - 1) + Room(c, k - 1)
  }

  function End(c: Cut, k: nat): nat {
    Min(c.total, Start(c, k + 1))
  }

  function Length(c: Cut, k: nat): int {
    End(c, k) - Start(c, k)
  }

  /** The number of slices, counting on from slice k. */
  function CountFrom(c: Cut, k: nat): (n: nat)
    requires ValidCut(c)
    ensures n > k && Start(c, n) >= c.total
    ensures n == k + 1 || Start(c, n - 1) < c.total
    decreases c.total - Start(c, k)
  {
    if Start(c, k + 1) >= c.total then k + 1 else CountFrom(c, k + 1)
  }

  function Count(c: Cut): (n: nat)
    requires ValidCut(c)
    ensures n >= 1
  {
    CountFrom(c, 0)
  }

  lemma {:induction false} StartGap(c: Cut, i: nat, j: nat)
    requires ValidCut(c) && i <= j
    ensures Start(c, i) + (j - i) <= Start(c, j)
    ensures i < j ==> Start(c, i) + Room(c, i) <= Start(c, j)
    decreases j
  {
    if i < j {
      StartGap(c, i, j - 1);
    }
  }

  /** Every slice but the last is full; all of them lie inside the package; none but the slice of an
      empty package is empty. */
  lemma SliceBounds(c: Cut, k: nat)
    requires ValidCut(c) && k < Count(c)
    ensures Start(c, k) <= End(c, k) <= c.total
    ensures k < Count(c) - 1 ==> Start(c, k + 1) < c.total && End(c, k) == Start(c, k + 1)
    ensures k == Count(c) - 1 ==> End(c, k) == c.total
    ensures c.total > 0 ==> Start(c, k) < End(c, k)
  {
    var n := Count(c);
    StartGap(c, k, n - 1);
    if k < n - 1 {
      StartGap(c, k + 1, n - 1);
    }
  }

  /** The slices tile the package: each byte belongs to exactly one of them. */
  lemma SlicesTile(c: Cut, o: nat) returns (k: nat)
    requires ValidCut(c) && o < c.total
    ensures k < Count(c) && Start(c, k) <= o < End(c, k)
    ensures forall j: nat :: j < Count(c) && Start(c, j) <= o < End(c, j) ==> j == k
  {
    k := 0;
    while End(c, k) <= o
      invariant k < Count(c) && Start(c, k) <= o
      decreases Count(c) - k
    {
      SliceBounds(c, k);
      k := k + 1;
    }
    forall j: nat | j < Count(c) && Start(c, j) <= o < End(c, j)
      ensures j == k
    {
      SlicesDisjoint(c, j, k, o);
    }
  }

  lemma EarlierSliceEnds(c: Cut, j: nat, k: nat)
    requires ValidCut(c) && j < k
    ensures End(c, j) <= Start(c, k)
  {
    StartGap(c, j + 1, k);
  }

  lemma SlicesDisjoint(c: Cut, j: nat, k: nat, o: nat)
    requires ValidCut(c) && Start(c, j) <= o < End(c, j) && Start(c, k) <= o < End(c, k)
    ensures j == k
  {
    if j < k {
      EarlierSliceEnds(c, j, k);
    } else if k < j {
      EarlierSliceEnds(c, k, j);
    }
  }

  /** How far slice k lies beyond k equal slices of the first one's size. */
  lemma {:induction false} StartFromFirst(c: Cut, k: nat)
    requires k >= 1
    ensures Start(c, k) == k * c.first + (k - 1) * (c.rest - c.first)
    decreases k
  {
    if k > 1 {
      StartFromFirst(c, k - 1);
      assert k * c.first == (k - 1) * c.first + c.first;
      assert (k - 1) * (c.rest - c.first) == (k - 2) * (c.rest - c.first) + (c.rest - c.first);
    } else {
      assert Start(c, 1) == Start(c, 0) + c.first;
    }
  }
}
