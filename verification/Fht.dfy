/**
 * The in-place Walsh-Hadamard transform: butterflies over a window of an array, stage by stage, plain for short
 * windows and tile by tile for long ones.
 */
module Fht {
  import opened Vectors

  // ---- Meaning ----

  /** One butterfly: sums in the lower half, differences in the upper half. */
  function Butterfly(x: Vec): (r: Vec)
    requires |x| % 2 == 0
    ensures |r| == |x|
  {
    Join(Add(Lo(x), Hi(x)), Sub(Lo(x), Hi(x)))
  }

  /** The transform by halves. */
  function Hadamard(x: Vec, p: nat): (r: Vec)
    requires |x| == Pow2(p)
    ensures |r| == |x|
    decreases p
  {
    if p == 0 then x else Butterfly(Join(Hadamard(Lo(x), p - 1), Hadamard(Hi(x), p - 1)))
  }

  // The two halves of the transform.
  lemma {:induction false} Halves(x: Vec, p: nat)
    requires p > 0 && |x| == Pow2(p)
    ensures |x| == 2 * Pow2(p - 1)
    ensures var a, b := Hadamard(Lo(x), p - 1), Hadamard(Hi(x), p - 1);
            Hadamard(x, p) == Join(Add(a, b), Sub(a, b))
  {
    HalvesOfJoin(Hadamard(Lo(x), p - 1), Hadamard(Hi(x), p - 1));
  }

  lemma {:induction false} One(x: Vec)
    requires |x| == Pow2(0)
    ensures |x| == 1 && Hadamard(x, 0) == x
  {
  }

  /** Entry (j, k) of the Walsh matrix: -1 to the number of bits that j and k share. */
  function Walsh(p: nat, j: nat, k: nat): real
    requires j < Pow2(p) && k < Pow2(p)
  {
    if p == 0 then 1.0 else
      var h := Pow2(p - 1);
      var rest := Walsh(p - 1, if j < h then j else j - h, if k < h then k else k - h);
      if j >= h && k >= h then -rest else rest
  }

  function Row(p: nat, k: nat): (r: Vec)
    requires k < Pow2(p)
    ensures |r| == Pow2(p)
  {
    seq(Pow2(p), j requires 0 <= j < Pow2(p) => Walsh(p, j, k))
  }

  lemma {:induction false} DotNegate(x: Vec, y: Vec)
    requires |x| == |y|
    ensures Dot(Scale(-1.0, x), y) == -Dot(x, y)
  {
    if x == [] {
    } else {
      var n := |x| - 1;
      DotNegate(x[..n], y[..n]);
      assert Scale(-1.0, x)[..n] == Scale(-1.0, x[..n]);
    }
  }

  lemma {:induction false} RowHalves(p: nat, k: nat)
    requires p > 0 && k < Pow2(p)
    ensures var h := Pow2(p - 1);
            var at := if k < h then k else k - h;
            && Pow2(p) == 2 * h
            && at < h
            && Row(p, k) == Join(Row(p - 1, at), if k < h then Row(p - 1, at) else Scale(-1.0, Row(p - 1, at)))
  {
  }

  lemma {:induction false} WalshOne(x: Vec)
    requires |x| == 1
    ensures Dot(Row(0, 0), x) == x[0]
  {
    assert Row(0, 0) == [1.0];
    assert Dot(Row(0, 0), x) == Dot([], []) + 1.0 * x[0];
  }

  /** The transform is multiplication by the Walsh matrix. */
  lemma {:induction false} HadamardIsWalsh(x: Vec, p: nat, k: nat)
    requires |x| == Pow2(p) && k < Pow2(p)
    ensures Hadamard(x, p)[k] == Dot(Row(p, k), x)
    decreases p
  {
    hide Hadamard, Row, Pow2, Dot, Lo, Hi, Walsh;
    if p == 0 {
      One(x);
      WalshOne(x);
    } else {
      var h := Pow2(p - 1);
      var at := if k < h then k else k - h;
      Halves(x, p);
      RowHalves(p, k);
      HadamardIsWalsh(Lo(x), p - 1, at);
      HadamardIsWalsh(Hi(x), p - 1, at);
      JoinHalves(x);
      DotConcat(Row(p - 1, at), Lo(x), if k < h then Row(p - 1, at) else Scale(-1.0, Row(p - 1, at)), Hi(x));
      DotNegate(Row(p - 1, at), Hi(x));
    }
  }

  lemma {:induction false} HadamardAdds(x: Vec, y: Vec, p: nat)
    requires |x| == |y| == Pow2(p)
    ensures Hadamard(Add(x, y), p) == Add(Hadamard(x, p), Hadamard(y, p))
    decreases p
  {
    hide *;
    if p > 0 {
      Halves(x, p);
      Halves(y, p);
      Halves(Add(x, y), p);
      HalvesOfAdd(x, y);
      HadamardAdds(Lo(x), Lo(y), p - 1);
      HadamardAdds(Hi(x), Hi(y), p - 1);
      var a, b := Hadamard(Lo(x), p - 1), Hadamard(Hi(x), p - 1);
      var c, d := Hadamard(Lo(y), p - 1), Hadamard(Hi(y), p - 1);
      Interchange(a, c, b, d);
      AddJoin(Add(a, b), Sub(a, b), Add(c, d), Sub(c, d));
    } else {
      One(x);
      One(y);
      One(Add(x, y));
    }
  }

  lemma {:induction false} HadamardScales(c: real, x: Vec, p: nat)
    requires |x| == Pow2(p)
    ensures Hadamard(Scale(c, x), p) == Scale(c, Hadamard(x, p))
    decreases p
  {
    hide *;
    if p > 0 {
      Halves(x, p);
      Halves(Scale(c, x), p);
      HalvesOfScale(c, x);
      HadamardScales(c, Lo(x), p - 1);
      HadamardScales(c, Hi(x), p - 1);
      var a, b := Hadamard(Lo(x), p - 1), Hadamard(Hi(x), p - 1);
      ScaleDistributes(c, a, b);
      ScaleJoin(c, Add(a, b), Sub(a, b));
    } else {
      One(x);
      One(Scale(c, x));
    }
  }

  lemma {:induction false} HadamardSubtracts(x: Vec, y: Vec, p: nat)
    requires |x| == |y| == Pow2(p)
    ensures Hadamard(Sub(x, y), p) == Sub(Hadamard(x, p), Hadamard(y, p))
  {
    hide *;
    SubByScale(x, y);
    HadamardAdds(x, Scale(-1.0, y), p);
    HadamardScales(-1.0, y, p);
    SubByScale(Hadamard(x, p), Hadamard(y, p));
  }

  /** Transforming twice multiplies by the dimension. */
  lemma {:induction false} HadamardTwice(x: Vec, p: nat)
    requires |x| == Pow2(p)
    ensures Hadamard(Hadamard(x, p), p) == Scale(Pow2(p) as real, x)
    decreases p
  {
    hide *;
    if p > 0 {
      Halves(x, p);
      Halves(Hadamard(x, p), p);
      var a, b := Hadamard(Lo(x), p - 1), Hadamard(Hi(x), p - 1);
      HalvesOfJoin(Add(a, b), Sub(a, b));
      HadamardAdds(a, b, p - 1);
      HadamardSubtracts(a, b, p - 1);
      SumAndDifference(Hadamard(a, p - 1), Hadamard(b, p - 1));
      HadamardTwice(Lo(x), p - 1);
      HadamardTwice(Hi(x), p - 1);
      var h := Pow2(p - 1) as real;
      ScaleTwice(2.0, h, Lo(x));
      ScaleTwice(2.0, h, Hi(x));
      ScaleJoin(2.0 * h, Lo(x), Hi(x));
      JoinHalves(x);
    } else {
      One(x);
      ScaleByOne(x);
    }
  }

  /** Scalar products grow by the dimension. */
  lemma {:induction false} HadamardDot(x: Vec, y: Vec, p: nat)
    requires |x| == |y| == Pow2(p)
    ensures Dot(Hadamard(x, p), Hadamard(y, p)) == Pow2(p) as real * Dot(x, y)
    decreases p
  {
    hide *;
    if p > 0 {
      Halves(x, p);
      Halves(y, p);
      HadamardDot(Lo(x), Lo(y), p - 1);
      HadamardDot(Hi(x), Hi(y), p - 1);
      var a, b := Hadamard(Lo(x), p - 1), Hadamard(Hi(x), p - 1);
      var c, d := Hadamard(Lo(y), p - 1), Hadamard(Hi(y), p - 1);
      DotJoin(Add(a, b), Sub(a, b), Add(c, d), Sub(c, d));
      Parallelogram(a, b, c, d);
      DotHalves(x, y);
      Doubled(Pow2(p - 1) as real, Pow2(p) as real, Dot(Lo(x), Lo(y)), Dot(Hi(x), Hi(y)),
              Dot(x, y), Dot(Hadamard(x, p), Hadamard(y, p)));
    } else {
      One(x);
      One(y);
    }
  }

  lemma {:induction false} Doubled(h: real, n: real, a: real, b: real, plain: real, transformed: real)
    requires n == 2.0 * h && plain == a + b && transformed == 2.0 * (h * a) + 2.0 * (h * b)
    ensures transformed == n * plain
  {
    assert h * a + h * b == h * (a + b);
  }

  // ---- Blocks of a window ----

  /** Where block `b` of 2^q entries begins. */
  function At(b: nat, q: nat): nat {
    b * Pow2(q)
  }

  lemma {:induction false} AtNext(b: nat, c: nat, q: nat)
    ensures At(b + c, q) == At(b, q) + At(c, q) && At(1, q) == Pow2(q) && At(0, q) == 0
  {
    assert (b + c) * Pow2(q) == b * Pow2(q) + c * Pow2(q);
  }

  lemma {:induction false} AtHalf(b: nat, q: nat)
    ensures At(b, q + 1) == At(2 * b, q)
  {
    assert Pow2(q + 1) == 2 * Pow2(q);
  }

  lemma {:induction false} AtOrdered(b: nat, c: nat, q: nat)
    requires b < c
    ensures At(b, q) + Pow2(q) <= At(c, q)
  {
    AtNext(b, 1, q);
    AtNext(b + 1, c - b - 1, q);
  }

  lemma {:induction false} AtEnd(p: nat, q: nat)
    requires q <= p
    ensures At(Pow2(p - q), q) == Pow2(p)
  {
    Pow2Sum(p - q, q);
  }

  /** Block `b` of the window that begins at `lo`. */
  function Block(x: Vec, lo: nat, b: nat, q: nat): (r: Vec)
    requires lo + At(b, q) + Pow2(q) <= |x|
    ensures |r| == Pow2(q)
  {
    x[lo + At(b, q)..lo + At(b, q) + Pow2(q)]
  }

  predicate Fits(x: Vec, lo: nat, b: nat, q: nat) {
    lo + At(b, q) + Pow2(q) <= |x|
  }

  /** The two agree outside [s, e). */
  ghost predicate Outside(cur: Vec, was: Vec, s: nat, e: nat) {
    |cur| == |was| && forall k {:trigger cur[k]} :: 0 <= k < |cur| && !(s <= k < e) ==> cur[k] == was[k]
  }

  /** Butterflies of size 2^(q+1) were applied to exactly the blocks `from` to `to`. */
  ghost predicate Merged(cur: Vec, was: Vec, lo: nat, q: nat, from: nat, to: nat) {
    && Outside(cur, was, lo + At(from, q + 1), lo + At(to, q + 1))
    && forall b :: from <= b < to ==> MergedBlock(cur, was, lo, q, b)
  }

  ghost predicate MergedBlock(cur: Vec, was: Vec, lo: nat, q: nat, b: nat) {
    && |cur| == |was| && Fits(cur, lo, b, q + 1)
    && Pow2(q + 1) == 2 * Pow2(q)
    && Block(cur, lo, b, q + 1) == Butterfly(Block(was, lo, b, q + 1))
  }

  /** Every block of 2^q entries holds its own transform. */
  ghost predicate Levelled(x: Vec, orig: Vec, lo: nat, p: nat, q: nat) {
    && q <= p && lo + Pow2(p) <= |x| && Outside(x, orig, lo, lo + Pow2(p))
    && forall b :: 0 <= b < Pow2(p - q) ==> LevelledBlock(x, orig, lo, q, b)
  }

  ghost predicate LevelledBlock(x: Vec, orig: Vec, lo: nat, q: nat, b: nat) {
    |x| == |orig| && Fits(x, lo, b, q) && Block(x, lo, b, q) == Hadamard(Block(orig, lo, b, q), q)
  }

  lemma {:induction false} SameBlock(cur: Vec, was: Vec, s: nat, e: nat, lo: nat, b: nat, q: nat)
    requires Outside(cur, was, s, e) && Fits(cur, lo, b, q)
    requires lo + At(b, q) + Pow2(q) <= s || e <= lo + At(b, q)
    ensures Block(cur, lo, b, q) == Block(was, lo, b, q)
  {
  }

  lemma {:induction false} BlockHalves(x: Vec, lo: nat, b: nat, q: nat)
    requires Fits(x, lo, b, q + 1)
    ensures Fits(x, lo, 2 * b, q) && Fits(x, lo, 2 * b + 1, q) && |Block(x, lo, b, q + 1)| % 2 == 0
    ensures Lo(Block(x, lo, b, q + 1)) == Block(x, lo, 2 * b, q)
    ensures Hi(Block(x, lo, b, q + 1)) == Block(x, lo, 2 * b + 1, q)
  {
    AtHalf(b, q);
    AtNext(2 * b, 1, q);
    assert Pow2(q + 1) == 2 * Pow2(q);
    hide Pow2, At;
  }

  lemma {:induction false} NothingMerged(x: Vec, lo: nat, q: nat)
    ensures Merged(x, x, lo, q, 0, 0)
  {
  }

  /** Merging a range of blocks and then the next range merges both. */
  lemma {:induction false} MergedAppend(cur: Vec, mid: Vec, was: Vec, lo: nat, q: nat, i: nat, j: nat)
    requires Merged(mid, was, lo, q, 0, i) && Merged(cur, mid, lo, q, i, j) && i <= j
    ensures Merged(cur, was, lo, q, 0, j)
  {
    AtNext(i, j - i, q + 1);
    forall b | 0 <= b < j ensures MergedBlock(cur, was, lo, q, b) {
      assert b < i ==> MergedBlock(mid, was, lo, q, b);
      assert i <= b ==> MergedBlock(cur, mid, lo, q, b);
      if b < i { AtOrdered(b, i, q + 1); } else if i < b { AtOrdered(i, b, q + 1); }
      hide Pow2, At, Block, Butterfly;
      if b < i {
        SameBlock(cur, mid, lo + At(i, q + 1), lo + At(j, q + 1), lo, b, q + 1);
      } else {
        SameBlock(mid, was, lo + At(0, q + 1), lo + At(i, q + 1), lo, b, q + 1);
      }
    }
  }

  /** Blocks counted from block `i` of the window, or from the window's start. */
  lemma {:induction false} MergedShift(cur: Vec, was: Vec, lo: nat, q: nat, i: nat, c: nat)
    requires Merged(cur, was, lo + At(i, q + 1), q, 0, c)
    ensures Merged(cur, was, lo, q, i, i + c)
  {
    AtNext(0, 0, q + 1);
    AtNext(i, c, q + 1);
    hide At, MergedBlock, Outside;
    forall b | i <= b < i + c ensures MergedBlock(cur, was, lo, q, b) {
      assert MergedBlock(cur, was, lo + At(i, q + 1), q, b - i);
      BlockShift(cur, was, lo, q, i, b);
    }
  }

  lemma {:induction false} BlockShift(cur: Vec, was: Vec, lo: nat, q: nat, i: nat, b: nat)
    requires i <= b && MergedBlock(cur, was, lo + At(i, q + 1), q, b - i)
    ensures MergedBlock(cur, was, lo, q, b)
  {
    AtNext(i, b - i, q + 1);
    hide At, Pow2, Butterfly;
  }

  lemma {:induction false} NothingLevelled(x: Vec, lo: nat, p: nat)
    requires lo + Pow2(p) <= |x|
    ensures Levelled(x, x, lo, p, 0)
  {
    forall b | 0 <= b < Pow2(p) ensures LevelledBlock(x, x, lo, 0, b) {
      assert At(b, 0) == b;
    }
  }

  lemma {:induction false} LevelledUp(cur: Vec, was: Vec, orig: Vec, lo: nat, p: nat, q: nat)
    requires q < p && Levelled(was, orig, lo, p, q) && Merged(cur, was, lo, q, 0, Pow2(p - q - 1))
    ensures Levelled(cur, orig, lo, p, q + 1)
  {
    var next := q + 1;
    AtEnd(p, next);
    forall b | 0 <= b < Pow2(p - next) ensures LevelledBlock(cur, orig, lo, next, b) {
      assert MergedBlock(cur, was, lo, q, b);
      LevelledBlockUp(cur, was, orig, lo, p, q, b);
    }
  }

  lemma {:induction false} LevelledBlockUp(cur: Vec, was: Vec, orig: Vec, lo: nat, p: nat, q: nat, b: nat)
    requires q < p && Levelled(was, orig, lo, p, q) && MergedBlock(cur, was, lo, q, b) && b < Pow2(p - q - 1)
    ensures LevelledBlock(cur, orig, lo, q + 1, b)
  {
    assert Pow2(p - q) == 2 * Pow2(p - q - 1) && Pow2(q + 1) == 2 * Pow2(q);
    assert LevelledBlock(was, orig, lo, q, 2 * b) && LevelledBlock(was, orig, lo, q, 2 * b + 1);
    hide Pow2, At, Block, Butterfly, Levelled, Join, Lo, Hi, Outside;
    BlockHalves(was, lo, b, q);
    BlockHalves(orig, lo, b, q);
    JoinHalves(Block(was, lo, b, q + 1));
  }

  lemma {:induction false} LevelledAll(x: Vec, orig: Vec, lo: nat, p: nat)
    requires Levelled(x, orig, lo, p, p)
    ensures x[lo..lo + Pow2(p)] == Hadamard(orig[lo..lo + Pow2(p)], p)
    ensures Outside(x, orig, lo, lo + Pow2(p))
  {
    assert LevelledBlock(x, orig, lo, p, 0);
  }

  // ---- In place ----

  /** What entry `k` holds once the first `j` pairs at distance `h` from `at` are combined. */
  ghost function Paired(was: Vec, at: nat, h: nat, j: nat, k: nat): real
    requires j <= h && at + 2 * h <= |was| && k < |was|
  {
    if at <= k < at + j then was[k] + was[k + h]
    else if at + h <= k < at + h + j then was[k - h] - was[k]
    else was[k]
  }

  lemma {:induction false} PairedIsButterfly(cur: Vec, was: Vec, at: nat, q: nat)
    requires |cur| == |was| && at + 2 * Pow2(q) <= |was|
    requires forall k :: 0 <= k < |cur| ==> cur[k] == Paired(was, at, Pow2(q), Pow2(q), k)
    ensures Merged(cur, was, at, q, 0, 1)
  {
    hide *;
    var h := Pow2(q);
    FirstBlock(cur, at, q);
    FirstBlock(was, at, q);
    PairedWindow(cur, was, at, h);
    MergedFirst(cur, was, at, q);
  }

  lemma {:induction false} FirstBlock(x: Vec, at: nat, q: nat)
    requires at + 2 * Pow2(q) <= |x|
    ensures Pow2(q + 1) == 2 * Pow2(q) && At(0, q + 1) == 0 && At(1, q + 1) == Pow2(q + 1)
    ensures Fits(x, at, 0, q + 1) && Block(x, at, 0, q + 1) == x[at..at + 2 * Pow2(q)]
  {
    AtNext(0, 1, q + 1);
  }

  lemma {:induction false} PairedWindow(cur: Vec, was: Vec, at: nat, h: nat)
    requires |cur| == |was| && at + 2 * h <= |was|
    requires forall k :: 0 <= k < |cur| ==> cur[k] == Paired(was, at, h, h, k)
    ensures cur[at..at + 2 * h] == Butterfly(was[at..at + 2 * h])
    ensures Outside(cur, was, at, at + 2 * h)
  {
    var x, y := was[at..at + 2 * h], cur[at..at + 2 * h];
    forall k | 0 <= k < 2 * h ensures y[k] == Butterfly(x)[k] {
      assert y[k] == cur[at + k];
    }
  }

  lemma {:induction false} MergedFirst(cur: Vec, was: Vec, at: nat, q: nat)
    requires |cur| == |was| && at + 2 * Pow2(q) <= |was| && Outside(cur, was, at, at + 2 * Pow2(q))
    requires cur[at..at + 2 * Pow2(q)] == Butterfly(was[at..at + 2 * Pow2(q)])
    ensures Merged(cur, was, at, q, 0, 1)
  {
    FirstBlock(cur, at, q);
    FirstBlock(was, at, q);
    hide Outside, Butterfly, At, Pow2, Block, Fits;
    assert MergedBlock(cur, was, at, q, 0);
  }

  method Basic2(x: array<real>, at: nat, q: nat)
    requires at + Pow2(q + 1) <= x.Length
    modifies x
    ensures Merged(x[..], old(x[..]), at, q, 0, 1)
  {
    ghost var was := x[..];
    var h := Pow2(q);
    assert Pow2(q + 1) == 2 * h;
    hide Pow2;
    for j := 0 to h
      invariant forall k :: 0 <= k < x.Length ==> x[k] == Paired(was, at, h, j, k)
    {
      var l, r := x[at + j], x[at + j + h];
      x[at + j], x[at + j + h] := l + r, l - r;
    }
    PairedIsButterfly(x[..], was, at, q);
  }

  method Basic1(x: array<real>, at: nat, q: nat)
    requires q <= 8 && at + Pow2(9) <= x.Length
    modifies x
    ensures Merged(x[..], old(x[..]), at, q, 0, Pow2(8 - q))
  {
    ghost var was := x[..];
    NothingMerged(was, at, q);
    for i := 0 to Pow2(8 - q)
      invariant Merged(x[..], was, at, q, 0, i)
    {
      ghost var mid := x[..];
      Inside(i, q, 9);
      hide Pow2, At, Merged;
      Basic2(x, at + At(i, q + 1), q);
      MergedShift(x[..], mid, at, q, i, 1);
      MergedAppend(x[..], mid, was, at, q, i, i + 1);
    }
  }

  lemma {:induction false} Inside(i: nat, q: nat, p: nat)
    requires q < p && i < Pow2(p - q - 1)
    ensures At(i, q + 1) + Pow2(q + 1) <= Pow2(p)
  {
    AtOrdered(i, Pow2(p - q - 1), q + 1);
    AtEnd(p, q + 1);
  }

  // One stage of a short window: butterflies block by block.
  method PlainStage(x: array<real>, lo: nat, p: nat, q: nat)
    requires q < p && lo + Pow2(p) <= x.Length
    modifies x
    ensures Merged(x[..], old(x[..]), lo, q, 0, Pow2(p - q - 1))
  {
    ghost var was := x[..];
    NothingMerged(was, lo, q);
    for i := 0 to Pow2(p - q - 1)
      invariant Merged(x[..], was, lo, q, 0, i)
    {
      ghost var mid := x[..];
      Inside(i, q, p);
      hide Pow2, At, Merged;
      Basic2(x, lo + At(i, q + 1), q);
      MergedShift(x[..], mid, lo, q, i, 1);
      MergedAppend(x[..], mid, was, lo, q, i, i + 1);
    }
  }

  // The tiles of 512 entries divide a long window.
  lemma {:induction false} TileInside(t: nat, q: nat, p: nat)
    requires q <= 8 < p && t < Pow2(p - 9)
    ensures At(At(t, 8 - q), q + 1) + Pow2(9) <= Pow2(p)
    ensures At(t, 8 - q) + Pow2(8 - q) == At(t + 1, 8 - q) <= Pow2(p - q - 1)
  {
    hide Pow2, At;
    AtOrdered(t, Pow2(p - 9), 9);
    AtEnd(p, 9);
    AtAt(t, 8 - q, q + 1);
    AtNext(t, 1, 8 - q);
    AtOrdered(t, Pow2(p - 9), 8 - q);
    AtEnd(p - q - 1, 8 - q);
  }

  lemma {:induction false} AtAt(t: nat, a: nat, b: nat)
    ensures At(At(t, a), b) == At(t, a + b)
  {
    Pow2Sum(a, b);
    hide Pow2;
    assert t * Pow2(a) * Pow2(b) == t * (Pow2(a) * Pow2(b));
  }

  // One short-distance stage of a long window: tile by tile.
  method TiledStage(x: array<real>, lo: nat, p: nat, q: nat)
    requires q <= 8 < p && lo + Pow2(p) <= x.Length
    modifies x
    ensures Merged(x[..], old(x[..]), lo, q, 0, Pow2(p - q - 1))
  {
    hide *;
    ghost var was := x[..];
    NothingMerged(was, lo, q);
    var i, step := 0, Pow2(8 - q);
    ghost var t := 0;
    AtEnd(p - q - 1, 8 - q);
    AtNext(0, 0, 8 - q);
    while i < Pow2(p - q - 1)
      invariant i == At(t, 8 - q) && t <= Pow2(p - 9)
      invariant t == Pow2(p - 9) ==> i == Pow2(p - q - 1)
      invariant i <= Pow2(p - q - 1)
      invariant Merged(x[..], was, lo, q, 0, i)
    {
      ghost var mid := x[..];
      TileInside(t, q, p);
      Basic1(x, lo + At(i, q + 1), q);
      MergedShift(x[..], mid, lo, q, i, step);
      MergedAppend(x[..], mid, was, lo, q, i, i + step);
      i, t := i + step, t + 1;
    }
  }

  method WalkPlain(x: array<real>, lo: nat, p: nat)
    requires lo + Pow2(p) <= x.Length
    modifies x
    ensures x[lo..lo + Pow2(p)] == Hadamard(old(x[lo..lo + Pow2(p)]), p)
    ensures Outside(x[..], old(x[..]), lo, lo + Pow2(p))
  {
    ghost var orig := x[..];
    NothingLevelled(orig, lo, p);
    hide *;
    for q := 0 to p
      invariant Levelled(x[..], orig, lo, p, q)
    {
      ghost var was := x[..];
      PlainStage(x, lo, p, q);
      LevelledUp(x[..], was, orig, lo, p, q);
    }
    LevelledAll(x[..], orig, lo, p);
    assert x[..][lo..lo + Pow2(p)] == x[lo..lo + Pow2(p)];
    assert orig[lo..lo + Pow2(p)] == old(x[lo..lo + Pow2(p)]);
  }

  method WalkTiled(x: array<real>, lo: nat, p: nat)
    requires 8 < p && lo + Pow2(p) <= x.Length
    modifies x
    ensures x[lo..lo + Pow2(p)] == Hadamard(old(x[lo..lo + Pow2(p)]), p)
    ensures Outside(x[..], old(x[..]), lo, lo + Pow2(p))
  {
    ghost var orig := x[..];
    NothingLevelled(orig, lo, p);
    hide *;
    for q := 0 to 8
      invariant Levelled(x[..], orig, lo, p, q)
    {
      ghost var was := x[..];
      TiledStage(x, lo, p, q);
      LevelledUp(x[..], was, orig, lo, p, q);
    }
    for q := 8 to p
      invariant Levelled(x[..], orig, lo, p, q)
    {
      ghost var was := x[..];
      PlainStage(x, lo, p, q);
      LevelledUp(x[..], was, orig, lo, p, q);
    }
    LevelledAll(x[..], orig, lo, p);
    assert x[..][lo..lo + Pow2(p)] == x[lo..lo + Pow2(p)];
    assert orig[lo..lo + Pow2(p)] == old(x[lo..lo + Pow2(p)]);
  }

  datatype Outcome = Transformed | ZeroDimension | NotPowerOfTwo | TooLarge

  /** The exponent of the largest power of two that is at most n. */
  function Log2(n: nat): (p: nat)
    requires n > 0
    ensures Pow2(p) <= n < Pow2(p + 1)
  {
    if n == 1 then 0 else 1 + Log2(n / 2)
  }

  lemma {:induction false} Log2Unique(n: nat, p: nat)
    requires n > 0
    ensures n == Pow2(p) ==> Log2(n) == p
  {
    if n == Pow2(p) {
      var q := Log2(n);
      if p < q {
        if p + 1 < q { Pow2Grows(p + 1, q); }
        Pow2Grows(p, q);
      } else if q < p {
        if q + 1 < p { Pow2Grows(q + 1, p); }
      }
    }
  }

  /** Transforms the window of `n` entries at `lo`, or refuses it untouched. */
  method Transform(x: array<real>, lo: nat, n: nat) returns (outcome: Outcome)
    requires lo + n <= x.Length
    modifies x
    ensures outcome == Transformed <==> exists p: nat :: p <= 16 && n == Pow2(p)
    ensures forall p: nat :: p <= 16 && n == Pow2(p) ==> x[lo..lo + n] == Hadamard(old(x[lo..lo + n]), p)
    ensures outcome == ZeroDimension <==> n == 0
    ensures outcome == TooLarge <==> exists p: nat :: p > 16 && n == Pow2(p)
    ensures outcome != Transformed ==> x[..] == old(x[..])
    ensures Outside(x[..], old(x[..]), lo, lo + n)
  {
    hide *;
    Refused(x[..], lo, n);
    if n == 0 { return ZeroDimension; }
    var p := Log2(n);
    LogOf(n);
    if n != Pow2(p) { return NotPowerOfTwo; }
    assert n == Pow2(p);
    if p > 16 { return TooLarge; }
    if p <= 8 { WalkPlain(x, lo, p); } else { WalkTiled(x, lo, p); }
    return Transformed;
  }

  lemma {:induction false} Refused(x: Vec, lo: nat, n: nat)
    ensures Outside(x, x, lo, lo + n)
    ensures forall p: nat :: Pow2(p) > 0
  {
  }

  lemma {:induction false} LogOf(n: nat)
    requires n > 0
    ensures forall p: nat :: n == Pow2(p) ==> p == Log2(n)
  {
    forall p: nat ensures n == Pow2(p) ==> p == Log2(n) { Log2Unique(n, p); }
  }
}
