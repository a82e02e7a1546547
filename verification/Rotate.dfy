/**
 * The fast random rotation and its inverse: sign flips, normalised Walsh-Hadamard transforms of the leading and the
 * trailing power-of-two window, and a walk of Givens rotations that mixes the two halves.
 */
module Rotate {
  import opened Vectors
  import opened Numbers
  import Codes
  import Fht

  // ---- Sign flips ----

  /** A word masked by one shifted left, as the tables of signs are read. */
  predicate Bit(word: nat, j: nat) {
    Codes.And(word, Pow2(j)) != 0
  }

  predicate SignBit(bits: seq<nat>, k: nat)
    requires k < 64 * |bits|
  {
    Bit(bits[k / 64], k % 64)
  }

  function Signed(bits: seq<nat>, k: nat, v: real): real
    requires k < 64 * |bits|
  {
    if SignBit(bits, k) then -v else v
  }

  function Flipped(bits: seq<nat>, x: Vec): (r: Vec)
    requires |x| <= 64 * |bits|
    ensures |r| == |x|
  {
    seq(|x|, k requires 0 <= k < |x| => Signed(bits, k, x[k]))
  }

  lemma {:induction false} AndNothing(word: nat)
    ensures Codes.And(word, 0) == 0
    decreases word
  {
    if word == 0 {
    } else {
      AndNothing(word / 2);
    }
  }

  /** It is binary digit `j`, counted from the lowest. */
  lemma {:induction false} BitIs(word: nat, j: nat)
    ensures Bit(word, j) <==> word / Pow2(j) % 2 == 1
    decreases j
  {
    if j == 0 {
      AndNothing(word / 2);
    } else {
      BitIs(word / 2, j - 1);
      assert Pow2(j) == 2 * Pow2(j - 1);
      HalfDivided(word, Pow2(j - 1));
    }
  }

  lemma {:induction false} HalfDivided(word: nat, p: nat)
    requires p > 0
    ensures word / (2 * p) == word / 2 / p
  {
    var q, r := word / 2 / p, word / 2 % p;
    assert word / 2 == q * p + r;
    RemainderUnique(word, 2 * p, q, 2 * r + word % 2);
  }

  /** Which entries change sign: entry `k` by bit k % 64 of word k / 64. */
  lemma {:induction false} FlippedAt(bits: seq<nat>, x: Vec)
    requires |x| <= 64 * |bits|
    ensures forall k :: 0 <= k < |x| ==>
              Flipped(bits, x)[k] == if bits[k / 64] / Pow2(k % 64) % 2 == 1 then -x[k] else x[k]
  {
    hide Bit;
    forall k | 0 <= k < |x|
      ensures Flipped(bits, x)[k] == if bits[k / 64] / Pow2(k % 64) % 2 == 1 then -x[k] else x[k]
    {
      BitIs(bits[k / 64], k % 64);
    }
  }

  lemma {:induction false} FlipTwice(bits: seq<nat>, x: Vec)
    requires |x| <= 64 * |bits|
    ensures Flipped(bits, Flipped(bits, x)) == x
  {
    hide SignBit;
  }

  lemma {:induction false} FlipDot(bits: seq<nat>, x: Vec, y: Vec)
    requires |x| == |y| <= 64 * |bits|
    ensures Dot(Flipped(bits, x), Flipped(bits, y)) == Dot(x, y)
  {
    hide SignBit;
    if x == [] {
    } else {
      var n := |x| - 1;
      FlipDot(bits, x[..n], y[..n]);
      assert Flipped(bits, x)[..n] == Flipped(bits, x[..n]) && Flipped(bits, y)[..n] == Flipped(bits, y[..n]);
    }
  }

  method Flip(bits: seq<nat>, x: array<real>)
    requires |bits| == 1024 && x.Length <= 65536
    modifies x
    ensures x[..] == Flipped(bits, old(x[..]))
    ensures forall k :: 0 <= k < x.Length ==>
              x[k] == if bits[k / 64] / Pow2(k % 64) % 2 == 1 then -old(x[k]) else old(x[k])
  {
    FlippedAt(bits, x[..]);
    hide SignBit, Bit;
    ghost var was := x[..];
    var n := x.Length / 64;
    for i := 0 to n
      invariant forall k :: 0 <= k < x.Length ==> x[k] == if k < 64 * i then Signed(bits, k, was[k]) else was[k]
    {
      for j := 0 to 64
        invariant forall k :: 0 <= k < x.Length ==> x[k] == if k < 64 * i + j then Signed(bits, k, was[k]) else was[k]
      {
        WordAndBit(bits, i, j);
        if Bit(bits[i], j) { x[64 * i + j] := -x[64 * i + j]; }
      }
    }
    for j := 0 to x.Length % 64
      invariant forall k :: 0 <= k < x.Length ==> x[k] == if k < 64 * n + j then Signed(bits, k, was[k]) else was[k]
    {
      WordAndBit(bits, n, j);
      if Bit(bits[n], j) { x[64 * n + j] := -x[64 * n + j]; }
    }
  }

  lemma {:induction false} WordAndBit(bits: seq<nat>, i: nat, j: nat)
    requires i < |bits| && j < 64
    ensures SignBit(bits, 64 * i + j) <==> Bit(bits[i], j)
  {
    hide Bit;
    assert (64 * i + j) / 64 == i && (64 * i + j) % 64 == j;
  }

  // ---- The walk of Givens rotations ----

  /** `c` is one over the square root of `n`. */
  predicate Normal(c: real, n: nat) {
    c * c * n as real == 1.0
  }

  function Lower(l: real, r: real, s: real): real { (l + r) * s }

  function Upper(l: real, r: real, s: real): real { (l - r) * s }

  /** Entry `k` once the first `j` pairs are rotated: the lower half against the upper half, a middle entry left. */
  function Mixed(x: Vec, s: real, j: nat, k: nat): real
    requires 2 * j <= |x| && k < |x|
  {
    var far := |x| - |x| / 2;
    if k < j then Lower(x[k], x[k + far], s)
    else if far <= k < far + j then Upper(x[k - far], x[k], s)
    else x[k]
  }

  function Walked(x: Vec, s: real): (r: Vec)
    ensures |r| == |x|
  {
    seq(|x|, k requires 0 <= k < |x| => Mixed(x, s, |x| / 2, k))
  }

  lemma {:induction false} GivensTwice(a: real, b: real, s: real)
    requires Normal(s, 2)
    ensures ((a + b) * s + (a - b) * s) * s == a && ((a + b) * s - (a - b) * s) * s == b
  {
    var half := s * s * 2.0;
    assert half == 1.0;
    assert ((a + b) * s + (a - b) * s) * s == a * (s * s * 2.0);
    assert ((a + b) * s - (a - b) * s) * s == b * (s * s * 2.0);
  }

  lemma {:induction false} WalkTwice(x: Vec, s: real)
    requires Normal(s, 2)
    ensures Walked(Walked(x, s), s) == x
  {
    var m, y := |x| / 2, Walked(x, s);
    var far := |x| - m;
    forall k | 0 <= k < |x| ensures Mixed(y, s, m, k) == x[k] {
      if k < m {
        assert y[k] == (x[k] + x[k + far]) * s && y[k + far] == (x[k] - x[k + far]) * s;
        GivensTwice(x[k], x[k + far], s);
      } else if far <= k {
        assert y[k] == (x[k - far] - x[k]) * s && y[k - far] == (x[k - far] + x[k]) * s;
        GivensTwice(x[k - far], x[k], s);
      }
    }
  }

  // The walk on the lower half, the middle and the upper half.
  lemma {:induction false} WalkParts(x: Vec, s: real)
    ensures var m := |x| / 2;
            var lower, upper := Slice(x, 0, m), Slice(x, |x| - m, |x|);
            Walked(x, s) == Three(Scale(s, Add(lower, upper)), Slice(x, m, |x| - m), Scale(s, Sub(lower, upper)))
  {
    var m := |x| / 2;
    var far := |x| - m;
    var lower, middle, upper := Slice(x, 0, m), Slice(x, m, far), Slice(x, far, |x|);
    var a, b := Scale(s, Add(lower, upper)), Scale(s, Sub(lower, upper));
    forall k | 0 <= k < |x| ensures Walked(x, s)[k] == Three(a, middle, b)[k] {
      hide Lower, Upper, Scale, Add, Sub;
      if k < m {
        ScaleLower(s, lower, upper, k);
      } else if far <= k {
        ScaleLower(s, lower, upper, k - far);
      }
    }
  }

  lemma {:induction false} ScaleLower(s: real, a: Vec, b: Vec, i: nat)
    requires i < |a| == |b|
    ensures Scale(s, Add(a, b))[i] == Lower(a[i], b[i], s)
    ensures Scale(s, Sub(a, b))[i] == Upper(a[i], b[i], s)
  {
  }

  lemma {:induction false} WalkDot(x: Vec, y: Vec, s: real)
    requires |x| == |y| && Normal(s, 2)
    ensures Dot(Walked(x, s), Walked(y, s)) == Dot(x, y)
  {
    hide Dot, Walked, Slice, Three, Scale, Add, Sub;
    var m := |x| / 2;
    var far := |x| - m;
    var a, b, c, d := Slice(x, 0, m), Slice(x, far, |x|), Slice(y, 0, m), Slice(y, far, |y|);
    var u, v := Slice(x, m, far), Slice(y, m, far);
    WalkParts(x, s);
    WalkParts(y, s);
    DotThree(Scale(s, Add(a, b)), u, Scale(s, Sub(a, b)), Scale(s, Add(c, d)), v, Scale(s, Sub(c, d)));
    DotScale(s, Add(a, b), s, Add(c, d));
    DotScale(s, Sub(a, b), s, Sub(c, d));
    Parallelogram(a, b, c, d);
    InThree(x, m, far);
    InThree(y, m, far);
    DotThree(a, u, b, c, v, d);
    HalvedTwice(s, Dot(Add(a, b), Add(c, d)), Dot(Sub(a, b), Sub(c, d)), Dot(a, c) + Dot(b, d));
  }

  lemma {:induction false} HalvedTwice(s: real, sums: real, differences: real, plain: real)
    requires s * s * 2.0 == 1.0 && sums + differences == 2.0 * plain
    ensures s * s * sums + s * s * differences == plain
  {
    assert s * s * sums + s * s * differences == s * s * (sums + differences);
  }

  method KacsWalk(x: array<real>, s: real)
    modifies x
    ensures x[..] == Walked(old(x[..]), s)
  {
    ghost var was := x[..];
    var n := x.Length;
    var m := n / 2;
    for i := 0 to m
      invariant forall k :: 0 <= k < n ==> x[k] == Mixed(was, s, i, k)
    {
      var far := n - m + i;
      var l, r := x[i], x[far];
      assert l == was[i] && r == was[far];
      assert Lower(l, r, s) == (l + r) * s && Upper(l, r, s) == (l - r) * s;
      hide Lower, Upper;
      x[i], x[far] := (l + r) * s, (l - r) * s;
    }
  }

  // ---- The normalised transform of a window ----

  function Patch(x: Vec, at: nat, seg: Vec): (r: Vec)
    requires at + |seg| <= |x|
    ensures |r| == |x|
  {
    Three(Slice(x, 0, at), seg, Slice(x, at + |seg|, |x|))
  }

  /** The window of 2^p entries at `at`, transformed and scaled by `c`. */
  function Spun(x: Vec, at: nat, p: nat, c: real): (r: Vec)
    requires at + Pow2(p) <= |x|
    ensures |r| == |x|
  {
    Patch(x, at, Scale(c, Fht.Hadamard(Slice(x, at, at + Pow2(p)), p)))
  }

  lemma {:induction false} PatchTwice(x: Vec, at: nat, u: Vec, v: Vec)
    requires |u| == |v| && at + |u| <= |x|
    ensures Slice(Patch(x, at, u), at, at + |u|) == u
    ensures Patch(Patch(x, at, u), at, v) == Patch(x, at, v)
    ensures Patch(x, at, Slice(x, at, at + |u|)) == x
  {
  }

  lemma {:induction false} SpinTwice(x: Vec, at: nat, p: nat, c: real)
    requires at + Pow2(p) <= |x| && Normal(c, Pow2(p))
    ensures Spun(Spun(x, at, p, c), at, p, c) == x
  {
    var v := Slice(x, at, at + Pow2(p));
    var u := Scale(c, Fht.Hadamard(v, p));
    var w := Scale(c, Fht.Hadamard(u, p));
    hide Normal, Pow2, Fht.Hadamard, Scale, Patch, Slice;
    PatchTwice(x, at, u, w);
    assert Spun(Spun(x, at, p, c), at, p, c) == Patch(x, at, w);
    SpunTwice(v, p, c);
  }

  lemma {:induction false} SpunTwice(v: Vec, p: nat, c: real)
    requires |v| == Pow2(p) && Normal(c, Pow2(p))
    ensures Scale(c, Fht.Hadamard(Scale(c, Fht.Hadamard(v, p)), p)) == v
  {
    hide Dot, Pow2, Scale, Fht.Hadamard;
    Fht.HadamardScales(c, Fht.Hadamard(v, p), p);
    Fht.HadamardTwice(v, p);
    var n := Pow2(p) as real;
    ScaleTwice(c, c, Scale(n, v));
    ScaleAway(c * c, n, v);
  }

  lemma {:induction false} SpunDot(u: Vec, v: Vec, p: nat, c: real)
    requires |u| == |v| == Pow2(p) && Normal(c, Pow2(p))
    ensures Dot(Scale(c, Fht.Hadamard(u, p)), Scale(c, Fht.Hadamard(v, p))) == Dot(u, v)
  {
    hide Dot, Pow2, Scale, Fht.Hadamard;
    DotScale(c, Fht.Hadamard(u, p), c, Fht.Hadamard(v, p));
    Fht.HadamardDot(u, v, p);
    Associate(c * c, Pow2(p) as real, Dot(u, v));
  }

  lemma {:induction false} PatchDot(x: Vec, y: Vec, at: nat, u: Vec, v: Vec)
    requires |x| == |y| && |u| == |v| && at + |u| <= |x|
    requires Dot(u, v) == Dot(Slice(x, at, at + |u|), Slice(y, at, at + |u|))
    ensures Dot(Patch(x, at, u), Patch(y, at, v)) == Dot(x, y)
  {
    hide Dot, Slice, Three;
    var e := at + |u|;
    DotThree(Slice(x, 0, at), u, Slice(x, e, |x|), Slice(y, 0, at), v, Slice(y, e, |y|));
    InThree(x, at, e);
    InThree(y, at, e);
    DotThree(Slice(x, 0, at), Slice(x, at, e), Slice(x, e, |x|), Slice(y, 0, at), Slice(y, at, e), Slice(y, e, |y|));
  }

  lemma {:induction false} SpinDot(x: Vec, y: Vec, at: nat, p: nat, c: real)
    requires |x| == |y| && at + Pow2(p) <= |x| && Normal(c, Pow2(p))
    ensures Dot(Spun(x, at, p, c), Spun(y, at, p, c)) == Dot(x, y)
  {
    hide Normal, Pow2, Dot, Patch, Scale, Slice, Fht.Hadamard;
    var u, v := Slice(x, at, at + Pow2(p)), Slice(y, at, at + Pow2(p));
    SpunDot(u, v, p, c);
    PatchDot(x, y, at, Scale(c, Fht.Hadamard(u, p)), Scale(c, Fht.Hadamard(v, p)));
  }

  // ---- One round, and its undoing ----

  function Round(x: Vec, bits: seq<nat>, at: nat, p: nat, c: real, s: real): (r: Vec)
    requires |x| <= 64 * |bits| && at + Pow2(p) <= |x|
    ensures |r| == |x|
  {
    var y := Spun(Flipped(bits, x), at, p, c);
    if |x| != Pow2(p) then Walked(y, s) else y
  }

  function Undone(x: Vec, bits: seq<nat>, at: nat, p: nat, c: real, s: real): (r: Vec)
    requires |x| <= 64 * |bits| && at + Pow2(p) <= |x|
    ensures |r| == |x|
  {
    var y := if |x| != Pow2(p) then Walked(x, s) else x;
    Flipped(bits, Patch(y, at, Fht.Hadamard(Scale(c, Slice(y, at, at + Pow2(p))), p)))
  }

  // The inverse scales before it transforms; that is the same.
  lemma {:induction false} UndoneSpins(x: Vec, bits: seq<nat>, at: nat, p: nat, c: real, s: real)
    requires |x| <= 64 * |bits| && at + Pow2(p) <= |x|
    ensures Undone(x, bits, at, p, c, s) ==
            Flipped(bits, Spun(if |x| != Pow2(p) then Walked(x, s) else x, at, p, c))
  {
    hide Flipped, Patch, Walked, Pow2, Scale, Slice, Fht.Hadamard;
    var y := if |x| != Pow2(p) then Walked(x, s) else x;
    Fht.HadamardScales(c, Slice(y, at, at + Pow2(p)), p);
  }

  lemma {:induction false} RoundUndone(x: Vec, bits: seq<nat>, at: nat, p: nat, c: real, s: real)
    requires |x| <= 64 * |bits| && at + Pow2(p) <= |x|
    requires Normal(c, Pow2(p)) && Normal(s, 2)
    ensures Undone(Round(x, bits, at, p, c, s), bits, at, p, c, s) == x
    ensures Round(Undone(x, bits, at, p, c, s), bits, at, p, c, s) == x
  {
    UndoneSpins(Round(x, bits, at, p, c, s), bits, at, p, c, s);
    UndoneSpins(x, bits, at, p, c, s);
    hide Normal, Flipped, Spun, Walked, Pow2, Undone;
    var y := Flipped(bits, x);
    WalkTwice(Spun(y, at, p, c), s);
    SpinTwice(y, at, p, c);
    FlipTwice(bits, x);
    var z := if |x| != Pow2(p) then Walked(x, s) else x;
    FlipTwice(bits, Spun(z, at, p, c));
    SpinTwice(z, at, p, c);
    WalkTwice(x, s);
  }

  lemma {:induction false} RoundDot(x: Vec, y: Vec, bits: seq<nat>, at: nat, p: nat, c: real, s: real)
    requires |x| == |y| <= 64 * |bits| && at + Pow2(p) <= |x|
    requires Normal(c, Pow2(p)) && Normal(s, 2)
    ensures Dot(Round(x, bits, at, p, c, s), Round(y, bits, at, p, c, s)) == Dot(x, y)
  {
    hide Normal, Flipped, Spun, Walked, Pow2, Dot;
    FlipDot(bits, x, y);
    var u, v := Flipped(bits, x), Flipped(bits, y);
    SpinDot(u, v, at, p, c);
    WalkDot(Spun(u, at, p, c), Spun(v, at, p, c), s);
  }

  // ---- The whole rotation ----

  /** The four sign tables. */
  datatype Tables = Tables(first: seq<nat>, second: seq<nat>, third: seq<nat>, fourth: seq<nat>) {
    predicate Cover(n: nat) {
      n <= 64 * |first| && n <= 64 * |second| && n <= 64 * |third| && n <= 64 * |fourth|
    }
  }

  function Rotated(x: Vec, t: Tables, c: real, s: real): (r: Vec)
    requires 0 < |x| && t.Cover(|x|)
    ensures |r| == |x|
  {
    var p := Fht.Log2(|x|);
    var right := |x| - Pow2(p);
    var a := Round(x, t.first, 0, p, c, s);
    var b := Round(a, t.second, right, p, c, s);
    var d := Round(b, t.third, 0, p, c, s);
    Round(d, t.fourth, right, p, c, s)
  }

  function Unrotated(x: Vec, t: Tables, c: real, s: real): (r: Vec)
    requires 0 < |x| && t.Cover(|x|)
    ensures |r| == |x|
  {
    var p := Fht.Log2(|x|);
    var right := |x| - Pow2(p);
    var a := Undone(x, t.fourth, right, p, c, s);
    var b := Undone(a, t.third, 0, p, c, s);
    var d := Undone(b, t.second, right, p, c, s);
    Undone(d, t.first, 0, p, c, s)
  }

  /** `c` is one over the root of the largest power of two in n, `s` one over the root of two. */
  predicate Roots(n: nat, c: real, s: real)
    requires n > 0
  {
    Normal(c, Pow2(Fht.Log2(n))) && Normal(s, 2)
  }

  /** The inverse undoes the rotation and the rotation undoes the inverse, for every dimension. */
  lemma {:induction false} RoundTrip(x: Vec, t: Tables, c: real, s: real)
    requires 0 < |x| && t.Cover(|x|) && Roots(|x|, c, s)
    ensures Unrotated(Rotated(x, t, c, s), t, c, s) == x
    ensures Rotated(Unrotated(x, t, c, s), t, c, s) == x
  {
    hide Normal, Round, Undone, Pow2, Fht.Log2;
    var p := Fht.Log2(|x|);
    var right := |x| - Pow2(p);
    var a := Round(x, t.first, 0, p, c, s);
    var b := Round(a, t.second, right, p, c, s);
    var d := Round(b, t.third, 0, p, c, s);
    RoundUndone(x, t.first, 0, p, c, s);
    RoundUndone(a, t.second, right, p, c, s);
    RoundUndone(b, t.third, 0, p, c, s);
    RoundUndone(d, t.fourth, right, p, c, s);
    var e := Undone(x, t.fourth, right, p, c, s);
    var f := Undone(e, t.third, 0, p, c, s);
    var g := Undone(f, t.second, right, p, c, s);
    RoundUndone(x, t.fourth, right, p, c, s);
    RoundUndone(e, t.third, 0, p, c, s);
    RoundUndone(f, t.second, right, p, c, s);
    RoundUndone(g, t.first, 0, p, c, s);
  }

  lemma {:induction false} RotatedDot(x: Vec, y: Vec, t: Tables, c: real, s: real)
    requires 0 < |x| == |y| && t.Cover(|x|) && Roots(|x|, c, s)
    ensures Dot(Rotated(x, t, c, s), Rotated(y, t, c, s)) == Dot(x, y)
  {
    hide Normal, Round, Pow2, Fht.Log2, Dot;
    var p := Fht.Log2(|x|);
    var right := |x| - Pow2(p);
    var a, a' := Round(x, t.first, 0, p, c, s), Round(y, t.first, 0, p, c, s);
    var b, b' := Round(a, t.second, right, p, c, s), Round(a', t.second, right, p, c, s);
    var d, d' := Round(b, t.third, 0, p, c, s), Round(b', t.third, 0, p, c, s);
    RoundDot(x, y, t.first, 0, p, c, s);
    RoundDot(a, a', t.second, right, p, c, s);
    RoundDot(b, b', t.third, 0, p, c, s);
    RoundDot(d, d', t.fourth, right, p, c, s);
  }

  /** Both directions preserve scalar products and squared distances. */
  lemma {:induction false} Isometry(x: Vec, y: Vec, t: Tables, c: real, s: real)
    requires 0 < |x| == |y| && t.Cover(|x|) && Roots(|x|, c, s)
    ensures Dot(Rotated(x, t, c, s), Rotated(y, t, c, s)) == Dot(x, y)
    ensures Distance(Rotated(x, t, c, s), Rotated(y, t, c, s)) == Distance(x, y)
    ensures Dot(Unrotated(x, t, c, s), Unrotated(y, t, c, s)) == Dot(x, y)
    ensures Distance(Unrotated(x, t, c, s), Unrotated(y, t, c, s)) == Distance(x, y)
  {
    hide *;
    DistancePreserved(x, y, t, c, s);
    var u, v := Unrotated(x, t, c, s), Unrotated(y, t, c, s);
    RoundTrip(x, t, c, s);
    RoundTrip(y, t, c, s);
    DistancePreserved(u, v, t, c, s);
  }

  lemma {:induction false} DistancePreserved(x: Vec, y: Vec, t: Tables, c: real, s: real)
    requires 0 < |x| == |y| && t.Cover(|x|) && Roots(|x|, c, s)
    ensures Dot(Rotated(x, t, c, s), Rotated(y, t, c, s)) == Dot(x, y)
    ensures Distance(Rotated(x, t, c, s), Rotated(y, t, c, s)) == Distance(x, y)
  {
    hide *;
    RotatedDot(x, y, t, c, s);
    RotatedDot(x, x, t, c, s);
    RotatedDot(y, y, t, c, s);
    DistanceByDots(x, y);
    DistanceByDots(Rotated(x, t, c, s), Rotated(y, t, c, s));
  }

  // ---- In place ----

  lemma {:induction false} ScaledWindow(cur: Vec, was: Vec, lo: nat, n: nat, c: real)
    requires lo + n <= |was| == |cur|
    requires forall k :: 0 <= k < |cur| ==> cur[k] == if lo <= k < lo + n then c * was[k] else was[k]
    ensures cur == Patch(was, lo, Scale(c, Slice(was, lo, lo + n)))
  {
    var seg, y := Slice(was, lo, lo + n), Scale(c, Slice(was, lo, lo + n));
    var z := Patch(was, lo, y);
    forall k | 0 <= k < |cur| ensures cur[k] == z[k] {
      if lo <= k < lo + n { assert seg[k - lo] == was[k] && y[k - lo] == c * was[k]; }
    }
  }

  method ScaleWindow(x: array<real>, lo: nat, n: nat, c: real)
    requires lo + n <= x.Length
    modifies x
    ensures x[..] == Patch(old(x[..]), lo, Scale(c, Slice(old(x[..]), lo, lo + n)))
  {
    ghost var was := x[..];
    for i := 0 to n
      invariant forall k :: 0 <= k < x.Length ==> x[k] == if lo <= k < lo + i then c * was[k] else was[k]
    {
      x[lo + i] := c * x[lo + i];
    }
    ScaledWindow(x[..], was, lo, n, c);
  }

  lemma {:induction false} WindowPatched(cur: Vec, was: Vec, lo: nat, n: nat)
    requires lo + n <= |was| && Fht.Outside(cur, was, lo, lo + n)
    ensures cur == Patch(was, lo, Slice(cur, lo, lo + n))
  {
  }

  lemma {:induction false} SliceOf(x: array<real>, lo: nat, n: nat)
    requires lo + n <= x.Length
    ensures Slice(x[..], lo, lo + n) == x[lo..lo + n]
  {
  }

  method TransformWindow(x: array<real>, lo: nat, p: nat)
    requires lo + Pow2(p) <= x.Length && p <= 16
    modifies x
    ensures x[..] == Patch(old(x[..]), lo, Fht.Hadamard(Slice(old(x[..]), lo, lo + Pow2(p)), p))
  {
    hide *;
    ghost var was := x[..];
    var n := Pow2(p);
    SliceOf(x, lo, n);
    var outcome := Fht.Transform(x, lo, n);
    assert outcome == Fht.Transformed;
    WindowPatched(x[..], was, lo, n);
    SliceOf(x, lo, n);
  }

  // One round of the rotation, in place.
  method RoundInPlace(x: array<real>, bits: seq<nat>, at: nat, p: nat, c: real, s: real)
    requires |bits| == 1024 && x.Length <= 65536 && at + Pow2(p) <= x.Length && p <= 16
    modifies x
    ensures x[..] == Round(old(x[..]), bits, at, p, c, s)
  {
    hide Flipped, Walked, Pow2, Scale, Fht.Hadamard, Patch, Slice;
    ghost var was, n := x[..], Pow2(p);
    Flip(bits, x);
    ghost var y := x[..];
    ghost var v := Fht.Hadamard(Slice(y, at, at + n), p);
    TransformWindow(x, at, p);
    PatchTwice(y, at, v, Scale(c, v));
    ScaleWindow(x, at, Pow2(p), c);
    if x.Length != Pow2(p) { KacsWalk(x, s); }
  }

  // One round of the inverse, in place.
  method UndoInPlace(x: array<real>, bits: seq<nat>, at: nat, p: nat, c: real, s: real)
    requires |bits| == 1024 && x.Length <= 65536 && at + Pow2(p) <= x.Length && p <= 16
    modifies x
    ensures x[..] == Undone(old(x[..]), bits, at, p, c, s)
  {
    hide Flipped, Walked, Pow2, Scale, Fht.Hadamard, Patch, Slice;
    ghost var n := Pow2(p);
    if x.Length != Pow2(p) { KacsWalk(x, s); }
    ghost var y := x[..];
    ghost var v := Scale(c, Slice(y, at, at + n));
    ScaleWindow(x, at, Pow2(p), c);
    PatchTwice(y, at, v, Fht.Hadamard(v, p));
    TransformWindow(x, at, p);
    Flip(bits, x);
  }

  lemma {:induction false} LogBelow(n: nat, q: nat)
    requires 0 < n <= Pow2(q)
    ensures Fht.Log2(n) <= q
  {
    if n > 1 { LogBelow(n / 2, q - 1); }
  }

  lemma {:induction false} SmallLog(n: nat)
    requires 0 < n <= 65536
    ensures Fht.Log2(n) <= 16
  {
    Pow2Sum(4, 4);
    Pow2Sum(8, 8);
    assert Pow2(4) == 16;
    LogBelow(n, 16);
  }

  method RotateInPlace(x: array<real>, t: Tables, c: real, s: real)
    requires 0 < x.Length <= 65536
    requires |t.first| == |t.second| == |t.third| == |t.fourth| == 1024
    modifies x
    ensures x[..] == Rotated(old(x[..]), t, c, s)
  {
    hide Round, Pow2, Fht.Log2;
    var n := x.Length;
    var p := Fht.Log2(n);
    SmallLog(n);
    var right := n - Pow2(p);
    RoundInPlace(x, t.first, 0, p, c, s);
    RoundInPlace(x, t.second, right, p, c, s);
    RoundInPlace(x, t.third, 0, p, c, s);
    RoundInPlace(x, t.fourth, right, p, c, s);
  }

  method RotateReversedInPlace(x: array<real>, t: Tables, c: real, s: real)
    requires 0 < x.Length <= 65536
    requires |t.first| == |t.second| == |t.third| == |t.fourth| == 1024
    modifies x
    ensures x[..] == Unrotated(old(x[..]), t, c, s)
  {
    hide Undone, Pow2, Fht.Log2;
    var n := x.Length;
    var p := Fht.Log2(n);
    SmallLog(n);
    var right := n - Pow2(p);
    UndoInPlace(x, t.fourth, right, p, c, s);
    UndoInPlace(x, t.third, 0, p, c, s);
    UndoInPlace(x, t.second, right, p, c, s);
    UndoInPlace(x, t.first, 0, p, c, s);
  }

  /** Rotating and rotating back, in place, leaves the array as it was. */
  method RotateThereAndBack(x: array<real>, t: Tables, c: real, s: real)
    requires 0 < x.Length <= 65536 && Roots(x.Length, c, s)
    requires |t.first| == |t.second| == |t.third| == |t.fourth| == 1024
    modifies x
    ensures x[..] == old(x[..])
  {
    hide Rotated, Unrotated, Roots;
    RoundTrip(x[..], t, c, s);
    RotateInPlace(x, t, c, s);
    RotateReversedInPlace(x, t, c, s);
  }

  /** And the other way round. */
  method RotateBackAndThere(x: array<real>, t: Tables, c: real, s: real)
    requires 0 < x.Length <= 65536 && Roots(x.Length, c, s)
    requires |t.first| == |t.second| == |t.third| == |t.fourth| == 1024
    modifies x
    ensures x[..] == old(x[..])
  {
    hide Rotated, Unrotated, Roots;
    RoundTrip(x[..], t, c, s);
    RotateReversedInPlace(x, t, c, s);
    RotateInPlace(x, t, c, s);
  }
}
