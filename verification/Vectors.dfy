/** Real vectors: sums, scalar products and squared distances over exact reals. */
module Vectors {
  type Vec = seq<real>

  function Add(x: Vec, y: Vec): (r: Vec)
    requires |x| == |y|
    ensures |r| == |x|
  {
    seq(|x|, i requires 0 <= i < |x| => x[i] + y[i])
  }

  function Sub(x: Vec, y: Vec): (r: Vec)
    requires |x| == |y|
    ensures |r| == |x|
  {
    seq(|x|, i requires 0 <= i < |x| => x[i] - y[i])
  }

  function Scale(c: real, x: Vec): (r: Vec)
    ensures |r| == |x|
  {
    seq(|x|, i requires 0 <= i < |x| => c * x[i])
  }

  // ---- Halves ----

  function Lo(x: Vec): (r: Vec)
    requires |x| % 2 == 0
    ensures |r| == |x| / 2
  {
    x[..|x| / 2]
  }

  function Hi(x: Vec): (r: Vec)
    requires |x| % 2 == 0
    ensures |r| == |x| / 2
  {
    x[|x| / 2..]
  }

  function Join(a: Vec, b: Vec): (r: Vec)
    requires |a| == |b|
    ensures |r| == 2 * |a|
  {
    a + b
  }

  lemma {:induction false} JoinHalves(x: Vec)
    requires |x| % 2 == 0
    ensures Join(Lo(x), Hi(x)) == x
  {
  }

  lemma {:induction false} HalvesOfJoin(a: Vec, b: Vec)
    requires |a| == |b|
    ensures Lo(Join(a, b)) == a && Hi(Join(a, b)) == b
  {
  }

  lemma {:induction false} HalvesOfAdd(x: Vec, y: Vec)
    requires |x| == |y| && |x| % 2 == 0
    ensures Lo(Add(x, y)) == Add(Lo(x), Lo(y)) && Hi(Add(x, y)) == Add(Hi(x), Hi(y))
  {
  }

  lemma {:induction false} HalvesOfScale(c: real, x: Vec)
    requires |x| % 2 == 0
    ensures Lo(Scale(c, x)) == Scale(c, Lo(x)) && Hi(Scale(c, x)) == Scale(c, Hi(x))
  {
    var y, h := Scale(c, x), |x| / 2;
    forall i | 0 <= i < h ensures Lo(y)[i] == Scale(c, Lo(x))[i] && Hi(y)[i] == Scale(c, Hi(x))[i] {
      assert Lo(x)[i] == x[i] && Hi(x)[i] == x[h + i];
    }
  }

  lemma {:induction false} AddJoin(a: Vec, b: Vec, c: Vec, d: Vec)
    requires |a| == |b| == |c| == |d|
    ensures Add(Join(a, b), Join(c, d)) == Join(Add(a, c), Add(b, d))
  {
  }

  lemma {:induction false} ScaleJoin(c: real, a: Vec, b: Vec)
    requires |a| == |b|
    ensures Scale(c, Join(a, b)) == Join(Scale(c, a), Scale(c, b))
  {
    var x, y := Scale(c, Join(a, b)), Join(Scale(c, a), Scale(c, b));
    forall i | 0 <= i < |x| ensures x[i] == y[i] {
      assert Join(a, b)[i] == if i < |a| then a[i] else b[i - |a|];
    }
  }

  // ---- Three parts ----

  function Slice(x: Vec, i: nat, j: nat): (r: Vec)
    requires i <= j <= |x|
    ensures |r| == j - i
  {
    x[i..j]
  }

  function Three(a: Vec, b: Vec, c: Vec): (r: Vec)
    ensures |r| == |a| + |b| + |c|
  {
    a + b + c
  }

  lemma {:induction false} InThree(x: Vec, i: nat, j: nat)
    requires i <= j <= |x|
    ensures Three(Slice(x, 0, i), Slice(x, i, j), Slice(x, j, |x|)) == x
  {
  }

  // ---- Algebra ----

  lemma {:induction false} Interchange(a: Vec, b: Vec, c: Vec, d: Vec)
    requires |a| == |b| == |c| == |d|
    ensures Add(Add(a, b), Add(c, d)) == Add(Add(a, c), Add(b, d))
    ensures Sub(Add(a, b), Add(c, d)) == Add(Sub(a, c), Sub(b, d))
  {
  }

  lemma {:induction false} ScaleDistributes(c: real, x: Vec, y: Vec)
    requires |x| == |y|
    ensures Add(Scale(c, x), Scale(c, y)) == Scale(c, Add(x, y))
    ensures Sub(Scale(c, x), Scale(c, y)) == Scale(c, Sub(x, y))
  {
    forall i | 0 <= i < |x|
      ensures Add(Scale(c, x), Scale(c, y))[i] == Scale(c, Add(x, y))[i]
      ensures Sub(Scale(c, x), Scale(c, y))[i] == Scale(c, Sub(x, y))[i]
    {
      Distribute(c, x[i], y[i]);
    }
  }

  lemma {:induction false} SubByScale(x: Vec, y: Vec)
    requires |x| == |y|
    ensures Sub(x, y) == Add(x, Scale(-1.0, y))
  {
  }

  lemma {:induction false} SumAndDifference(x: Vec, y: Vec)
    requires |x| == |y|
    ensures Add(Add(x, y), Sub(x, y)) == Scale(2.0, x)
    ensures Sub(Add(x, y), Sub(x, y)) == Scale(2.0, y)
  {
  }

  lemma {:induction false} ScaleTwice(a: real, b: real, x: Vec)
    ensures Scale(a, Scale(b, x)) == Scale(a * b, x)
  {
    forall i | 0 <= i < |x| ensures Scale(a, Scale(b, x))[i] == Scale(a * b, x)[i] {
      Associate(a, b, x[i]);
    }
  }

  lemma {:induction false} ScaleBy(a: real, b: real, c: real, x: Vec)
    requires a * b == c
    ensures Scale(a, Scale(b, x)) == Scale(c, x)
  {
    ScaleTwice(a, b, x);
  }

  lemma {:induction false} ScaleAway(a: real, b: real, x: Vec)
    requires a * b == 1.0
    ensures Scale(a, Scale(b, x)) == x
  {
    ScaleTwice(a, b, x);
    ScaleByOne(x);
  }

  lemma {:induction false} ScaleByOne(x: Vec)
    ensures Scale(1.0, x) == x
  {
  }

  lemma {:induction false} Distribute(a: real, b: real, c: real)
    ensures a * b + a * c == a * (b + c) && a * b - a * c == a * (b - c)
  {
  }

  lemma {:induction false} Associate(a: real, b: real, c: real)
    ensures a * (b * c) == (a * b) * c
  {
  }

  function Dot(x: Vec, y: Vec): real
    requires |x| == |y|
  {
    if x == [] then 0.0 else
      var n := |x| - 1;
      Dot(x[..n], y[..n]) + x[n] * y[n]
  }

  function Sum(x: Vec): real {
    if x == [] then 0.0 else Sum(x[..|x| - 1]) + x[|x| - 1]
  }

  /** Squared Euclidean distance. */
  function Distance(x: Vec, y: Vec): real
    requires |x| == |y|
  {
    Dot(Sub(x, y), Sub(x, y))
  }

  lemma {:induction false} DotConcat(x: Vec, y: Vec, u: Vec, v: Vec)
    requires |x| == |y| && |u| == |v|
    ensures Dot(x + u, y + v) == Dot(x, y) + Dot(u, v)
  {
    if u == [] {
      assert x + u == x && y + v == y;
    } else {
      var n := |u| - 1;
      DotConcat(x, y, u[..n], v[..n]);
      assert (x + u)[..|x| + n] == x + u[..n] && (y + v)[..|y| + n] == y + v[..n];
    }
  }

  lemma {:induction false} DotJoin(a: Vec, b: Vec, c: Vec, d: Vec)
    requires |a| == |b| == |c| == |d|
    ensures Dot(Join(a, b), Join(c, d)) == Dot(a, c) + Dot(b, d)
  {
    DotConcat(a, c, b, d);
  }

  lemma {:induction false} DotHalves(x: Vec, y: Vec)
    requires |x| == |y| && |x| % 2 == 0
    ensures Dot(x, y) == Dot(Lo(x), Lo(y)) + Dot(Hi(x), Hi(y))
  {
    JoinHalves(x);
    JoinHalves(y);
    DotJoin(Lo(x), Hi(x), Lo(y), Hi(y));
  }

  lemma {:induction false} DotThree(a: Vec, b: Vec, c: Vec, u: Vec, v: Vec, w: Vec)
    requires |a| == |u| && |b| == |v| && |c| == |w|
    ensures Dot(Three(a, b, c), Three(u, v, w)) == Dot(a, u) + Dot(b, v) + Dot(c, w)
  {
    DotConcat(a + b, u + v, c, w);
    DotConcat(a, u, b, v);
  }

  lemma {:induction false} ScalePrefix(c: real, x: Vec)
    requires x != []
    ensures Scale(c, x)[..|x| - 1] == Scale(c, x[..|x| - 1])
    ensures Scale(c, x)[|x| - 1] == c * x[|x| - 1]
  {
    var n := |x| - 1;
    forall i | 0 <= i < n ensures Scale(c, x)[..n][i] == Scale(c, x[..n])[i] {
      assert x[..n][i] == x[i];
    }
  }

  lemma {:induction false} DotScale(a: real, x: Vec, b: real, y: Vec)
    requires |x| == |y|
    ensures Dot(Scale(a, x), Scale(b, y)) == a * b * Dot(x, y)
  {
    hide *;
    if x == [] {
      DotNone(x, y);
      DotNone(Scale(a, x), Scale(b, y));
    } else {
      var n, u, v := |x| - 1, Scale(a, x), Scale(b, y);
      DotLast(x, y);
      DotLast(u, v);
      ScalePrefix(a, x);
      ScalePrefix(b, y);
      DotScale(a, x[..n], b, y[..n]);
      ScaledTerm(a, x[n], u[n], b, y[n], v[n], Dot(x[..n], y[..n]), Dot(u[..n], v[..n]));
    }
  }

  lemma {:induction false} DotNone(x: Vec, y: Vec)
    requires |x| == |y| == 0
    ensures Dot(x, y) == 0.0
  {
  }

  lemma {:induction false} DotLast(x: Vec, y: Vec)
    requires |x| == |y| > 0
    ensures Dot(x, y) == Dot(x[..|x| - 1], y[..|x| - 1]) + x[|x| - 1] * y[|x| - 1]
  {
  }

  lemma {:induction false} ScaledTerm(a: real, x: real, u: real, b: real, y: real, v: real, plain: real, scaled: real)
    requires u == a * x && v == b * y && scaled == a * b * plain
    ensures scaled + u * v == a * b * (plain + x * y)
  {
    assert u * v == a * b * (x * y);
  }

  lemma {:induction false} DistanceByDots(x: Vec, y: Vec)
    requires |x| == |y|
    ensures Distance(x, y) == Dot(x, x) - 2.0 * Dot(x, y) + Dot(y, y)
  {
    if x == [] {
    } else {
      var n := |x| - 1;
      DistanceByDots(x[..n], y[..n]);
      assert Sub(x, y)[..n] == Sub(x[..n], y[..n]);
      SquareOfDifference(x[n], y[n]);
    }
  }

  lemma {:induction false} SquareOfDifference(a: real, b: real)
    ensures (a - b) * (a - b) == a * a - 2.0 * (a * b) + b * b
  {
  }

  /** The parallelogram law for scalar products. */
  lemma {:induction false} Parallelogram(a: Vec, b: Vec, c: Vec, d: Vec)
    requires |a| == |b| == |c| == |d|
    ensures Dot(Add(a, b), Add(c, d)) + Dot(Sub(a, b), Sub(c, d)) == 2.0 * Dot(a, c) + 2.0 * Dot(b, d)
  {
    if a == [] {
    } else {
      var n := |a| - 1;
      Parallelogram(a[..n], b[..n], c[..n], d[..n]);
      assert Add(a, b)[..n] == Add(a[..n], b[..n]) && Add(c, d)[..n] == Add(c[..n], d[..n]);
      assert Sub(a, b)[..n] == Sub(a[..n], b[..n]) && Sub(c, d)[..n] == Sub(c[..n], d[..n]);
      ParallelogramTerm(a[n], b[n], c[n], d[n]);
    }
  }

  lemma {:induction false} ParallelogramTerm(a: real, b: real, c: real, d: real)
    ensures (a + b) * (c + d) + (a - b) * (c - d) == 2.0 * (a * c) + 2.0 * (b * d)
  {
  }

  function Pow2(p: nat): (n: nat)
    ensures n >= 1
  {
    if p == 0 then 1 else 2 * Pow2(p - 1)
  }

  lemma {:induction false} Pow2Sum(p: nat, q: nat)
    ensures Pow2(p + q) == Pow2(p) * Pow2(q)
  {
    if q == 0 {
    } else {
      Pow2Sum(p, q - 1);
    }
  }

  lemma {:induction false} Pow2Grows(p: nat, q: nat)
    requires p < q
    ensures Pow2(p) < Pow2(q)
  {
    if p < q - 1 { Pow2Grows(p, q - 1); }
  }
}
