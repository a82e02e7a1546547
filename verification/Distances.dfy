/**
 * What a quantized code means, and the distances computed from two codes: the squared distance, the negated scalar
 * product and the negated cosine of the dequantized vectors.
 */
module Distances {
  import opened Vectors
  import opened Codes
  import Rotate

  /** Squared norm of the vector, norm of the centred code, sum of the code. */
  datatype Metadata = Metadata(norm2: real, lattice: real, sum: real)

  /** Half of the largest `bits`-bit number: the centre of the lattice. */
  function Centre(bits: nat): real {
    (Pow2(bits) - 1) as real * 0.5
  }

  /** The code around its centre. */
  function Centred(x: Code, c: real): (r: Vec)
    ensures |r| == |x|
  {
    seq(|x|, k requires 0 <= k < |x| => x[k] as real - c)
  }

  ghost predicate Describes(m: Metadata, x: Code, bits: nat) {
    var v := Centred(x, Centre(bits));
    m.sum == SumCode(x) as real && m.lattice >= 0.0 && m.lattice * m.lattice == Dot(v, v)
  }

  /** The loops that derive the metadata; the square root is left to the caller. */
  method Describe(x: Code, bits: nat) returns (squares: real, sum: nat)
    ensures squares == Dot(Centred(x, Centre(bits)), Centred(x, Centre(bits)))
    ensures sum == SumCode(x)
  {
    var c := Centre(bits);
    hide Centre;
    squares, sum := 0.0, 0;
    assert Centred(x[..0], c) == [] && x[..0] == [];
    for k := 0 to |x|
      invariant squares == Dot(Centred(x[..k], c), Centred(x[..k], c))
      invariant sum == SumCode(x[..k])
    {
      var v := x[k] as real - c;
      CentredNext(x[..k], x[..k], x[k], x[k], c, c);
      assert x[..k + 1] == x[..k] + [x[k]];
      SumNext(x[..k], x[k]);
      squares, sum := squares + v * v, sum + x[k];
    }
    assert x[..|x|] == x;
  }

  lemma {:induction false} SumNext(x: Code, a: nat)
    ensures SumCode(x + [a]) == SumCode(x) + a
  {
    assert (x + [a])[..|x|] == x;
  }

  lemma {:induction false} CentredNext(x: Code, y: Code, a: nat, b: nat, c: real, d: real)
    requires |x| == |y|
    ensures Dot(Centred(x + [a], c), Centred(y + [b], d)) ==
            Dot(Centred(x, c), Centred(y, d)) + (a as real - c) * (b as real - d)
  {
    var u, v := Centred(x + [a], c), Centred(y + [b], d);
    assert u[..|x|] == Centred(x, c) && v[..|y|] == Centred(y, d);
    assert u[|x|] == a as real - c && v[|y|] == b as real - d;
  }

  /** The scalar product of the centred codes from the raw sums. */
  function Inner(sum: real, left: real, right: real, dim: real, c: real, d: real): real {
    sum - (d * left + c * right) + dim * c * d
  }

  lemma {:induction false} InnerIsDot(x: Code, y: Code, c: real, d: real)
    requires |x| == |y|
    ensures Dot(Centred(x, c), Centred(y, d)) ==
            Inner(DotCodes(x, y) as real, SumCode(x) as real, SumCode(y) as real, |x| as real, c, d)
    decreases |x|
  {
    hide *;
    if x == [] {
      InnerNone(x, y, c, d);
    } else {
      var n := |x| - 1;
      InnerIsDot(x[..n], y[..n], c, d);
      assert x == x[..n] + [x[n]] && y == y[..n] + [y[n]];
      InnerStep(x[..n], y[..n], x[n], y[n], c, d);
    }
  }

  lemma {:induction false} InnerStep(u: Code, v: Code, a: nat, b: nat, c: real, d: real)
    requires |u| == |v|
    requires Dot(Centred(u, c), Centred(v, d)) ==
             Inner(DotCodes(u, v) as real, SumCode(u) as real, SumCode(v) as real, |u| as real, c, d)
    ensures Dot(Centred(u + [a], c), Centred(v + [b], d)) ==
            Inner(DotCodes(u + [a], v + [b]) as real, SumCode(u + [a]) as real, SumCode(v + [b]) as real,
                  |u + [a]| as real, c, d)
  {
    hide *;
    CentredNext(u, v, a, b, c, d);
    Codes.DotLast(u, v, a, b);
    SumNext(u, a);
    SumNext(v, b);
    RealProduct(a, b);
    InnerNext(DotCodes(u, v) as real, SumCode(u) as real, SumCode(v) as real, |u| as real, a as real, b as real, c, d,
              DotCodes(u + [a], v + [b]) as real, SumCode(u + [a]) as real, SumCode(v + [b]) as real, |u
                + [a]| as real);
  }

  lemma {:induction false} InnerNone(x: Code, y: Code, c: real, d: real)
    requires |x| == |y| == 0
    ensures Dot(Centred(x, c), Centred(y, d)) ==
            Inner(DotCodes(x, y) as real, SumCode(x) as real, SumCode(y) as real, |x| as real, c, d)
  {
  }

  lemma {:induction false} RealProduct(a: nat, b: nat)
    ensures (a * b) as real == a as real * b as real
  {
  }

  lemma {:induction false} InnerNext(p: real, s: real, t: real, n: real, a: real, b: real, c: real, d: real,
                                     p': real, s': real, t': real, n': real)
    requires p' == p + a * b && s' == s + a && t' == t + b && n' == n + 1.0
    ensures Inner(p, s, t, n, c, d) + (a - c) * (b - d) == Inner(p', s', t', n', c, d)
  {
    assert (a - c) * (b - d) == a * b - c * b - a * d + c * d;
    assert d * s' == d * s + d * a && c * t' == c * t + c * b;
    assert n' * c * d == n * c * d + c * d;
  }

  // ---- The lattice never vanishes ----

  lemma {:induction false} FarFromCentre(v: nat, bits: nat)
    requires bits > 0
    ensures (v as real - Centre(bits)) * (v as real - Centre(bits)) >= 0.25
  {
    var w := 2 * v - (Pow2(bits) - 1);
    assert Pow2(bits) == 2 * Pow2(bits - 1);
    assert w != 0;
    var e := v as real - Centre(bits);
    assert e == w as real * 0.5;
    assert e >= 0.5 || e <= -0.5;
    hide *;
    SquareBound(e);
  }

  lemma {:induction false} SquareBound(e: real)
    requires e >= 0.5 || e <= -0.5
    ensures e * e >= 0.25
  {
    if e >= 0.5 { assert e * e >= 0.5 * e; } else { assert (-e) * (-e) >= 0.5 * (-e); }
  }

  lemma {:induction false} LatticeBound(x: Code, bits: nat)
    requires bits > 0
    ensures Dot(Centred(x, Centre(bits)), Centred(x, Centre(bits))) >= 0.25 * |x| as real
    decreases |x|
  {
    if x == [] {
    } else {
      var n := |x| - 1;
      assert x == x[..n] + [x[n]];
      hide *;
      LatticeBound(x[..n], bits);
      CentredNext(x[..n], x[..n], x[n], x[n], Centre(bits), Centre(bits));
      FarFromCentre(x[n], bits);
    }
  }

  lemma {:induction false} LatticePositive(m: Metadata, x: Code, bits: nat)
    requires Describes(m, x, bits) && x != [] && bits > 0
    ensures m.lattice > 0.0
  {
    LatticeBound(x, bits);
    var d := Dot(Centred(x, Centre(bits)), Centred(x, Centre(bits)));
    hide *;
    RootPositive(m.lattice, d);
  }

  lemma {:induction false} RootPositive(r: real, d: real)
    requires r >= 0.0 && r * r == d && d > 0.0
    ensures r > 0.0
  {
    assert r == 0.0 ==> r * r == 0.0;
  }

  // ---- Meaning ----

  /** `root` is the norm of the vector. */
  ghost predicate NormOf(m: Metadata, root: real) {
    root >= 0.0 && root * root == m.norm2
  }

  /** The vector a code stands for, before the inverse rotation. */
  function Dequantized(x: Code, bits: nat, m: Metadata, root: real): (r: Vec)
    requires m.lattice != 0.0
    ensures |r| == |x|
  {
    Scale(root / m.lattice, Centred(x, Centre(bits)))
  }

  method DequantizeToVector(x: Code, m: Metadata, root: real, t: Rotate.Tables, c: real, s: real)
      returns (r: array<real>)
    requires m.lattice != 0.0 && 0 < |x| <= 65536
    requires |t.first| == |t.second| == |t.third| == |t.fourth| == 1024
    ensures fresh(r) && r[..] == Rotate.Unrotated(Dequantized(x, 8, m, root), t, c, s)
  {
    var scale := root / m.lattice;
    var out: Vec := [];
    var base := Centre(8);
    hide Rotate.Unrotated, Centre;
    for k := 0 to |x|
      invariant |out| == k && forall i :: 0 <= i < k ==> out[i] == scale * (x[i] as real - base)
    {
      out := out + [scale * (-base + x[k] as real)];
    }
    DequantizedIs(out, x, 8, m, root);
    r := new real[|x|](i requires 0 <= i < |x| => out[i]);
    assert r[..] == out;
    Rotate.RotateReversedInPlace(r, t, c, s);
  }

  lemma {:induction false} DequantizedIs(out: Vec, x: Code, bits: nat, m: Metadata, root: real)
    requires m.lattice != 0.0 && |out| == |x|
    requires forall i :: 0 <= i < |x| ==> out[i] == root / m.lattice * (x[i] as real - Centre(bits))
    ensures out == Dequantized(x, bits, m, root)
  {
    var v, scale := Centred(x, Centre(bits)), root / m.lattice;
    forall i | 0 <= i < |x| ensures out[i] == Scale(scale, v)[i] {
      assert v[i] == x[i] as real - Centre(bits);
    }
  }

  // ---- Distances from codes ----

  function Scaled(a: real, b: real, ip: real): real { a * b * ip }

  function FromInner2(n: real, m: real, ip: real, a: real, b: real): real { n + m - 2.0 * ip * a * b }

  function FromInner(ip: real, a: real, b: real): real { -ip * a * b }

  function CosineOf(ip: real, l: real, m: real): real
    requires l != 0.0 && m != 0.0
  {
    -ip / l / m
  }

  function HalfProcessL2s(dim: nat, sum: nat, left: Metadata, right: Metadata, p: real, q: real, x: nat, y: nat): real
    requires left.lattice != 0.0 && right.lattice != 0.0
  {
    var ip := Inner(sum as real, left.sum, right.sum, dim as real, Centre(x), Centre(y));
    FromInner2(left.norm2, right.norm2, ip, p / left.lattice, q / right.lattice)
  }

  function HalfProcessDot(dim: nat, sum: nat, left: Metadata, right: Metadata, p: real, q: real, x: nat, y: nat): real
    requires left.lattice != 0.0 && right.lattice != 0.0
  {
    var ip := Inner(sum as real, left.sum, right.sum, dim as real, Centre(x), Centre(y));
    FromInner(ip, p / left.lattice, q / right.lattice)
  }

  function HalfProcessCos(dim: nat, sum: nat, left: Metadata, right: Metadata, x: nat, y: nat): real
    requires left.lattice != 0.0 && right.lattice != 0.0
  {
    var ip := Inner(sum as real, left.sum, right.sum, dim as real, Centre(x), Centre(y));
    CosineOf(ip, left.lattice, right.lattice)
  }

  /** Two codes with their metadata and norms. */
  datatype Pair = Pair(x: Code, xBits: nat, left: Metadata, p: real, y: Code, yBits: nat, right: Metadata, q: real) {
    ghost predicate Valid() {
      && 0 < |x| == |y| <= 65535
      && 1 <= xBits <= 8 && 1 <= yBits <= 8 && Within(x, xBits) && Within(y, yBits)
      && Describes(left, x, xBits) && Describes(right, y, yBits) && NormOf(left, p) && NormOf(right, q)
    }
  }

  lemma {:induction false} DequantizedDot(x: Code, xBits: nat, left: Metadata, p: real, y: Code, yBits: nat,
                                          right: Metadata, q: real)
    requires |x| == |y| && left.lattice != 0.0 && right.lattice != 0.0
    ensures Dot(Dequantized(x, xBits, left, p), Dequantized(y, yBits, right, q)) ==
            Scaled(p / left.lattice, q / right.lattice, Dot(Centred(x, Centre(xBits)), Centred(y, Centre(yBits))))
  {
    hide Dot, Scale, Centred, Centre;
    DotScale(p / left.lattice, Centred(x, Centre(xBits)), q / right.lattice, Centred(y, Centre(yBits)));
  }

  // A dequantized vector keeps the norm of the original.
  lemma {:induction false} DequantizedNorm(x: Code, bits: nat, m: Metadata, root: real)
    requires Describes(m, x, bits) && NormOf(m, root) && m.lattice > 0.0
    ensures Dot(Dequantized(x, bits, m, root), Dequantized(x, bits, m, root)) == m.norm2
  {
    var v := Centred(x, Centre(bits));
    DequantizedDot(x, bits, m, root, x, bits, m, root);
    var d := Dot(v, v);
    assert m.lattice * m.lattice == d && root * root == m.norm2;
    hide *;
    Cancel(root, m.lattice, d);
  }

  lemma {:induction false} Cancel(root: real, lattice: real, d: real)
    requires lattice > 0.0 && lattice * lattice == d
    ensures Scaled(root / lattice, root / lattice, d) == root * root
  {
    var k := root / lattice;
    assert k * lattice == root;
    assert k * k * (lattice * lattice) == (k * lattice) * (k * lattice);
  }

  lemma {:induction false} InnerOf(v: Pair)
    requires v.Valid()
    ensures Inner(DotCodes(v.x, v.y) as real, v.left.sum, v.right.sum, |v.x| as real, Centre(v.xBits),
                  Centre(v.yBits)) ==
            Dot(Centred(v.x, Centre(v.xBits)), Centred(v.y, Centre(v.yBits)))
  {
    hide Inner, Dot, DotCodes, SumCode, Within, NormOf, Centre, Centred;
    InnerIsDot(v.x, v.y, Centre(v.xBits), Centre(v.yBits));
  }

  lemma {:induction false} PairFacts(v: Pair)
    requires v.Valid()
    ensures v.left.lattice > 0.0 && v.right.lattice > 0.0
    ensures var u, w := Dequantized(v.x, v.xBits, v.left, v.p), Dequantized(v.y, v.yBits, v.right, v.q);
            var ip := Inner(DotCodes(v.x, v.y) as real, v.left.sum, v.right.sum, |v.x| as real, Centre(v.xBits),
                            Centre(v.yBits));
            && Dot(u, w) == Scaled(v.p / v.left.lattice, v.q / v.right.lattice, ip)
            && Distance(u, w) == v.left.norm2 + v.right.norm2 - 2.0 * Dot(u, w)
  {
    hide Scaled, Dot, Centre, Centred, Dequantized, Inner, Describes, NormOf, Within, Distance;
    LatticePositive(v.left, v.x, v.xBits);
    LatticePositive(v.right, v.y, v.yBits);
    InnerOf(v);
    DequantizedNorm(v.x, v.xBits, v.left, v.p);
    DequantizedNorm(v.y, v.yBits, v.right, v.q);
    var u, w := Dequantized(v.x, v.xBits, v.left, v.p), Dequantized(v.y, v.yBits, v.right, v.q);
    DequantizedDot(v.x, v.xBits, v.left, v.p, v.y, v.yBits, v.right, v.q);
    DistanceByDots(u, w);
  }

  /**
   * Distances on codes are the distances of the dequantized vectors: the squared distance and the negated scalar
   * product.
   */
  lemma {:induction false} CodeDistances(v: Pair)
    requires v.Valid()
    ensures v.left.lattice > 0.0 && v.right.lattice > 0.0
    ensures var u, w := Dequantized(v.x, v.xBits, v.left, v.p), Dequantized(v.y, v.yBits, v.right, v.q);
            var sum := DotCodes(v.x, v.y);
            && HalfProcessL2s(|v.x|, sum, v.left, v.right, v.p, v.q, v.xBits, v.yBits) == Distance(u, w)
            && HalfProcessDot(|v.x|, sum, v.left, v.right, v.p, v.q, v.xBits, v.yBits) == -Dot(u, w)
  {
    assert |v.x| == |v.y|;
    hide Pair.Valid, Dequantized, Inner, Centre, DotCodes, Dot, Distance, FromInner, FromInner2, CosineOf, Scaled,
      Scale;
    PairFacts(v);
    var ip := Inner(DotCodes(v.x, v.y) as real, v.left.sum, v.right.sum, |v.x| as real, Centre(v.xBits),
                    Centre(v.yBits));
    Halves(v.left.norm2, v.right.norm2, ip, v.p / v.left.lattice, v.q / v.right.lattice);
  }

  /** The cosine form is the negated scalar product of the two dequantized directions, which are unit vectors. */
  lemma {:induction false} CodeCosine(v: Pair)
    requires v.Valid()
    ensures v.left.lattice > 0.0 && v.right.lattice > 0.0
    ensures var u, w := Dequantized(v.x, v.xBits, v.left, 1.0), Dequantized(v.y, v.yBits, v.right, 1.0);
            && Dot(u, u) == 1.0 && Dot(w, w) == 1.0
            && HalfProcessCos(|v.x|, DotCodes(v.x, v.y), v.left, v.right, v.xBits, v.yBits) == -Dot(u, w)
            && Dequantized(v.x, v.xBits, v.left, v.p) == Scale(v.p, u)
            && Dequantized(v.y, v.yBits, v.right, v.q) == Scale(v.q, w)
  {
    var unit := Pair(v.x, v.xBits, v.left.(norm2 := 1.0), 1.0, v.y, v.yBits, v.right.(norm2 := 1.0), 1.0);
    assert |v.x| == |v.y| && unit.Valid();
    Direction(v.x, v.xBits, v.left, v.p);
    Direction(v.y, v.yBits, v.right, v.q);
    hide Pair.Valid, Dequantized, Inner, Centre, DotCodes, Dot, Distance, FromInner, FromInner2, CosineOf, Scaled,
      Scale;
    PairFacts(unit);
    Units(unit);
    var ip := Inner(DotCodes(v.x, v.y) as real, v.left.sum, v.right.sum, |v.x| as real, Centre(v.xBits),
                    Centre(v.yBits));
    CosineTerm(ip, v.left.lattice, v.right.lattice);
  }

  lemma {:induction false} Direction(x: Code, bits: nat, m: Metadata, root: real)
    ensures m.lattice != 0.0 ==>
              && Dequantized(x, bits, m, root) == Scale(root, Dequantized(x, bits, m, 1.0))
              && Dequantized(x, bits, m.(norm2 := 1.0), 1.0) == Dequantized(x, bits, m, 1.0)
  {
    if m.lattice != 0.0 {
      var v := Centred(x, Centre(bits));
      hide Scale, Centred, Centre;
      ScaleBy(root, 1.0 / m.lattice, root / m.lattice, v);
    }
  }

  lemma {:induction false} Units(v: Pair)
    requires v.Valid() && v.left.norm2 == v.right.norm2 == 1.0
    ensures v.left.lattice > 0.0 && v.right.lattice > 0.0
    ensures var u, w := Dequantized(v.x, v.xBits, v.left, v.p), Dequantized(v.y, v.yBits, v.right, v.q);
            Dot(u, u) == 1.0 && Dot(w, w) == 1.0
  {
    hide Describes, NormOf, Dequantized, Dot, Within;
    LatticePositive(v.left, v.x, v.xBits);
    LatticePositive(v.right, v.y, v.yBits);
    DequantizedNorm(v.x, v.xBits, v.left, v.p);
    DequantizedNorm(v.y, v.yBits, v.right, v.q);
  }

  lemma {:induction false} Halves(n: real, m: real, ip: real, a: real, b: real)
    ensures FromInner2(n, m, ip, a, b) == n + m - 2.0 * Scaled(a, b, ip)
    ensures FromInner(ip, a, b) == -Scaled(a, b, ip)
  {
  }

  lemma {:induction false} CosineTerm(ip: real, l: real, m: real)
    requires l > 0.0 && m > 0.0
    ensures CosineOf(ip, l, m) == -Scaled(1.0 / l, 1.0 / m, ip)
  {
    var a, b := 1.0 / l, 1.0 / m;
    assert -ip / l == -ip * a;
    assert -ip / l / m == -ip * a * b;
  }

  /** The same after the inverse rotation, on what the bit-sliced product returns. */
  lemma {:induction false} SlicedDistances(v: Pair, t: Rotate.Tables, c: real, s: real)
    requires v.Valid() && t.Cover(|v.x|) && Rotate.Roots(|v.x|, c, s)
    ensures v.left.lattice > 0.0 && v.right.lattice > 0.0
    ensures var u := Rotate.Unrotated(Dequantized(v.x, v.xBits, v.left, v.p), t, c, s);
            var w := Rotate.Unrotated(Dequantized(v.y, v.yBits, v.right, v.q), t, c, s);
            var sum := Wrap(Sliced(PackCode(v.x, v.xBits), PackCode(v.y, v.yBits)));
            && HalfProcessL2s(|v.x|, sum, v.left, v.right, v.p, v.q, v.xBits, v.yBits) == Distance(u, w)
            && HalfProcessDot(|v.x|, sum, v.left, v.right, v.p, v.q, v.xBits, v.yBits) == -Dot(u, w)
  {
    assert 0 < |v.x| == |v.y| <= 65535 && v.xBits <= 8 && v.yBits <= 8 && Within(v.x, v.xBits) && Within(v.y, v.yBits);
    hide *;
    SlicedExact(v.x, v.y, v.xBits, v.yBits);
    CodeDistances(v);
    Rotate.Isometry(Dequantized(v.x, v.xBits, v.left, v.p), Dequantized(v.y, v.yBits, v.right, v.q), t, c, s);
  }

  /** And on what the byte product returns. */
  lemma {:induction false} ByteDistances(v: Pair, t: Rotate.Tables, c: real, s: real)
    requires v.Valid() && t.Cover(|v.x|) && Rotate.Roots(|v.x|, c, s)
    ensures v.left.lattice > 0.0 && v.right.lattice > 0.0
    ensures var u := Rotate.Unrotated(Dequantized(v.x, v.xBits, v.left, v.p), t, c, s);
            var w := Rotate.Unrotated(Dequantized(v.y, v.yBits, v.right, v.q), t, c, s);
            var sum := Wrap(DotCodes(v.x, v.y));
            && HalfProcessL2s(|v.x|, sum, v.left, v.right, v.p, v.q, v.xBits, v.yBits) == Distance(u, w)
            && HalfProcessDot(|v.x|, sum, v.left, v.right, v.p, v.q, v.xBits, v.yBits) == -Dot(u, w)
  {
    assert |v.x| == |v.y| <= 65535 && v.xBits <= 8 && v.yBits <= 8 && Within(v.x, v.xBits) && Within(v.y, v.yBits);
    hide *;
    SlicedExact(v.x, v.y, v.xBits, v.yBits);
    WrapSmall(DotCodes(v.x, v.y));
    SlicedDistances(v, t, c, s);
  }

  /** Distances as they are computed: the bit-sliced product of the stored planes, then the half-processing. */
  method MeasureSliced(v: Pair, ghost t: Rotate.Tables, ghost c: real, ghost s: real) returns (l2: real, dot: real)
    requires v.Valid() && t.Cover(|v.x|) && Rotate.Roots(|v.x|, c, s)
    ensures v.left.lattice > 0.0 && v.right.lattice > 0.0
    ensures var u := Rotate.Unrotated(Dequantized(v.x, v.xBits, v.left, v.p), t, c, s);
            var w := Rotate.Unrotated(Dequantized(v.y, v.yBits, v.right, v.q), t, c, s);
            l2 == Distance(u, w) && dot == -Dot(u, w)
  {
    assert 0 < |v.x| == |v.y| <= 65535 && 1 <= v.xBits <= 8 && 1 <= v.yBits <= 8;
    assert Within(v.x, v.xBits) && Within(v.y, v.yBits);
    hide *;
    SlicedExact(v.x, v.y, v.xBits, v.yBits);
    SlicedDistances(v, t, c, s);
    var sum, overflow := CodeProduct(v.x, v.y, v.xBits, v.yBits);
    l2 := HalfProcessL2s(|v.x|, sum, v.left, v.right, v.p, v.q, v.xBits, v.yBits);
    dot := HalfProcessDot(|v.x|, sum, v.left, v.right, v.p, v.q, v.xBits, v.yBits);
  }

  /** The same from the byte product, plain or sign-biased. */
  method MeasureBytes(v: Pair, biased: bool, ghost t: Rotate.Tables, ghost c: real, ghost s: real)
      returns (l2: real, dot: real)
    requires v.Valid() && t.Cover(|v.x|) && Rotate.Roots(|v.x|, c, s)
    ensures v.left.lattice > 0.0 && v.right.lattice > 0.0
    ensures var u := Rotate.Unrotated(Dequantized(v.x, v.xBits, v.left, v.p), t, c, s);
            var w := Rotate.Unrotated(Dequantized(v.y, v.yBits, v.right, v.q), t, c, s);
            l2 == Distance(u, w) && dot == -Dot(u, w)
  {
    assert |v.x| == |v.y| && v.yBits <= 8 && Within(v.y, v.yBits);
    BytesWithin(v.y, v.yBits);
    hide *;
    ByteDistances(v, t, c, s);
    var sum, overflow := 0, false;
    if biased {
      sum := ReduceSumOfXYBiased(v.x, v.y);
    } else {
      sum, overflow := ReduceSumOfXY(v.x, v.y);
    }
    l2 := HalfProcessL2s(|v.x|, sum, v.left, v.right, v.p, v.q, v.xBits, v.yBits);
    dot := HalfProcessDot(|v.x|, sum, v.left, v.right, v.p, v.q, v.xBits, v.yBits);
  }

  lemma {:induction false} BytesWithin(y: Code, bits: nat)
    requires Within(y, bits) && bits <= 8
    ensures forall k :: 0 <= k < |y| ==> y[k] < 256
  {
    WithinWider(y, bits);
    assert Pow2(8) == 256 by {
      Pow2Sum(4, 4);
      assert Pow2(4) == 16;
    }
  }
}
