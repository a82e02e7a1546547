/**
 * Quantized codes: bit planes, and the bit-sliced and the byte scalar product in 32-bit arithmetic.
 */
module Codes {
  import opened Vectors
  import opened Numbers

  type Code = seq<nat>

  /** Every entry has at most `bits` bits. */
  predicate Within(x: Code, bits: nat) {
    forall k :: 0 <= k < |x| ==> x[k] < Pow2(bits)
  }

  function DotCodes(x: Code, y: Code): nat
    requires |x| == |y|
  {
    if x == [] then 0 else
      var n := |x| - 1;
      DotCodes(x[..n], y[..n]) + x[n] * y[n]
  }

  function SumCode(x: Code): nat {
    if x == [] then 0 else SumCode(x[..|x| - 1]) + x[|x| - 1]
  }

  lemma {:induction false} DotLast(x: Code, y: Code, a: nat, b: nat)
    requires |x| == |y|
    ensures DotCodes(x + [a], y + [b]) == DotCodes(x, y) + a * b
  {
    assert (x + [a])[..|x|] == x && (y + [b])[..|y|] == y;
  }

  lemma {:induction false} DotConcat(x: Code, y: Code, u: Code, v: Code)
    requires |x| == |y| && |u| == |v|
    ensures DotCodes(x + u, y + v) == DotCodes(x, y) + DotCodes(u, v)
  {
    if u == [] {
      assert x + u == x && y + v == y;
    } else {
      var n := |u| - 1;
      DotConcat(x, y, u[..n], v[..n]);
      assert x + u == (x + u[..n]) + [u[n]] && y + v == (y + v[..n]) + [v[n]];
      DotLast(x + u[..n], y + v[..n], u[n], v[n]);
    }
  }

  // ---- 32-bit arithmetic ----

  const LIMIT: nat := 0x1_0000_0000

  function Wrap(v: int): (r: nat)
    ensures r < LIMIT
  {
    v % LIMIT
  }

  lemma {:induction false} WrapOf(a: int, q: int)
    ensures Wrap(a + LIMIT * q) == Wrap(a)
  {
  }

  lemma {:induction false} WrapAdd(a: int, b: int)
    ensures Wrap(Wrap(a) + b) == Wrap(a + b)
    ensures Wrap(a + Wrap(b)) == Wrap(a + b)
  {
    WrapOf(Wrap(a) + b, a / LIMIT);
    WrapOf(a + Wrap(b), b / LIMIT);
    assert a == Wrap(a) + LIMIT * (a / LIMIT) && b == Wrap(b) + LIMIT * (b / LIMIT);
  }

  lemma {:induction false} WrapScale(a: int, k: int)
    ensures Wrap(Wrap(a) * k) == Wrap(a * k)
  {
    var q := a / LIMIT;
    assert a == Wrap(a) + LIMIT * q;
    assert a * k == Wrap(a) * k + LIMIT * (q * k);
    WrapOf(Wrap(a) * k, q * k);
  }

  lemma {:induction false} WrapSmall(a: nat)
    ensures a < LIMIT ==> Wrap(a) == a
  {
  }

  // ---- Words ----

  function Bit(v: nat, i: nat): (b: nat)
    ensures b <= 1
    decreases i
  {
    if i == 0 then v % 2 else Bit(v / 2, i - 1)
  }

  /** Bitwise or, lowest bit first. */
  function Or(a: nat, b: nat): nat
    decreases a + b
  {
    if a == 0 && b == 0 then 0 else (if a % 2 == 1 || b % 2 == 1 then 1 else 0) + 2 * Or(a / 2, b / 2)
  }

  /** Bitwise and. */
  function And(a: nat, b: nat): nat
    decreases a
  {
    if a == 0 then 0 else (a % 2) * (b % 2) + 2 * And(a / 2, b / 2)
  }

  function CountOnes(v: nat): nat {
    if v == 0 then 0 else v % 2 + CountOnes(v / 2)
  }

  predicate Bits(b: seq<nat>) {
    forall k :: 0 <= k < |b| ==> b[k] <= 1
  }

  /** The word whose bit k is b[k]. */
  function Word(b: seq<nat>): nat
  {
    if b == [] then 0 else b[0] + 2 * Word(b[1..])
  }

  lemma {:induction false} OrZero(a: nat)
    ensures Or(a, 0) == a
    decreases a
  {
    if a == 0 {
    } else {
      OrZero(a / 2);
    }
  }

  // Setting a bit above the ones already there.
  lemma {:induction false} SetNext(b: seq<nat>, v: nat)
    requires Bits(b) && v <= 1
    ensures Word(b + [v]) == Or(Word(b), v * Pow2(|b|))
    decreases |b|
  {
    if b == [] {
      assert (b + [v])[1..] == [];
      assert Word([v]) == v;
      OrZero(0);
    } else {
      assert (b + [v])[1..] == b[1..] + [v] && (b + [v])[0] == b[0];
      SetNext(b[1..], v);
      var w, k := Word(b[1..]), v * Pow2(|b| - 1);
      assert v * Pow2(|b|) == 2 * k;
      SetLow(b[0], w, k);
    }
  }

  lemma {:induction false} SetLow(bit: nat, w: nat, k: nat)
    requires bit <= 1
    ensures Or(bit + 2 * w, 2 * k) == bit + 2 * Or(w, k)
  {
    assert (bit + 2 * w) / 2 == w && (2 * k) / 2 == k && (bit + 2 * w) % 2 == bit && (2 * k) % 2 == 0;
    if bit + 2 * w == 0 && k == 0 { assert Or(w, k) == 0; }
  }

  lemma {:induction false} OrDisjoint(a: nat, b: nat, k: nat)
    requires a < Pow2(k)
    ensures Or(a, b * Pow2(k)) == a + b * Pow2(k)
    decreases k
  {
    hide *;
    OnePower(a, b, k);
    if k == 0 {
      OrNothing(b);
    } else {
      OrDisjoint(a / 2, b, k - 1);
      SetLow(a % 2, a / 2, b * Pow2(k - 1));
      assert a == a % 2 + 2 * (a / 2);
    }
  }

  lemma {:induction false} OnePower(a: nat, b: nat, k: nat)
    requires a < Pow2(k)
    ensures k == 0 ==> a == 0 && b * Pow2(k) == b
    ensures k > 0 ==> a / 2 < Pow2(k - 1) && b * Pow2(k) == 2 * (b * Pow2(k - 1))
  {
    if k > 0 { assert b * (2 * Pow2(k - 1)) == 2 * (b * Pow2(k - 1)); }
  }

  lemma {:induction false} OrNothing(b: nat)
    ensures Or(0, b) == b
    decreases b
  {
    if b == 0 {
    } else {
      OrNothing(b / 2);
    }
  }

  lemma {:induction false} OnesInCommon(a: seq<nat>, b: seq<nat>)
    requires |a| == |b| && Bits(a) && Bits(b)
    ensures CountOnes(And(Word(a), Word(b))) == DotCodes(a, b)
    decreases |a|
  {
    if a == [] {
    } else {
      OnesInCommon(a[1..], b[1..]);
      AndLow(a[0], Word(a[1..]), b[0], Word(b[1..]));
      assert a == [a[0]] + a[1..] && b == [b[0]] + b[1..];
      DotConcat([a[0]], [b[0]], a[1..], b[1..]);
      DotLast([], [], a[0], b[0]);
      assert [] + [a[0]] == [a[0]] && [] + [b[0]] == [b[0]];
    }
  }

  lemma {:induction false} AndLow(p: nat, v: nat, q: nat, w: nat)
    requires p <= 1 && q <= 1
    ensures CountOnes(And(p + 2 * v, q + 2 * w)) == p * q + CountOnes(And(v, w))
  {
    assert (p + 2 * v) / 2 == v && (p + 2 * v) % 2 == p && (q + 2 * w) / 2 == w && (q + 2 * w) % 2 == q;
    var low, high := p * q, And(v, w);
    assert 0 <= low <= 1;
    assert And(p + 2 * v, q + 2 * w) == low + 2 * high;
    assert (low + 2 * high) / 2 == high && (low + 2 * high) % 2 == low;
  }

  // ---- Bit planes ----

  /** Bit `i` of every entry. */
  function BitsOf(x: Code, i: nat): (b: seq<nat>)
    ensures |b| == |x| && Bits(b)
  {
    seq(|x|, k requires 0 <= k < |x| => Bit(x[k], i))
  }

  /** One word from 64 entries, as the packing loop builds it. */
  method PackWord(x: Code, i: nat) returns (word: nat)
    requires |x| == 64
    ensures word == Word(BitsOf(x, i))
  {
    word := 0;
    for k := 0 to 64
      invariant word == Word(BitsOf(x[..k], i))
    {
      assert BitsOf(x[..k + 1], i) == BitsOf(x[..k], i) + [Bit(x[k], i)];
      SetNext(BitsOf(x[..k], i), Bit(x[k], i));
      word := Or(word, Bit(x[k], i) * Pow2(k));
    }
    assert x[..64] == x;
  }

  function Zeros(n: nat): (z: Code)
    ensures |z| == n
  {
    seq(n, _ => 0)
  }

  /** The plane of bit `i`: one word for each 64 entries, the last ones padded with zeros. */
  function Plane(x: Code, i: nat): (words: seq<nat>)
    ensures |words| == (|x| + 63) / 64
    decreases |x|
  {
    if x == [] then []
    else if |x| < 64 then [Word(BitsOf(x + Zeros(64 - |x|), i))]
    else [Word(BitsOf(x[..64], i))] + Plane(x[64..], i)
  }

  function PackCode(x: Code, bits: nat): (planes: seq<seq<nat>>)
    ensures |planes| == bits && forall i :: 0 <= i < bits ==> |planes[i]| == (|x| + 63) / 64
  {
    seq(bits, i requires 0 <= i < bits => Plane(x, i))
  }

  /** The planes one after the other. */
  function Flatten(planes: seq<seq<nat>>): seq<nat> {
    if planes == [] then [] else Flatten(planes[..|planes| - 1]) + planes[|planes| - 1]
  }

  /** The number of ones in common, word by word. */
  function Common(a: seq<nat>, b: seq<nat>): nat
    requires |a| == |b|
  {
    if a == [] then 0 else
      var n := |a| - 1;
      Common(a[..n], b[..n]) + CountOnes(And(a[n], b[n]))
  }

  lemma {:induction false} CommonFirst(v: nat, a: seq<nat>, w: nat, b: seq<nat>)
    requires |a| == |b|
    ensures Common([v] + a, [w] + b) == CountOnes(And(v, w)) + Common(a, b)
    decreases |a|
  {
    hide And, CountOnes;
    if a == [] {
      assert Common([v], [w]) == Common([], []) + CountOnes(And(v, w));
      assert [v] + a == [v] && [w] + b == [w];
    } else {
      var n := |a| - 1;
      CommonFirst(v, a[..n], w, b[..n]);
      assert ([v] + a)[..n + 1] == [v] + a[..n] && ([w] + b)[..n + 1] == [w] + b[..n];
    }
  }

  lemma {:induction false} BitsOfSplit(x: Code, k: nat, i: nat)
    requires k <= |x|
    ensures BitsOf(x, i) == BitsOf(x[..k], i) + BitsOf(x[k..], i)
  {
  }

  lemma {:induction false} PaddingDot(x: Code, y: Code, i: nat, j: nat)
    requires |x| == |y| < 64
    ensures DotCodes(BitsOf(x + Zeros(64 - |x|), i), BitsOf(y + Zeros(64 - |x|), j)) ==
            DotCodes(BitsOf(x, i), BitsOf(y, j))
  {
    var z := Zeros(64 - |x|);
    BitsOfSplit(x + z, |x|, i);
    BitsOfSplit(y + z, |y|, j);
    assert (x + z)[..|x|] == x && (x + z)[|x|..] == z && (y + z)[..|y|] == y && (y + z)[|y|..] == z;
    DotConcat(BitsOf(x, i), BitsOf(y, j), BitsOf(z, i), BitsOf(z, j));
    ZerosDot(64 - |x|, i, j);
  }

  lemma {:induction false} BitOfZero(i: nat)
    ensures Bit(0, i) == 0
  {
    if i == 0 {
    } else {
      BitOfZero(i - 1);
    }
  }

  lemma {:induction false} ZerosDot(n: nat, i: nat, j: nat)
    ensures DotCodes(BitsOf(Zeros(n), i), BitsOf(Zeros(n), j)) == 0
  {
    if n == 0 {
    } else {
      ZerosDot(n - 1, i, j);
      BitOfZero(i);
      var a, b := BitsOf(Zeros(n), i), BitsOf(Zeros(n), j);
      assert Zeros(n)[n - 1] == 0;
      assert a[..n - 1] == BitsOf(Zeros(n - 1), i) && b[..n - 1] == BitsOf(Zeros(n - 1), j) && a[n - 1] == 0;
    }
  }

  /** Ones in common of two planes are the scalar product of the two bit rows. */
  lemma {:induction false} PlanesInCommon(x: Code, y: Code, i: nat, j: nat)
    requires |x| == |y|
    ensures Common(Plane(x, i), Plane(y, j)) == DotCodes(BitsOf(x, i), BitsOf(y, j))
    decreases |x|
  {
    if |x| == 0 {
      assert BitsOf(x, i) == [] && BitsOf(y, j) == [];
    } else if |x| < 64 {
      PaddingDot(x, y, i, j);
      var a, b := BitsOf(x + Zeros(64 - |x|), i), BitsOf(y + Zeros(64 - |x|), j);
      OnesInCommon(a, b);
      CommonFirst(Word(a), [], Word(b), []);
      assert [Word(a)] + [] == [Word(a)] && [Word(b)] + [] == [Word(b)];
    } else {
      PlanesInCommon(x[64..], y[64..], i, j);
      var a, b := BitsOf(x[..64], i), BitsOf(y[..64], j);
      OnesInCommon(a, b);
      CommonFirst(Word(a), Plane(x[64..], i), Word(b), Plane(y[64..], j));
      BitsOfSplit(x, 64, i);
      BitsOfSplit(y, 64, j);
      DotConcat(a, b, BitsOf(x[64..], i), BitsOf(y[64..], j));
    }
  }

  // ---- The bit-sliced scalar product ----

  /** The part of bit `i` on the left: one count per plane on the right, weighted by both positions. */
  function Row(left: seq<nat>, right: seq<seq<nat>>, i: nat): nat
    requires forall j :: 0 <= j < |right| ==> |right[j]| == |left|
  {
    if right == [] then 0 else
      var j := |right| - 1;
      Row(left, right[..j], i) + Common(left, right[j]) * Pow2(i + j)
  }

  function Sliced(left: seq<seq<nat>>, right: seq<seq<nat>>): nat
    requires forall i, j :: 0 <= i < |left| && 0 <= j < |right| ==> |left[i]| == |right[j]|
  {
    if left == [] then 0 else
      var i := |left| - 1;
      Sliced(left[..i], right) + Row(left[i], right, i)
  }

  /** The count of common ones in 32 bits, and whether some addition overflowed. */
  method ReduceSumOfAnd(a: seq<nat>, b: seq<nat>) returns (count: nat, overflow: bool)
    requires |a| == |b|
    ensures count == Wrap(Common(a, b))
    ensures overflow <==> Common(a, b) >= LIMIT
  {
    count, overflow := 0, false;
    assert a[..0] == [] && b[..0] == [];
    for k := 0 to |a|
      invariant count == Wrap(Common(a[..k], b[..k]))
      invariant overflow <==> Common(a[..k], b[..k]) >= LIMIT
    {
      var ones := CountOnes(And(a[k], b[k]));
      hide And, CountOnes;
      assert a[..k + 1][..k] == a[..k] && b[..k + 1][..k] == b[..k];
      WrapAdd(Common(a[..k], b[..k]), ones);
      WrapSmall(Common(a[..k], b[..k]));
      hide Wrap;
      overflow := overflow || count + ones >= LIMIT;
      count := Wrap(count + ones);
    }
    assert a[..|a|] == a && b[..|b|] == b;
  }

  // A window of the flattened planes is a plane.
  lemma {:induction false} FlattenAt(planes: seq<seq<nat>>, d: nat, i: nat)
    requires i < |planes| && forall k :: 0 <= k < |planes| ==> |planes[k]| == d
    ensures |Flatten(planes)| == |planes| * d
    ensures 0 <= i * d <= i * d + d <= |Flatten(planes)|
    ensures Flatten(planes)[i * d..i * d + d] == planes[i]
  {
    var n := |planes| - 1;
    assert planes == planes[..n] + [planes[n]];
    assert (n + 1) * d == n * d + d;
    if n > 0 {
      FlattenAt(planes[..n], d, if i < n then i else 0);
      assert i < n ==> planes[..n][i] == planes[i];
    } else {
      assert Flatten(planes[..0]) == [];
    }
    if i < n { assert (i + 1) * d == i * d + d; }
  }

  function Start(i: nat, d: nat): nat { i * d }

  predicate Splits(n: nat, count: nat)
    requires count > 0
  {
    n % count == 0
  }

  /** The length of each of `count` equal parts. */
  function Share(n: nat, count: nat): nat
    requires count > 0
  {
    n / count
  }

  lemma {:induction false} WindowFits(n: nat, count: nat, i: nat)
    requires i < count
    ensures Start(i, Share(n, count)) + Share(n, count) <= n
  {
    var d := Share(n, count);
    assert count * d <= n;
    assert (i + 1) * d == i * d + d;
    assert (i + 1) * d <= count * d;
  }

  lemma {:induction false} WindowsFit(n: nat, count: nat)
    requires count > 0
    ensures forall i :: 0 <= i < count ==> Start(i, Share(n, count)) + Share(n, count) <= n
  {
    forall i | 0 <= i < count ensures Start(i, Share(n, count)) + Share(n, count) <= n { WindowFits(n, count, i); }
  }

  /** The equal windows of a flat list. */
  function Windows(flat: seq<nat>, count: nat): (w: seq<seq<nat>>)
    requires count > 0
    ensures |w| == count && forall i :: 0 <= i < count ==> |w[i]| == Share(|flat|, count)
  {
    var d := Share(|flat|, count);
    WindowsFit(|flat|, count);
    seq(count, i requires 0 <= i < count && Start(i, d) + d <= |flat| => flat[Start(i, d)..Start(i, d) + d])
  }

  lemma {:induction false} WindowsOfFlatten(planes: seq<seq<nat>>, d: nat)
    requires planes != [] && forall k :: 0 <= k < |planes| ==> |planes[k]| == d
    ensures Splits(|Flatten(planes)|, |planes|) && Windows(Flatten(planes), |planes|) == planes
  {
    var n := |planes|;
    FlattenAt(planes, d, 0);
    assert Share(n * d, n) == d && n * d % n == 0 by { MultipleOf(d, n); assert d * n == n * d; }
    forall i | 0 <= i < n ensures Windows(Flatten(planes), n)[i] == planes[i] {
      FlattenAt(planes, d, i);
      WindowAt(Flatten(planes), n, i);
    }
  }

  /**
   * The product over planes laid out flat on the left, in 32-bit arithmetic, and whether some addition overflowed. None
   * does while the exact product fits.
   */
  method Accumulate(lhs: seq<nat>, rhs: seq<seq<nat>>, bits: nat) returns (sum: nat, overflow: bool)
    requires bits > 0 && Splits(|lhs|, bits)
    requires forall j :: 0 <= j < |rhs| ==> |rhs[j]| == Share(|lhs|, bits)
    ensures sum == Wrap(Sliced(Windows(lhs, bits), rhs))
    ensures Sliced(Windows(lhs, bits), rhs) < LIMIT ==> !overflow
  {
    hide *;
    var d := Share(|lhs|, bits);
    ghost var planes := Windows(lhs, bits);
    NoPlanes(planes, rhs);
    sum, overflow := 0, false;
    for i := 0 to bits
      invariant sum == Wrap(Sliced(planes[..i], rhs))
      invariant Sliced(planes[..i], rhs) < LIMIT ==> !overflow
    {
      ghost var before := Sliced(planes[..i], rhs);
      WindowAt(lhs, bits, i);
      NoRow(planes[i], rhs, i);
      for j := 0 to |rhs|
        invariant sum == Wrap(before + Row(planes[i], rhs[..j], i))
        invariant before + Row(planes[i], rhs[..j], i) < LIMIT ==> !overflow
      {
        var count, lost := ReduceSumOfAnd(lhs[Start(i, d)..Start(i, d) + d], rhs[j]);
        RowNext(planes[i], rhs, i, j);
        Shifted(before + Row(planes[i], rhs[..j], i), Common(planes[i], rhs[j]), Pow2(i + j));
        ShiftFits(before + Row(planes[i], rhs[..j], i), Common(planes[i], rhs[j]), Pow2(i + j));
        var term := Wrap(count * Pow2(i + j));
        overflow := overflow || lost || sum + term >= LIMIT;
        sum := Wrap(sum + term);
      }
      assert rhs[..|rhs|] == rhs;
      SlicedNext(planes, rhs, i);
    }
    assert planes[..bits] == planes;
  }

  // While the exact sum fits, so does every part of it.
  lemma {:induction false} ShiftFits(sum: nat, count: nat, weight: nat)
    requires weight >= 1
    ensures sum + count * weight < LIMIT ==>
              && sum < LIMIT && count < LIMIT && Wrap(sum) == sum && Wrap(count) == count
              && Wrap(Wrap(count) * weight) == count * weight
  {
    AtLeastOnce(count, weight);
    if sum + count * weight < LIMIT {
      WrapSmall(sum);
      WrapSmall(count);
      WrapSmall(count * weight);
    }
  }

  /** One plane as the packing loop builds it: whole words, then the padded tail. */
  method PackPlane(x: Code, i: nat) returns (words: seq<nat>)
    ensures words == Plane(x, i)
  {
    words := [];
    var at := 0;
    assert x[0..] == x && [] + Plane(x, i) == Plane(x, i);
    hide Word, BitsOf;
    while |x| - at >= 64
      invariant at <= |x| && words + Plane(x[at..], i) == Plane(x, i)
    {
      var word := PackWord(x[at..at + 64], i);
      assert x[at..][..64] == x[at..at + 64] && x[at..][64..] == x[at + 64..];
      words, at := words + [word], at + 64;
    }
    if at < |x| {
      var word := PackWord(x[at..] + Zeros(64 - (|x| - at)), i);
      words := words + [word];
    }
  }

  /**
   * The bit-sliced product of two codes on the layout that is stored: the left planes flat, the right planes apart. Up
   * to dimension 65535 it is the scalar product, and no addition overflows on the way.
   */
  method CodeProduct(x: Code, y: Code, left: nat, right: nat) returns (sum: nat, overflow: bool)
    requires |x| == |y| <= 65535 && 1 <= left <= 8 && 1 <= right <= 8 && Within(x, left) && Within(y, right)
    ensures sum == DotCodes(x, y) && !overflow
  {
    hide Plane, Within, Flatten, Windows, Sliced, Wrap, DotCodes, Splits, Share;
    var xs, ys: seq<seq<nat>> := [], [];
    for i := 0 to left
      invariant |xs| == i && forall k :: 0 <= k < i ==> xs[k] == Plane(x, k)
    {
      var plane := PackPlane(x, i);
      xs := xs + [plane];
    }
    for j := 0 to right
      invariant |ys| == j && forall k :: 0 <= k < j ==> ys[k] == Plane(y, k)
    {
      var plane := PackPlane(y, j);
      ys := ys + [plane];
    }
    assert xs == PackCode(x, left) && ys == PackCode(y, right);
    WindowsOfFlatten(xs, (|x| + 63) / 64);
    FlattenShare(xs, (|x| + 63) / 64);
    SlicedExact(x, y, left, right);
    sum, overflow := Accumulate(Flatten(xs), ys, left);
  }

  lemma {:induction false} FlattenShare(planes: seq<seq<nat>>, d: nat)
    requires planes != [] && forall k :: 0 <= k < |planes| ==> |planes[k]| == d
    ensures Share(|Flatten(planes)|, |planes|) == d
  {
    FlattenAt(planes, d, 0);
    MultipleOf(d, |planes|);
    assert d * |planes| == |planes| * d;
  }

  lemma {:induction false} WindowAt(flat: seq<nat>, count: nat, i: nat)
    requires i < count
    ensures var d := Share(|flat|, count);
            Start(i, d) + d <= |flat| && Windows(flat, count)[i] == flat[Start(i, d)..Start(i, d) + d]
  {
    WindowFits(|flat|, count, i);
  }

  lemma {:induction false} NoPlanes(left: seq<seq<nat>>, right: seq<seq<nat>>)
    requires forall i, j :: 0 <= i < |left| && 0 <= j < |right| ==> |left[i]| == |right[j]|
    ensures Wrap(Sliced(left[..0], right)) == 0
  {
  }

  lemma {:induction false} NoRow(left: seq<nat>, right: seq<seq<nat>>, i: nat)
    requires forall j :: 0 <= j < |right| ==> |right[j]| == |left|
    ensures Row(left, right[..0], i) == 0
  {
  }

  lemma {:induction false} RowNext(left: seq<nat>, right: seq<seq<nat>>, i: nat, j: nat)
    requires j < |right| && forall k :: 0 <= k < |right| ==> |right[k]| == |left|
    ensures Row(left, right[..j + 1], i) == Row(left, right[..j], i) + Common(left, right[j]) * Pow2(i + j)
  {
    hide Common, Pow2;
    assert right[..j + 1][..j] == right[..j];
  }

  lemma {:induction false} SlicedNext(left: seq<seq<nat>>, right: seq<seq<nat>>, i: nat)
    requires i < |left| && forall k, j :: 0 <= k < |left| && 0 <= j < |right| ==> |left[k]| == |right[j]|
    ensures Sliced(left[..i + 1], right) == Sliced(left[..i], right) + Row(left[i], right, i)
  {
    hide Row;
    assert left[..i + 1][..i] == left[..i];
  }

  lemma {:induction false} Shifted(sum: nat, count: nat, weight: nat)
    ensures Wrap(Wrap(sum) + Wrap(Wrap(count) * weight)) == Wrap(sum + count * weight)
  {
    hide *;
    WrapScale(count, weight);
    WrapAdd(sum, Wrap(count * weight));
    WrapAdd(sum, count * weight);
  }

  /** The low `bits` bits of v. */
  function Low(v: nat, bits: nat): nat {
    if bits == 0 then 0 else Low(v, bits - 1) + Bit(v, bits - 1) * Pow2(bits - 1)
  }

  lemma {:induction false} LowHalf(v: nat, bits: nat)
    requires bits > 0
    ensures Low(v, bits) == v % 2 + 2 * Low(v / 2, bits - 1)
    decreases bits
  {
    if bits > 1 {
      LowHalf(v, bits - 1);
      assert Bit(v, bits - 1) == Bit(v / 2, bits - 2);
      assert Pow2(bits - 1) == 2 * Pow2(bits - 2);
      Twice(Bit(v, bits - 1), Pow2(bits - 2));
    } else {
      assert Low(v, 1) == Bit(v, 0) * Pow2(0);
    }
  }

  lemma {:induction false} Twice(a: nat, b: nat)
    ensures a * (2 * b) == 2 * (a * b)
  {
  }

  lemma {:induction false} LowIsAll(v: nat, bits: nat)
    requires v < Pow2(bits)
    ensures Low(v, bits) == v
    decreases bits
  {
    if bits == 0 {
    } else {
      LowHalf(v, bits);
      LowIsAll(v / 2, bits - 1);
    }
  }

  // The same sums, written on the entries.
  function RowOf(x: Code, y: Code, i: nat, bits: nat): nat
    requires |x| == |y|
  {
    if bits == 0 then 0 else
      RowOf(x, y, i, bits - 1) + DotCodes(BitsOf(x, i), BitsOf(y, bits - 1)) * Pow2(i + bits - 1)
  }

  function SlicedOf(x: Code, y: Code, left: nat, right: nat): nat
    requires |x| == |y|
  {
    if left == 0 then 0 else SlicedOf(x, y, left - 1, right) + RowOf(x, y, left - 1, right)
  }

  lemma {:induction false} RowIsRowOf(x: Code, y: Code, i: nat, bits: nat)
    requires |x| == |y|
    ensures Row(Plane(x, i), PackCode(y, bits), i) == RowOf(x, y, i, bits)
    decreases bits
  {
    if bits == 0 {
    } else {
      hide Plane, Common, Pow2, DotCodes, BitsOf;
      RowIsRowOf(x, y, i, bits - 1);
      assert PackCode(y, bits)[..bits - 1] == PackCode(y, bits - 1);
      PlanesInCommon(x, y, i, bits - 1);
    }
  }

  lemma {:induction false} SlicedIsSlicedOf(x: Code, y: Code, left: nat, right: nat)
    requires |x| == |y|
    ensures Sliced(PackCode(x, left), PackCode(y, right)) == SlicedOf(x, y, left, right)
    decreases left
  {
    if left == 0 {
    } else {
      hide Plane, Row, RowOf, Pow2;
      SlicedIsSlicedOf(x, y, left - 1, right);
      assert PackCode(x, left)[..left - 1] == PackCode(x, left - 1);
      RowIsRowOf(x, y, left - 1, right);
    }
  }

  lemma {:induction false} RowOfLast(x: Code, y: Code, a: nat, b: nat, i: nat, bits: nat)
    requires |x| == |y|
    ensures RowOf(x + [a], y + [b], i, bits) == RowOf(x, y, i, bits) + Bit(a, i) * Pow2(i) * Low(b, bits)
    decreases bits
  {
    hide Bit, BitsOf, Pow2, DotCodes;
    if bits == 0 {
    } else {
      var j := bits - 1;
      RowOfLast(x, y, a, b, i, j);
      BitsOfLast(x, a, i);
      BitsOfLast(y, b, j);
      DotLast(BitsOf(x, i), BitsOf(y, j), Bit(a, i), Bit(b, j));
      Pow2Sum(i, j);
      assert i + bits - 1 == i + j;
      assert Low(b, bits) == Low(b, j) + Bit(b, j) * Pow2(j);
      hide Low;
      RowTerm(DotCodes(BitsOf(x, i), BitsOf(y, j)), Bit(a, i), Bit(b, j), Pow2(i), Pow2(j), Low(b, j));
    }
  }

  lemma {:induction false} BitsOfLast(x: Code, a: nat, i: nat)
    ensures BitsOf(x + [a], i) == BitsOf(x, i) + [Bit(a, i)]
  {
    hide Bit;
  }

  lemma {:induction false} RowTerm(d: nat, a: nat, b: nat, p: nat, q: nat, low: nat)
    ensures (d + a * b) * (p * q) + a * p * low == d * (p * q) + a * p * (low + b * q)
  {
    assert (d + a * b) * (p * q) == d * (p * q) + (a * b) * (p * q);
    assert (a * b) * (p * q) == (a * p) * (b * q);
    assert a * p * (low + b * q) == a * p * low + (a * p) * (b * q);
  }

  lemma {:induction false} SlicedOfLast(x: Code, y: Code, a: nat, b: nat, left: nat, right: nat)
    requires |x| == |y|
    ensures SlicedOf(x + [a], y + [b], left, right) == SlicedOf(x, y, left, right) + Low(a, left) * Low(b, right)
    decreases left
  {
    if left == 0 {
    } else {
      var i := left - 1;
      hide RowOf, Bit, Pow2, BitsOf;
      SlicedOfLast(x, y, a, b, i, right);
      RowOfLast(x, y, a, b, i, right);
      assert Low(a, left) == Low(a, i) + Bit(a, i) * Pow2(i);
      hide Low;
      Spread(Low(a, i), Bit(a, i) * Pow2(i), Low(b, right));
    }
  }

  lemma {:induction false} Spread(a: nat, b: nat, c: nat)
    ensures (a + b) * c == a * c + b * c
  {
  }

  lemma {:induction false} SlicedOfNothing(left: nat, right: nat)
    ensures SlicedOf([], [], left, right) == 0
  {
    if left == 0 {
    } else {
      SlicedOfNothing(left - 1, right);
      RowOfNothing(left - 1, right);
    }
  }

  lemma {:induction false} RowOfNothing(i: nat, bits: nat)
    ensures RowOf([], [], i, bits) == 0
  {
    if bits == 0 {
    } else {
      RowOfNothing(i, bits - 1);
      assert DotCodes(BitsOf([], i), BitsOf([], bits - 1)) == 0;
    }
  }

  lemma {:induction false} SlicedOfIsDot(x: Code, y: Code, left: nat, right: nat)
    requires |x| == |y| && Within(x, left) && Within(y, right)
    ensures SlicedOf(x, y, left, right) == DotCodes(x, y)
    decreases |x|
  {
    if x == [] {
      SlicedOfNothing(left, right);
    } else {
      var n := |x| - 1;
      SlicedOfIsDot(x[..n], y[..n], left, right);
      SlicedOfLast(x[..n], y[..n], x[n], y[n], left, right);
      assert x[..n] + [x[n]] == x && y[..n] + [y[n]] == y;
      LowIsAll(x[n], left);
      LowIsAll(y[n], right);
    }
  }

  lemma {:induction false} DotBound(x: Code, y: Code)
    requires |x| == |y| && Within(x, 8) && Within(y, 8)
    ensures DotCodes(x, y) <= 65025 * |x|
  {
    if x == [] {
    } else {
      var n := |x| - 1;
      DotBound(x[..n], y[..n]);
      assert Pow2(8) == 256 by { Pow2Sum(4, 4); assert Pow2(4) == 16; }
      hide Pow2;
      ProductBound(x[n], y[n]);
    }
  }

  lemma {:induction false} ProductBound(a: nat, b: nat)
    requires a <= 255 && b <= 255
    ensures a * b <= 65025
  {
    assert a * b <= 255 * b;
  }

  lemma {:induction false} WithinWider(x: Code, bits: nat)
    requires Within(x, bits) && bits <= 8
    ensures Within(x, 8)
  {
    if bits < 8 { Pow2Grows(bits, 8); }
  }

  /** Up to dimension 65535 the bit-sliced product is the scalar product of the codes, without wrapping around. */
  lemma {:induction false} SlicedExact(x: Code, y: Code, left: nat, right: nat)
    requires |x| == |y| <= 65535 && left <= 8 && right <= 8 && Within(x, left) && Within(y, right)
    ensures Sliced(PackCode(x, left), PackCode(y, right)) == DotCodes(x, y) < LIMIT
    ensures Wrap(Sliced(PackCode(x, left), PackCode(y, right))) == DotCodes(x, y)
  {
    SlicedIsSlicedOf(x, y, left, right);
    SlicedOfIsDot(x, y, left, right);
    WithinWider(x, left);
    WithinWider(y, right);
    DotBound(x, y);
  }

  // ---- The byte scalar product, and its sign-biased form ----

  /** The plain form in 32 bits, and whether some addition overflowed. */
  method ReduceSumOfXY(s: Code, t: Code) returns (sum: nat, overflow: bool)
    requires |s| == |t|
    ensures sum == Wrap(DotCodes(s, t))
    ensures overflow <==> DotCodes(s, t) >= LIMIT
  {
    sum, overflow := 0, false;
    assert s[..0] == [] && t[..0] == [];
    for k := 0 to |s|
      invariant sum == Wrap(DotCodes(s[..k], t[..k]))
      invariant overflow <==> DotCodes(s[..k], t[..k]) >= LIMIT
    {
      assert s[..k + 1] == s[..k] + [s[k]] && t[..k + 1] == t[..k] + [t[k]];
      var product := s[k] * t[k];
      DotLast(s[..k], t[..k], s[k], t[k]);
      WrapAdd(DotCodes(s[..k], t[..k]), product);
      WrapSmall(DotCodes(s[..k], t[..k]));
      hide Wrap, DotCodes;
      overflow := overflow || sum + product >= LIMIT;
      sum := Wrap(sum + product);
    }
    assert s[..|s|] == s && t[..|t|] == t;
  }

  type Lanes = s: seq<nat> | |s| == 16 witness seq(16, _ => 0)

  /** A byte with its top bit flipped, read as a signed byte. */
  function Biased(v: nat): int
    requires v < 256
  {
    var flipped := if v < 128 then v + 128 else v - 128;
    if flipped < 128 then flipped else flipped - 256
  }

  lemma {:induction false} BiasedIs(v: nat)
    requires v < 256
    ensures Biased(v) == v - 128
  {
  }

  /** Four unsigned by signed products added into a lane. */
  function Lane4(x: Code, y: Code, l: nat): int
    requires |x| == |y| == 64 && l < 16 && forall k :: 0 <= k < 64 ==> y[k] < 256
  {
    x[4 * l] * Biased(y[4 * l]) + x[4 * l + 1] * Biased(y[4 * l + 1])
    + x[4 * l + 2] * Biased(y[4 * l + 2]) + x[4 * l + 3] * Biased(y[4 * l + 3])
  }

  /** The four bytes of a lane, added in two 16-bit steps. */
  function Plain4(x: Code, l: nat): nat
    requires |x| == 64 && l < 16
  {
    (x[4 * l] + x[4 * l + 1]) + (x[4 * l + 2] + x[4 * l + 3])
  }

  function DotStep(lanes: Lanes, x: Code, y: Code): Lanes
    requires |x| == |y| == 64 && forall k :: 0 <= k < 64 ==> y[k] < 256
  {
    seq(16, l requires 0 <= l < 16 => Wrap(lanes[l] + Lane4(x, y, l)))
  }

  function PlainStep(lanes: Lanes, x: Code): Lanes
    requires |x| == 64
  {
    seq(16, l requires 0 <= l < 16 => Wrap(lanes[l] + Plain4(x, l)))
  }

  function Finish(a: Lanes, b: Lanes): Lanes {
    seq(16, l requires 0 <= l < 16 => Wrap(a[l] + Wrap(b[l] * 128)))
  }

  function Four(x: Code, y: Code, i: nat): nat
    requires |x| == |y| && i + 4 <= |x|
  {
    x[i] * y[i] + x[i + 1] * y[i + 1] + x[i + 2] * y[i + 2] + x[i + 3] * y[i + 3]
  }

  lemma {:induction false} LaneTerm(x: Code, y: Code, l: nat)
    requires |x| == |y| == 64 && l < 16 && forall k :: 0 <= k < 64 ==> y[k] < 256
    ensures Lane4(x, y, l) + 128 * Plain4(x, l) ==
            Four(x, y, 4 * l)
  {
    var i := 4 * l;
    Unbias(x[i], y[i]);
    Unbias(x[i + 1], y[i + 1]);
    Unbias(x[i + 2], y[i + 2]);
    Unbias(x[i + 3], y[i + 3]);
    hide Biased;
  }

  lemma {:induction false} Unbias(a: nat, b: nat)
    requires b < 256
    ensures a * Biased(b) + 128 * a == a * b
  {
    BiasedIs(b);
    assert a * (b - 128) == a * b - 128 * a;
  }

  lemma {:induction false} DotFour(x: Code, y: Code, i: nat)
    requires |x| == |y| && i + 4 <= |x|
    ensures DotCodes(x[..i + 4], y[..i + 4]) ==
            DotCodes(x[..i], y[..i]) + Four(x, y, i)
  {
    DotPrefix(x, y, i);
    DotPrefix(x, y, i + 1);
    DotPrefix(x, y, i + 2);
    DotPrefix(x, y, i + 3);
  }

  lemma {:induction false} DotPrefix(x: Code, y: Code, i: nat)
    requires |x| == |y| && i < |x|
    ensures DotCodes(x[..i + 1], y[..i + 1]) == DotCodes(x[..i], y[..i]) + x[i] * y[i]
  {
    assert x[..i + 1] == x[..i] + [x[i]] && y[..i + 1] == y[..i] + [y[i]];
    DotLast(x[..i], y[..i], x[i], y[i]);
  }

  // What the two lane registers stand for.
  function Register(a: seq<nat>, b: seq<nat>): nat {
    Wrap(SumCode(a) + 128 * SumCode(b))
  }

  lemma {:induction false} SumLast(s: seq<nat>, n: nat)
    requires n < |s|
    ensures SumCode(s[..n + 1]) == SumCode(s[..n]) + s[n]
  {
    assert s[..n + 1][..n] == s[..n];
  }

  lemma {:induction false} StepPrefix(a: Lanes, b: Lanes, x: Code, y: Code, n: nat)
    requires |x| == |y| == 64 && n <= 16 && forall k :: 0 <= k < 64 ==> y[k] < 256
    ensures Register(DotStep(a, x, y)[..n], PlainStep(b, x)[..n]) ==
            Wrap(SumCode(a[..n]) + 128 * SumCode(b[..n]) + DotCodes(x[..4 * n], y[..4 * n]))
  {
    hide Wrap, SumCode, DotCodes, DotStep, PlainStep, Lane4, Plain4, Four;
    var c, d := DotStep(a, x, y), PlainStep(b, x);
    if n > 0 {
      var l := n - 1;
      StepPrefix(a, b, x, y, l);
      LanesLast(a, b, x, y, l);
      StepSums(SumCode(c[..l]), SumCode(d[..l]), SumCode(c[..n]), SumCode(d[..n]),
               SumCode(a[..l]) + 128 * SumCode(b[..l]) + DotCodes(x[..4 * l], y[..4 * l]),
               SumCode(a[..n]) + 128 * SumCode(b[..n]) + DotCodes(x[..4 * n], y[..4 * n]),
               a[l] + Lane4(x, y, l), b[l] + Plain4(x, l));
    } else {
      StepNone(a, b, x, y);
    }
  }

  lemma {:induction false} StepNone(a: Lanes, b: Lanes, x: Code, y: Code)
    requires |x| == |y| == 64 && forall k :: 0 <= k < 64 ==> y[k] < 256
    ensures SumCode(DotStep(a, x, y)[..0]) == SumCode(PlainStep(b, x)[..0]) == SumCode(a[..0]) == SumCode(b[..0]) == 0
    ensures DotCodes(x[..0], y[..0]) == 0
  {
  }

  lemma {:induction false} LanesLast(a: Lanes, b: Lanes, x: Code, y: Code, l: nat)
    requires |x| == |y| == 64 && l < 16 && forall k :: 0 <= k < 64 ==> y[k] < 256
    ensures var c, d, n := DotStep(a, x, y), PlainStep(b, x), l + 1;
            && SumCode(c[..n]) == SumCode(c[..l]) + Wrap(a[l] + Lane4(x, y, l))
            && SumCode(d[..n]) == SumCode(d[..l]) + Wrap(b[l] + Plain4(x, l))
            && SumCode(a[..n]) + 128 * SumCode(b[..n]) + DotCodes(x[..4 * n], y[..4 * n]) ==
               SumCode(a[..l]) + 128 * SumCode(b[..l]) + DotCodes(x[..4 * l], y[..4 * l])
               + (a[l] + Lane4(x, y, l)) + 128 * (b[l] + Plain4(x, l))
  {
    hide *;
    SumLast(a, l);
    SumLast(b, l);
    SumLast(DotStep(a, x, y), l);
    SumLast(PlainStep(b, x), l);
    DotFour(x, y, 4 * l);
    LaneTerm(x, y, l);
    StepAt(a, b, x, y, l);
  }

  lemma {:induction false} StepSums(p: nat, q: nat, pp: nat, qq: nat, known: int, next: int, v: int, w: int)
    requires Wrap(p + 128 * q) == Wrap(known)
    requires pp == p + Wrap(v) && qq == q + Wrap(w) && next == known + v + 128 * w
    ensures Wrap(pp + 128 * qq) == Wrap(next)
  {
    hide *;
    StepTerm(p, q, known, v, w);
  }

  lemma {:induction false} StepAt(a: Lanes, b: Lanes, x: Code, y: Code, l: nat)
    requires |x| == |y| == 64 && l < 16 && forall k :: 0 <= k < 64 ==> y[k] < 256
    ensures DotStep(a, x, y)[l] == Wrap(a[l] + Lane4(x, y, l)) && PlainStep(b, x)[l] == Wrap(b[l] + Plain4(x, l))
  {
    hide Lane4, Plain4, Wrap;
  }

  lemma {:induction false} StepTerm(p: nat, q: nat, known: int, v: int, w: int)
    requires Wrap(p + 128 * q) == Wrap(known)
    ensures Wrap(p + Wrap(v) + 128 * (q + Wrap(w))) == Wrap(known + v + 128 * w)
  {
    hide *;
    WrapAdd(p + 128 * q + 128 * Wrap(w), v);
    assert p + Wrap(v) + 128 * (q + Wrap(w)) == (p + 128 * q + 128 * Wrap(w)) + Wrap(v);
    assert Wrap(w) * 128 == 128 * Wrap(w);
    WrapAdd(p + 128 * q + v, Wrap(w) * 128);
    WrapScale(w, 128);
    WrapAdd(p + 128 * q + v, w * 128);
    WrapAdd(p + 128 * q, v + w * 128);
    WrapAdd(known, v + w * 128);
  }

  lemma {:induction false} Stepped(a: Lanes, b: Lanes, x: Code, y: Code, done: nat)
    requires |x| == |y| == 64 && forall k :: 0 <= k < 64 ==> y[k] < 256
    requires Register(a, b) == Wrap(done)
    ensures Register(DotStep(a, x, y), PlainStep(b, x)) == Wrap(done + DotCodes(x, y))
  {
    var c, d := DotStep(a, x, y), PlainStep(b, x);
    StepPrefix(a, b, x, y, 16);
    assert a[..16] == a && b[..16] == b && c[..16] == c && d[..16] == d && x[..64] == x && y[..64] == y;
    hide DotStep, PlainStep, DotCodes, SumCode;
    WrapAdd(SumCode(a) + 128 * SumCode(b), DotCodes(x, y));
    WrapAdd(done, DotCodes(x, y));
  }

  lemma {:induction false} FinishPrefix(a: Lanes, b: Lanes, n: nat)
    requires n <= 16
    ensures Wrap(SumCode(Finish(a, b)[..n])) == Register(a[..n], b[..n])
  {
    if n == 0 {
    } else {
      var l, c := n - 1, Finish(a, b);
      FinishPrefix(a, b, l);
      SumLast(a, l);
      SumLast(b, l);
      SumLast(c, l);
      FinishTerm(SumCode(c[..l]), SumCode(a[..l]), SumCode(b[..l]), a[l], b[l]);
    }
  }

  lemma {:induction false} FinishTerm(s: nat, p: nat, q: nat, v: nat, w: nat)
    requires Wrap(s) == Wrap(p + 128 * q)
    ensures Wrap(s + Wrap(v + Wrap(w * 128))) == Wrap(p + v + 128 * (q + w))
  {
    hide *;
    WrapAdd(v, w * 128);
    WrapAdd(s, v + w * 128);
    WrapAdd(p + 128 * q, v + w * 128);
    assert p + v + 128 * (q + w) == p + 128 * q + (v + w * 128);
  }

  lemma {:induction false} PaddedDot(x: Code, y: Code, n: nat)
    requires |x| == |y| && forall k :: 0 <= k < |y| ==> y[k] < 256
    ensures DotCodes(x + Zeros(n), y + Zeros(n)) == DotCodes(x, y)
    ensures forall k :: 0 <= k < |y| + n ==> (y + Zeros(n))[k] < 256
  {
    DotConcat(x, y, Zeros(n), Zeros(n));
    ZerosProduct(n);
  }

  lemma {:induction false} ZerosProduct(n: nat)
    ensures DotCodes(Zeros(n), Zeros(n)) == 0
  {
    if n == 0 {
    } else {
      ZerosProduct(n - 1);
      assert Zeros(n) == Zeros(n - 1) + [0];
      DotLast(Zeros(n - 1), Zeros(n - 1), 0, 0);
    }
  }

  /** The signed-multiply form: sixteen 32-bit lanes, the right side biased by 128 and corrected at the end. */
  method ReduceSumOfXYBiased(s: Code, t: Code) returns (sum: nat)
    requires |s| == |t| && forall k :: 0 <= k < |t| ==> t[k] < 256
    ensures sum == Wrap(DotCodes(s, t))
  {
    hide *;
    var a, b, at := NoLanes(), NoLanes(), 0;
    NothingYet(s, t);
    while |s| - at >= 64
      invariant at <= |s| && Register(a, b) == Wrap(DotCodes(s[..at], t[..at]))
    {
      var x, y := s[at..at + 64], t[at..at + 64];
      ChunkDone(s, t, at, a, b);
      a, b, at := DotStep(a, x, y), PlainStep(b, x), at + 64;
    }
    var n := |s| - at;
    if n > 0 {
      var x, y := s[at..] + Zeros(64 - n), t[at..] + Zeros(64 - n);
      TailDone(s, t, at, a, b);
      a, b := DotStep(a, x, y), PlainStep(b, x);
    }
    assert n == 0 ==> s[..at] == s && t[..at] == t;
    FinishAll(a, b);
    sum := Wrap(SumCode(Finish(a, b)));
  }

  lemma {:induction false} ChunkDone(s: Code, t: Code, at: nat, a: Lanes, b: Lanes)
    requires |s| == |t| && at + 64 <= |s| && forall k :: 0 <= k < |t| ==> t[k] < 256
    requires Register(a, b) == Wrap(DotCodes(s[..at], t[..at]))
    ensures var x, y := s[at..at + 64], t[at..at + 64];
            Register(DotStep(a, x, y), PlainStep(b, x)) == Wrap(DotCodes(s[..at + 64], t[..at + 64]))
  {
    hide *;
    var x, y := s[at..at + 64], t[at..at + 64];
    assert s[..at + 64] == s[..at] + x && t[..at + 64] == t[..at] + y;
    DotConcat(s[..at], t[..at], x, y);
    Stepped(a, b, x, y, DotCodes(s[..at], t[..at]));
  }

  lemma {:induction false} TailDone(s: Code, t: Code, at: nat, a: Lanes, b: Lanes)
    requires |s| == |t| && at < |s| < at + 64 && forall k :: 0 <= k < |t| ==> t[k] < 256
    requires Register(a, b) == Wrap(DotCodes(s[..at], t[..at]))
    ensures var x, y := s[at..] + Zeros(64 - (|s| - at)), t[at..] + Zeros(64 - (|s| - at));
            && (forall k :: 0 <= k < 64 ==> y[k] < 256)
            && Register(DotStep(a, x, y), PlainStep(b, x)) == Wrap(DotCodes(s, t))
  {
    hide *;
    var n := |s| - at;
    var x, y := s[at..] + Zeros(64 - n), t[at..] + Zeros(64 - n);
    PaddedDot(s[at..], t[at..], 64 - n);
    Stepped(a, b, x, y, DotCodes(s[..at], t[..at]));
    assert s == s[..at] + s[at..] && t == t[..at] + t[at..];
    DotConcat(s[..at], t[..at], s[at..], t[at..]);
  }

  lemma {:induction false} FinishAll(a: Lanes, b: Lanes)
    ensures Wrap(SumCode(Finish(a, b))) == Register(a, b)
  {
    FinishPrefix(a, b, 16);
    assert Finish(a, b)[..16] == Finish(a, b) && a[..16] == a && b[..16] == b;
  }

  lemma {:induction false} NothingYet(s: Code, t: Code)
    requires |s| == |t|
    ensures Register(NoLanes(), NoLanes()) == Wrap(DotCodes(s[..0], t[..0]))
  {
    AllZero(NoLanes(), 16);
    assert NoLanes()[..16] == NoLanes();
  }

  function NoLanes(): Lanes {
    seq(16, _ => 0)
  }

  lemma {:induction false} AllZero(a: Lanes, n: nat)
    requires n <= 16 && forall l :: 0 <= l < 16 ==> a[l] == 0
    ensures SumCode(a[..n]) == 0
  {
    if n == 0 {
    } else {
      AllZero(a, n - 1);
      SumLast(a, n - 1);
    }
  }
}
