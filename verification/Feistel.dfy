/** The block sampler: a Feistel network permutes a power-of-two range, and filtering it visits every block once. */
module Feistel {
  import opened Vectors
  import opened Numbers
  import Fht
  import Codes

  /** Bitwise exclusive or, lowest bit first. */
  function Xor(a: nat, b: nat): nat
    decreases a + b
  {
    if a == 0 && b == 0 then 0 else (if a % 2 == b % 2 then 0 else 1) + 2 * Xor(a / 2, b / 2)
  }

  lemma {:induction false} XorBits(a: nat, b: nat)
    ensures Xor(a, b) % 2 == (if a % 2 == b % 2 then 0 else 1) && Xor(a, b) / 2 == Xor(a / 2, b / 2)
  {
  }

  lemma {:induction false} XorTwice(a: nat, b: nat)
    ensures Xor(Xor(a, b), b) == a
    decreases a + b
  {
    if a > 0 || b > 0 {
      XorTwice(a / 2, b / 2);
      XorBits(a, b);
      XorBits(Xor(a, b), b);
      var r := Xor(Xor(a, b), b);
      assert r % 2 == a % 2 && r / 2 == a / 2;
      hide Xor;
    }
  }

  lemma {:induction false} XorBelow(a: nat, b: nat, k: nat)
    requires a < Pow2(k) && b < Pow2(k)
    ensures Xor(a, b) < Pow2(k)
    decreases k
  {
    if k == 0 {
    } else {
      XorBelow(a / 2, b / 2, k - 1);
      XorBits(a, b);
    }
  }

  /** The two halves of a number during the rounds. */
  datatype Halves = Halves(left: nat, right: nat)

  /** A round key: any function of the round and the right half. */
  type Secret = (nat, nat) -> nat

  predicate Within(s: Halves, h: nat) {
    s.left < Pow2(h) && s.right < Pow2(h)
  }

  function Mask(v: nat, h: nat): (r: nat)
    ensures r < Pow2(h)
  {
    v % Pow2(h)
  }

  function Round(s: Halves, h: nat, i: nat, secret: Secret): Halves {
    Halves(s.right, Xor(s.left, Mask(secret(i, s.right), h)))
  }

  function Unround(s: Halves, h: nat, i: nat, secret: Secret): Halves {
    Halves(Xor(s.right, Mask(secret(i, s.left), h)), s.left)
  }

  lemma {:induction false} RoundInverse(s: Halves, h: nat, i: nat, secret: Secret)
    requires Within(s, h)
    ensures Within(Round(s, h, i, secret), h) && Unround(Round(s, h, i, secret), h, i, secret) == s
    ensures Within(Unround(s, h, i, secret), h) && Round(Unround(s, h, i, secret), h, i, secret) == s
  {
    hide Xor, Pow2, Mask;
    XorBelow(s.left, Mask(secret(i, s.right), h), h);
    XorTwice(s.left, Mask(secret(i, s.right), h));
    XorBelow(s.right, Mask(secret(i, s.left), h), h);
    XorTwice(s.right, Mask(secret(i, s.left), h));
  }

  /** The first `n` rounds, and their undoing. */
  function Rounds(s: Halves, h: nat, n: nat, secret: Secret): Halves {
    if n == 0 then s else Round(Rounds(s, h, n - 1, secret), h, n - 1, secret)
  }

  function Unrounds(s: Halves, h: nat, n: nat, secret: Secret): Halves
    decreases n
  {
    if n == 0 then s else Unrounds(Unround(s, h, n - 1, secret), h, n - 1, secret)
  }

  lemma {:induction false} RoundsInverse(s: Halves, h: nat, n: nat, secret: Secret)
    requires Within(s, h)
    ensures Within(Rounds(s, h, n, secret), h) && Unrounds(Rounds(s, h, n, secret), h, n, secret) == s
    ensures Within(Unrounds(s, h, n, secret), h) && Rounds(Unrounds(s, h, n, secret), h, n, secret) == s
    decreases n
  {
    hide Round, Unround, Within;
    if n == 0 {
    } else {
      RoundsInverse(s, h, n - 1, secret);
      RoundInverse(Rounds(s, h, n - 1, secret), h, n - 1, secret);
      RoundInverse(s, h, n - 1, secret);
      RoundsInverse(Unround(s, h, n - 1, secret), h, n - 1, secret);
    }
  }

  function Split(x: nat, h: nat): Halves {
    Halves(x / Pow2(h) % Pow2(h), x % Pow2(h))
  }

  function Join(s: Halves, h: nat): nat {
    s.left * Pow2(h) + s.right
  }

  lemma {:induction false} SplitJoin(x: nat, h: nat)
    requires x < Pow2(2 * h)
    ensures Within(Split(x, h), h) && Join(Split(x, h), h) == x
  {
    hide Pow2;
    Pow2Sum(h, h);
    assert h + h == 2 * h;
    Pieces(x, Pow2(h));
  }

  lemma {:induction false} Pieces(x: nat, p: nat)
    requires p > 0 && x < p * p
    ensures x / p % p < p && x % p < p && x / p % p * p + x % p == x
  {
    var q, r := x / p, x % p;
    Division(x, p, q, r);
    QuotientBelow(x, p, q, r);
    RemainderUnique(q, p, 0, q);
  }

  lemma {:induction false} Division(x: nat, p: nat, q: nat, r: nat)
    requires p > 0 && q == x / p && r == x % p
    ensures x == p * q + r && x == q * p + r && r < p
  {
  }

  lemma {:induction false} QuotientBelow(x: nat, p: nat, q: nat, r: nat)
    requires p > 0 && x == p * q + r && x < p * p
    ensures q < p
  {
    MultipleOrder(p, q);
  }

  lemma {:induction false} MultipleOrder(p: nat, q: nat)
    ensures q >= p ==> p * q >= p * p
  {
    if q >= p { assert p * q == p * p + p * (q - p); NatProduct(p, q - p); }
  }

  lemma {:induction false} JoinSplit(s: Halves, h: nat)
    requires Within(s, h)
    ensures Join(s, h) < Pow2(2 * h) && Split(Join(s, h), h) == s
  {
    hide Pow2;
    Pow2Sum(h, h);
    assert h + h == 2 * h;
    UpTo(s.left, s.right, Pow2(h));
    Divided(s.left, s.right, Pow2(h));
  }

  lemma {:induction false} UpTo(a: nat, b: nat, p: nat)
    requires a < p && b < p
    ensures a * p + b < p * p
  {
    assert a * p + p == (a + 1) * p;
    assert p * p == (a + 1) * p + (p - a - 1) * p;
    NatProduct(p - a - 1, p);
  }

  lemma {:induction false} Divided(a: nat, b: nat, p: nat)
    requires b < p && a < p
    ensures (a * p + b) / p == a && (a * p + b) % p == b && a % p == a
  {
    RemainderUnique(a * p + b, p, a, b);
  }

  /** The network on numbers below 2^(2h). */
  function Permuted(x: nat, h: nat, rounds: nat, secret: Secret): nat {
    Join(Rounds(Split(x, h), h, rounds, secret), h)
  }

  function Restored(y: nat, h: nat, rounds: nat, secret: Secret): nat {
    Join(Unrounds(Split(y, h), h, rounds, secret), h)
  }

  /** For any secret, width and number of rounds the network is a permutation of its range. */
  lemma {:induction false} Permutes(x: nat, h: nat, rounds: nat, secret: Secret)
    requires x < Pow2(2 * h)
    ensures Permuted(x, h, rounds, secret) < Pow2(2 * h)
            && Restored(Permuted(x, h, rounds, secret), h, rounds, secret) == x
    ensures Restored(x, h, rounds, secret) < Pow2(2 * h)
            && Permuted(Restored(x, h, rounds, secret), h, rounds, secret) == x
  {
    hide Join, Split, Rounds, Unrounds, Pow2, Within;
    SplitJoin(x, h);
    RoundsInverse(Split(x, h), h, rounds, secret);
    JoinSplit(Rounds(Split(x, h), h, rounds, secret), h);
    JoinSplit(Unrounds(Split(x, h), h, rounds, secret), h);
  }

  /**
   * What one round does to a number of two halves: the right half moves left, and the left half, changed by the low
   * bits of the round key of the right one, moves right.
   */
  lemma {:induction false} OneRound(left: nat, right: nat, h: nat, secret: Secret)
    requires left < Pow2(h) && right < Pow2(h)
    ensures Permuted(left * Pow2(h) + right, h, 1, secret) ==
            right * Pow2(h) + Xor(left, secret(0, right) % Pow2(h))
  {
    var s := Halves(left, right);
    assert Rounds(s, h, 1, secret) == Round(Rounds(s, h, 0, secret), h, 0, secret);
    hide Pow2, Xor, Split, Rounds;
    JoinSplit(s, h);
  }

  /** Each further round does the same to what the rounds before it left. */
  lemma {:induction false} NextRound(left: nat, right: nat, h: nat, rounds: nat, secret: Secret, x: nat)
    requires left < Pow2(h) && right < Pow2(h) && x < Pow2(2 * h)
    requires Permuted(x, h, rounds, secret) == left * Pow2(h) + right
    ensures Permuted(x, h, rounds + 1, secret) ==
            right * Pow2(h) + Xor(left, secret(rounds, right) % Pow2(h))
  {
    var s := Rounds(Split(x, h), h, rounds, secret);
    assert Rounds(Split(x, h), h, rounds + 1, secret) == Round(s, h, rounds, secret);
    hide Pow2, Xor, Split, Rounds, Within;
    SplitJoin(x, h);
    RoundsInverse(Split(x, h), h, rounds, secret);
    JoinSplit(s, h);
    IsWithin(left, right, h);
    JoinSplit(Halves(left, right), h);
  }

  lemma {:induction false} IsWithin(left: nat, right: nat, h: nat)
    requires left < Pow2(h) && right < Pow2(h)
    ensures Within(Halves(left, right), h)
  {
  }

  method Feistel(width: nat, x: nat, rounds: nat, secret: Secret) returns (y: nat)
    requires width % 2 == 0 && x < Pow2(width)
    ensures y == Permuted(x, width / 2, rounds, secret)
  {
    hide Pow2, Xor, Mask, Within, Join, Codes.Or;
    var h := width / 2;
    assert width == 2 * h;
    SplitJoin(x, h);
    var left: nat, right: nat := x / Pow2(h) % Pow2(h), x % Pow2(h);
    for i := 0 to rounds
      invariant Halves(left, right) == Rounds(Split(x, h), h, i, secret)
    {
      left, right := right, Xor(left, Mask(secret(i, right), h));
    }
    RoundsInverse(Split(x, h), h, rounds, secret);
    OrJoins(Halves(left, right), h);
    y := Codes.Or(right, left * Pow2(h));
  }

  lemma {:induction false} OrJoins(s: Halves, h: nat)
    requires Within(s, h)
    ensures Codes.Or(s.right, s.left * Pow2(h)) == Join(s, h)
  {
    hide Pow2, Codes.Or;
    Codes.OrDisjoint(s.right, s.left, h);
  }

  // ---- Sampling ----

  /** The least even width whose range is larger than n. */
  function Width(n: nat): nat
    requires n > 0
  {
    var w := Fht.Log2(n) + 1;
    if w % 2 == 0 then w else w + 1
  }

  /** The images of 0 to k that are below n, in order. */
  function Sampled(n: nat, h: nat, k: nat, secret: Secret): seq<nat> {
    if k == 0 then [] else
      var y := Permuted(k - 1, h, 8, secret);
      Sampled(n, h, k - 1, secret) + if y < n then [y] else []
  }

  /** How far the sampler counts: a 32-bit one shifted left, where the shift distance is taken modulo 32. */
  function Range32(width: nat): nat {
    Pow2(width % 32)
  }

  function Sample(n: nat, secret: Secret): seq<nat>
    requires 0 < n < Pow2(32)
  {
    Sampled(n, Width(n) / 2, Range32(Width(n)), secret)
  }

  lemma {:induction false} SampledMembers(n: nat, h: nat, k: nat, secret: Secret, v: nat)
    requires k <= Pow2(2 * h)
    ensures v in Sampled(n, h, k, secret) <==> v < n && exists x :: 0 <= x < k && Permuted(x, h, 8, secret) == v
    decreases k
  {
    hide Permuted, Pow2;
    if k == 0 {
    } else {
      SampledMembers(n, h, k - 1, secret, v);
      if x :| 0 <= x < k && Permuted(x, h, 8, secret) == v { assert x == k - 1 || x < k - 1; }
      if Permuted(k - 1, h, 8, secret) == v { assert 0 <= k - 1 < k; }
    }
  }

  lemma {:induction false} SampledDistinct(n: nat, h: nat, k: nat, secret: Secret)
    requires k <= Pow2(2 * h)
    ensures forall i, j :: 0 <= i < j < |Sampled(n, h, k, secret)| ==>
              Sampled(n, h, k, secret)[i] != Sampled(n, h, k, secret)[j]
    decreases k
  {
    hide Permuted, Pow2;
    if k == 0 {
    } else {
      var before, y := Sampled(n, h, k - 1, secret), Permuted(k - 1, h, 8, secret);
      SampledDistinct(n, h, k - 1, secret);
      SampledMembers(n, h, k - 1, secret, y);
      forall x | 0 <= x < k - 1 ensures Permuted(x, h, 8, secret) != y { ImagesDiffer(x, k - 1, h, secret); }
      assert y !in before;
    }
  }

  lemma {:induction false} ImagesDiffer(x: nat, z: nat, h: nat, secret: Secret)
    requires x < z < Pow2(2 * h)
    ensures Permuted(x, h, 8, secret) != Permuted(z, h, 8, secret)
  {
    hide Permuted, Restored, Pow2;
    Permutes(x, h, 8, secret);
    Permutes(z, h, 8, secret);
  }

  lemma {:induction false} WidthCovers(n: nat)
    requires n > 0
    ensures Width(n) % 2 == 0 && n < Pow2(Width(n)) == Pow2(2 * (Width(n) / 2))
  {
    var p := Fht.Log2(n);
    assert n < Pow2(p + 1);
    assert Pow2(p + 2) == 2 * Pow2(p + 1);
  }

  lemma {:induction false} WidthBelow(n: nat)
    requires 0 < n < Pow2(32)
    ensures Width(n) < 32 <==> n < Pow2(30)
    ensures Width(n) <= 32
  {
    var p := Fht.Log2(n);
    hide Pow2, Fht.Log2;
    if p >= 32 { PowerAtMost(32, p); }
    if p <= 29 { PowerAtMost(p + 1, 30); } else { PowerAtMost(30, p); }
  }

  lemma {:induction false} PowerAtMost(p: nat, q: nat)
    requires p <= q
    ensures Pow2(p) <= Pow2(q)
  {
    if p < q { Pow2Grows(p, q); }
  }

  // Counting over the whole range visits everything.
  lemma {:induction false} SampledAll(n: nat, h: nat, secret: Secret)
    requires n <= Pow2(2 * h)
    ensures forall v :: v in Sampled(n, h, Pow2(2 * h), secret) <==> 0 <= v < n
  {
    var k := Pow2(2 * h);
    hide Permuted, Pow2, Restored;
    forall v ensures v in Sampled(n, h, k, secret) <==> 0 <= v < n {
      if v >= 0 {
        SampledMembers(n, h, k, secret, v);
        if v < n {
          Permutes(v, h, 8, secret);
          var x := Restored(v, h, 8, secret);
          assert 0 <= x < k && Permuted(x, h, 8, secret) == v;
        }
      }
    }
  }

  // A width of 32 leaves a range of one number.
  lemma {:induction false} SampledOnce(n: nat, h: nat, secret: Secret)
    requires n >= 2
    ensures !(0 in Sampled(n, h, 1, secret) && 1 in Sampled(n, h, 1, secret))
  {
    hide Permuted;
    assert Sampled(n, h, 0, secret) == [];
    assert Sampled(n, h, 1, secret) == if Permuted(0, h, 8, secret) < n then [Permuted(0, h, 8, secret)] else [];
  }

  lemma {:induction false} RangeOf(n: nat)
    requires 0 < n < Pow2(32)
    ensures var h := Width(n) / 2;
            && n <= Pow2(2 * h) && Range32(Width(n)) <= Pow2(2 * h)
            && Range32(Width(n)) == if n < Pow2(30) then Pow2(2 * h) else 1
  {
    hide Pow2, Width;
    WidthCovers(n);
    WidthBelow(n);
    var w := Width(n);
    RangeBelow(w);
    PowerAtMost(w % 32, w);
  }

  lemma {:induction false} RangeBelow(w: nat)
    requires w <= 32
    ensures Range32(w) == if w < 32 then Pow2(w) else 1
  {
    hide Pow2;
    NoPower();
    assert w % 32 == if w < 32 then w else 0;
  }

  lemma {:induction false} NoPower()
    ensures Pow2(0) == 1
  {
  }

  /** For every 32-bit n the sampler visits no block twice, and it visits every block if and only if n is below 2^30. */
  lemma {:induction false} SampleVisitsAll(n: nat, secret: Secret)
    requires 0 < n < Pow2(32)
    ensures (forall v :: 0 <= v < n ==> v in Sample(n, secret)) <==> n < Pow2(30)
    ensures forall v :: v in Sample(n, secret) ==> 0 <= v < n
    ensures forall i, j :: 0 <= i < j < |Sample(n, secret)| ==> Sample(n, secret)[i] != Sample(n, secret)[j]
  {
    assert Pow2(30) >= 2 by { PowerAtMost(1, 30); }
    hide Permuted, Pow2, Width, Sampled, Range32;
    var h, k := Width(n) / 2, Range32(Width(n));
    RangeOf(n);
    SampledDistinct(n, h, k, secret);
    if n < Pow2(30) {
      SampledAll(n, h, secret);
    } else {
      SampledOnce(n, h, secret);
      assert !(0 in Sample(n, secret) && 1 in Sample(n, secret));
      forall v | v in Sample(n, secret) ensures 0 <= v < n { SampledMembers(n, h, k, secret, v); }
    }
  }
}
