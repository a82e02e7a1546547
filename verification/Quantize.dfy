/** The quantizer: signed codes at the scale found by the sweep, and why they are the best codes. */
module Quantize {
  import opened Vectors
  import opened Codes
  import opened Distances
  import opened ScaleSearch
  import opened Spacing

  function Half(bits: nat): nat
    requires bits > 0
  {
    Pow2(bits - 1)
  }

  function Mask(bits: nat): nat
    requires bits > 0
  {
    Half(bits) - 1
  }

  /** Floor, clamped to the signed range and shifted to be unsigned. */
  function SignedEntry(v: real, bits: nat): nat
    requires bits > 0
  {
    var half: int := Half(bits);
    var c := v.Floor;
    if c < -half then 0 else if c > half - 1 then 2 * half - 1 else c + half
  }

  function SignedOf(t: real, v: real, bits: nat): nat
    requires bits > 0
  {
    SignedEntry(t * v, bits)
  }

  function SignedCode(v: Vec, t: real, bits: nat): (code: Code)
    requires bits > 0
    ensures |code| == |v|
  {
    seq(|v|, i requires 0 <= i < |v| => SignedOf(t, v[i], bits))
  }

  function Abs(v: real): real {
    if v < 0.0 then -v else v
  }

  function Magnitudes(v: Vec): (o: Vec)
    ensures |o| == |v| && NonNegative(o)
  {
    seq(|v|, i requires 0 <= i < |v| => Abs(v[i]))
  }

  /** The cell centre of a code entry. */
  function Cell(code: nat, bits: nat): real {
    code as real - Centre(bits)
  }

  lemma {:induction false} CentreIs(bits: nat)
    requires bits > 0
    ensures Centre(bits) == Half(bits) as real - 0.5 && Half(bits) >= 1
  {
    assert Pow2(bits) == 2 * Pow2(bits - 1);
  }

  lemma {:induction false} PositiveEntry(w: real, bits: nat)
    requires bits > 0 && w >= 0.0
    ensures Cell(SignedEntry(w, bits), bits) == Entry(w, Mask(bits)) as real + 0.5
  {
    CentreIs(bits);
    hide Pow2, Centre, Half;
  }

  /** A negative entry mirrors its magnitude exactly when the magnitude is not at a step. */
  lemma {:induction false} NegativeEntry(w: real, bits: nat)
    requires bits > 0 && w >= 0.0
    ensures Cell(SignedEntry(-w, bits), bits) == -(Entry(w, Mask(bits)) as real + 0.5) <==> !OnStep(w, Mask(bits))
  {
    CentreIs(bits);
    hide Pow2, Centre, Half;
    assert (-w).Floor == if w.Floor as real == w then -w.Floor else -w.Floor - 1;
  }

  /** At a step the negative entry mirrors the step below. */
  lemma {:induction false} StepEntry(w: real, bits: nat)
    requires bits > 0 && w > 0.0 && OnStep(w, Mask(bits))
    ensures w.Floor >= 1 && Cell(SignedEntry(-w, bits), bits) == -((w.Floor - 1) as real + 0.5)
  {
    CentreIs(bits);
    hide Pow2, Centre, Half;
    assert (-w).Floor == -w.Floor;
  }

  /** The magnitude entry that the signed entry of `v` at scale `t` stands for. */
  function MirrorEntry(t: real, v: real, mask: nat): nat {
    if v < 0.0 then StrictOf(t, Abs(v), mask) else EntryOf(t, Abs(v), mask)
  }

  function MirrorCode(v: Vec, t: real, mask: nat): (code: Code)
    ensures |code| == |v|
  {
    seq(|v|, i requires 0 <= i < |v| => MirrorEntry(t, v[i], mask))
  }

  /** No negative entry is at a step at scale `t`. */
  ghost predicate OffSteps(v: Vec, t: real, mask: nat) {
    forall i :: 0 <= i < |v| ==> OffStep(t, v[i], mask)
  }

  ghost predicate OffStep(t: real, v: real, mask: nat) {
    v < 0.0 ==> !OnStep(t * Abs(v), mask)
  }

  lemma {:induction false} EntryMirrors(t: real, v: real, bits: nat)
    requires bits > 0 && t > 0.0
    ensures var cell, c := Cell(SignedOf(t, v, bits), bits), MirrorEntry(t, v, Mask(bits)) as real + 0.5;
            cell == if v < 0.0 then -c else c
  {
    hide Cell, SignedEntry, Entry, OnStep, Mask;
    var w, signed := t * Abs(v), t * v;
    assert signed == if v < 0.0 then -w else w;
    if v < 0.0 {
      PositiveProduct(t, Abs(v), w);
      if OnStep(w, Mask(bits)) { StepEntry(w, bits); } else { NegativeEntry(w, bits); }
    } else {
      NonNegativeProduct(t, Abs(v), w);
      PositiveEntry(w, bits);
    }
  }

  /** What the cells of a signed code at any positive scale add up to: the sums of the magnitude code it stands for. */
  lemma {:induction false} CodeObjective(v: Vec, t: real, bits: nat)
    requires bits > 0 && t > 0.0
    ensures var c, code := Centred(SignedCode(v, t, bits), Centre(bits)), MirrorCode(v, t, Mask(bits));
            Dot(c, v) == Num(Magnitudes(v), code) && Dot(c, c) == Den(code)
    decreases |v|
  {
    hide *;
    if v == [] {
      NoObjective(v, t, bits);
    } else {
      var n := |v| - 1;
      CodeObjective(v[..n], t, bits);
      EntryMirrors(t, v[n], bits);
      PrefixDots(v, t, bits);
      PrefixMirror(v, t, Mask(bits));
      LastSums(Magnitudes(v), MirrorCode(v, t, Mask(bits)));
      ProductMirrors(MirrorEntry(t, v[n], Mask(bits)) as real + 0.5, v[n], Cell(SignedOf(t, v[n], bits), bits));
    }
  }

  lemma {:induction false} NoObjective(v: Vec, t: real, bits: nat)
    requires v == [] && bits > 0
    ensures var c, code := Centred(SignedCode(v, t, bits), Centre(bits)), MirrorCode(v, t, Mask(bits));
            Dot(c, v) == Num(Magnitudes(v), code) == 0.0 && Dot(c, c) == Den(code) == 0.0
  {
  }

  lemma {:induction false} ProductMirrors(c: real, v: real, cell: real)
    requires cell == if v < 0.0 then -c else c
    ensures cell * v == c * Abs(v) && cell * cell == c * c
  {
  }

  lemma {:induction false} PrefixDots(v: Vec, t: real, bits: nat)
    requires bits > 0 && |v| > 0
    ensures var n := |v| - 1;
            var c := Centred(SignedCode(v, t, bits), Centre(bits));
            var d := Centred(SignedCode(v[..n], t, bits), Centre(bits));
            var cell := Cell(SignedOf(t, v[n], bits), bits);
            Dot(c, v) == Dot(d, v[..n]) + cell * v[n] && Dot(c, c) == Dot(d, d) + cell * cell
  {
    hide SignedOf, Centre;
    var n := |v| - 1;
    var c := Centred(SignedCode(v, t, bits), Centre(bits));
    assert c[..n] == Centred(SignedCode(v[..n], t, bits), Centre(bits)) && c[n] == Cell(SignedOf(t, v[n], bits), bits);
  }

  lemma {:induction false} PrefixMirror(v: Vec, t: real, mask: nat)
    requires |v| > 0
    ensures var n := |v| - 1;
            && MirrorCode(v, t, mask)[..n] == MirrorCode(v[..n], t, mask)
            && MirrorCode(v, t, mask)[n] == MirrorEntry(t, v[n], mask)
            && Magnitudes(v)[..n] == Magnitudes(v[..n]) && Magnitudes(v)[n] == Abs(v[n])
  {
    hide MirrorEntry, Abs;
  }

  // ---- A scale above the best one ----

  lemma {:induction false} StepsPassed(x: real, v: real, epsilon: real, u: real, mask: nat)
    requires x >= 0.0 && epsilon > 0.0 && u == (x + epsilon) * v && v > 0.0 && ClearEntry(x, v, epsilon, mask)
    ensures !OnStep(u, mask)
  {
    var w, more := x * v, epsilon * v;
    assert u == w + more;
    PositiveProduct(epsilon, v, more);
    hide OnStep;
    Passed(w, more, u, mask);
  }

  lemma {:induction false} Passed(w: real, more: real, u: real, mask: nat)
    requires more > 0.0 && u == w + more && (w.Floor < mask ==> u < w.Floor as real + 1.0)
    ensures !OnStep(u, mask)
  {
    assert w.Floor as real <= w < u;
    assert u.Floor as real == u ==> w.Floor < u.Floor;
  }

  /** A step up that crosses no step leaves no negative entry at one, and keeps the code. */
  lemma {:induction false} ClearMirrors(v: Vec, x: real, epsilon: real, mask: nat)
    requires x >= 0.0 && epsilon > 0.0 && Clear(Magnitudes(v), x, epsilon, mask)
    ensures OffSteps(v, x + epsilon, mask)
    ensures MirrorCode(v, x + epsilon, mask) == CodeAt(Magnitudes(v), x, mask)
  {
    var o, t := Magnitudes(v), x + epsilon;
    ClearKeepsCode(o, x, epsilon, mask);
    hide MirrorEntry, EntryOf, ClearEntry, OffStep;
    forall i | 0 <= i < |v| ensures OffStep(t, v[i], mask) && MirrorEntry(t, v[i], mask) == EntryOf(t, o[i], mask) {
      assert ClearEntry(x, o[i], epsilon, mask);
      ClearMirrorsEntry(v[i], x, epsilon, t, mask);
    }
  }

  lemma {:induction false} ClearMirrorsEntry(v: real, x: real, epsilon: real, t: real, mask: nat)
    requires x >= 0.0 && epsilon > 0.0 && t == x + epsilon && ClearEntry(x, Abs(v), epsilon, mask)
    ensures OffStep(t, v, mask) && MirrorEntry(t, v, mask) == EntryOf(t, Abs(v), mask)
  {
    hide ClearEntry, OnStep, Entry, OffStep, MirrorEntry, EntryOf;
    if v < 0.0 { StepsPassed(x, Abs(v), epsilon, t * Abs(v), mask); }
    MirrorOff(t, v, t * Abs(v), mask);
  }

  lemma {:induction false} MirrorOff(t: real, v: real, w: real, mask: nat)
    requires w == t * Abs(v) && (v < 0.0 ==> !OnStep(w, mask))
    ensures OffStep(t, v, mask) && MirrorEntry(t, v, mask) == EntryOf(t, Abs(v), mask)
  {
    hide OnStep, Entry, Abs;
  }

  // ---- Codes with negative entries at steps ----

  lemma {:induction false} EntryBetween(s: real, v: real, mask: nat)
    requires s > 0.0
    ensures RaisedEntry(StrictOf(s, Abs(v), mask), MirrorEntry(s, v, mask), Abs(v), s)
    ensures RaisedEntry(MirrorEntry(s, v, mask), EntryOf(s, Abs(v), mask), Abs(v), s)
  {
    hide StrictEntry, Entry;
    NonNegativeProduct(s, Abs(v), s * Abs(v));
    StrictFacts(s * Abs(v), mask);
  }

  /** The magnitude code of any positive scale lies between the code just below the scale and the code at it. */
  lemma {:induction false} MirrorBetween(v: Vec, s: real, mask: nat)
    requires s > 0.0
    ensures Raised(Magnitudes(v), StrictCode(Magnitudes(v), s, mask), MirrorCode(v, s, mask), s)
    ensures Raised(Magnitudes(v), MirrorCode(v, s, mask), CodeAt(Magnitudes(v), s, mask), s)
  {
    hide StrictOf, EntryOf, MirrorEntry, RaisedEntry, Abs;
    var o := Magnitudes(v);
    var below, code, at := StrictCode(o, s, mask), MirrorCode(v, s, mask), CodeAt(o, s, mask);
    forall i | 0 <= i < |v| ensures RaisedEntry(below[i], code[i], o[i], s) && RaisedEntry(code[i], at[i], o[i], s) {
      EntryBetween(s, v[i], mask);
    }
  }

  lemma {:induction false} NoneBetter(v: Vec, x: real, s: real, mask: nat)
    requires Optimal(Magnitudes(v), x, mask) && s > 0.0
    ensures !Better(Magnitudes(v), MirrorCode(v, s, mask), CodeAt(Magnitudes(v), x, mask))
  {
    var o := Magnitudes(v);
    var p := BelowIsCode(o, s, mask);
    assert !Better(o, CodeAt(o, p, mask), CodeAt(o, x, mask)) && !Better(o, CodeAt(o, s, mask), CodeAt(o, x, mask));
    MirrorBetween(v, s, mask);
    hide *;
    BetweenNoBetter(o, StrictCode(o, s, mask), MirrorCode(v, s, mask), CodeAt(o, s, mask), CodeAt(o, x, mask), s);
  }

  // At scale zero every cell is one half, whatever the sign of the entry.
  lemma {:induction false} ZeroObjective(v: Vec, bits: nat)
    requires bits > 0
    ensures var c, code := Centred(SignedCode(v, 0.0, bits), Centre(bits)), CodeAt(Magnitudes(v), 0.0, Mask(bits));
            -Num(Magnitudes(v), code) <= Dot(c, v) <= Num(Magnitudes(v), code) && Dot(c, c) == Den(code)
    decreases |v|
  {
    hide *;
    if v == [] {
      ZeroStart(v, bits);
    } else {
      var n := |v| - 1;
      ZeroObjective(v[..n], bits);
      PrefixDots(v, 0.0, bits);
      ZeroEntry(v, bits);
      LastSums(Magnitudes(v), CodeAt(Magnitudes(v), 0.0, Mask(bits)));
      HalfProduct(v[n]);
    }
  }

  lemma {:induction false} ZeroStart(v: Vec, bits: nat)
    requires v == [] && bits > 0
    ensures var c, code := Centred(SignedCode(v, 0.0, bits), Centre(bits)), CodeAt(Magnitudes(v), 0.0, Mask(bits));
            Dot(c, v) == Num(Magnitudes(v), code) == 0.0 && Dot(c, c) == Den(code)
  {
  }

  lemma {:induction false} ZeroEntry(v: Vec, bits: nat)
    requires bits > 0 && |v| > 0
    ensures var n := |v| - 1;
            var code := CodeAt(Magnitudes(v), 0.0, Mask(bits));
            && Cell(SignedOf(0.0, v[n], bits), bits) == 0.5 && code[n] == 0 && Magnitudes(v)[n] == Abs(v[n])
            && code[..n] == CodeAt(Magnitudes(v[..n]), 0.0, Mask(bits)) && Magnitudes(v)[..n] == Magnitudes(v[..n])
  {
    CentreIs(bits);
    hide Pow2, Centre, Half;
    assert Magnitudes(v)[..|v| - 1] == Magnitudes(v[..|v| - 1]);
    assert 0.0 * v[|v| - 1] == 0.0 && 0.0 * Abs(v[|v| - 1]) == 0.0;
  }

  lemma {:induction false} HalfProduct(v: real)
    ensures -((0 as real + 0.5) * Abs(v)) <= 0.5 * v <= (0 as real + 0.5) * Abs(v)
    ensures 0.5 * 0.5 == (0 as real + 0.5) * (0 as real + 0.5)
  {
  }

  lemma {:induction false} SmallerNotGreater(k: real, n: real, d: real, m: real, e: real)
    requires -n <= k <= n && e >= 0.0 && !Greater(n, d, m, e)
    ensures !Greater(k, d, m, e)
  {
    assert k * k <= n * n by {
      NonNegativeProduct(n - k, n + k, n * n - k * k);
    }
    Monotone(k * k, n * n, e);
  }

  /** Scores of codes are compared by their cosine with the vector: no scale's code is better than `code`. */
  ghost predicate BestCode(v: Vec, code: Code, bits: nat)
    requires bits > 0 && |code| == |v|
  {
    forall s :: s >= 0.0 ==> NotBetter(v, SignedCode(v, s, bits), code, bits)
  }

  ghost predicate NotBetter(v: Vec, other: Code, code: Code, bits: nat)
    requires |other| == |code| == |v|
  {
    var c, b := Centred(other, Centre(bits)), Centred(code, Centre(bits));
    !Greater(Dot(c, v), Dot(c, c), Dot(b, v), Dot(b, b))
  }

  /** If the step up from the best scale crosses no step, the code there is at least as good as that of any scale. */
  lemma {:induction false} CodeIsBest(v: Vec, bits: nat, x: real, epsilon: real, s: real)
    requires bits > 0 && Optimal(Magnitudes(v), x, Mask(bits)) && s >= 0.0
    requires epsilon > 0.0 && Clear(Magnitudes(v), x, epsilon, Mask(bits))
    ensures NotBetter(v, SignedCode(v, s, bits), SignedCode(v, x + epsilon, bits), bits)
  {
    var o, mask := Magnitudes(v), Mask(bits);
    var best := CodeAt(o, x, mask);
    assert !Better(o, CodeAt(o, 0.0, mask), best);
    hide Greater, Optimal, CodeAt, SignedCode, Centred, Dot, Num, Den, Magnitudes, Mask, Clear, MirrorCode;
    ClearMirrors(v, x, epsilon, mask);
    CodeObjective(v, x + epsilon, bits);
    DenPositive(best);
    if s > 0.0 {
      CodeObjective(v, s, bits);
      NoneBetter(v, x, s, mask);
    } else {
      ZeroObjective(v, bits);
      SmallerNotGreater(Dot(Centred(SignedCode(v, 0.0, bits), Centre(bits)), v), Num(o, CodeAt(o, 0.0, mask)),
                        Den(CodeAt(o, 0.0, mask)), Num(o, best), Den(best));
    }
  }

  lemma {:induction false} AllNotBetter(v: Vec, bits: nat, x: real, epsilon: real)
    requires bits > 0 && Optimal(Magnitudes(v), x, Mask(bits))
    requires epsilon > 0.0 && Clear(Magnitudes(v), x, epsilon, Mask(bits))
    ensures BestCode(v, SignedCode(v, x + epsilon, bits), bits)
  {
    hide NotBetter, Optimal, Clear, Magnitudes, Mask, SignedCode;
    forall s | s >= 0.0 ensures NotBetter(v, SignedCode(v, s, bits), SignedCode(v, x + epsilon, bits), bits) {
      CodeIsBest(v, bits, x, epsilon, s);
    }
  }

  /** `epsilon` is small for the vector: less than one over the sum of its magnitudes times the number of codes. */
  predicate Small(v: Vec, bits: nat, epsilon: real)
    requires bits > 0
  {
    epsilon * ((Mask(bits) as real + 0.5) * Sum(Magnitudes(v))) < 0.5
  }

  /** Then it crosses no step above the best scale. */
  lemma {:induction false} SmallIsClear(v: Vec, bits: nat, x: real, epsilon: real)
    requires bits > 0 && epsilon > 0.0 && Small(v, bits, epsilon)
    requires Optimal(Magnitudes(v), x, Mask(bits)) && AtStep(Magnitudes(v), Mask(bits), x)
    ensures Clear(Magnitudes(v), x, epsilon, Mask(bits))
  {
    hide *;
    var o, mask := Magnitudes(v), Mask(bits);
    OptimalAt(o, x, mask, x);
    var code := CodeAt(o, x, mask);
    CodeBelow(o, x, mask);
    NumAtMost(o, code, mask);
    var q := epsilon * Num(o, code);
    SmallNumerator(v, bits, epsilon, Num(o, code), q);
    BestIsClear(o, x, mask, epsilon, q);
  }

  lemma {:induction false} CodeBelow(o: Vec, x: real, mask: nat)
    requires NonNegative(o) && x >= 0.0
    ensures forall i :: 0 <= i < |CodeAt(o, x, mask)| ==> CodeAt(o, x, mask)[i] <= mask
  {
  }

  lemma {:induction false} SmallNumerator(v: Vec, bits: nat, epsilon: real, n: real, product: real)
    requires bits > 0 && epsilon > 0.0 && Small(v, bits, epsilon) && product == epsilon * n
    requires n <= (Mask(bits) as real + 0.5) * Sum(Magnitudes(v))
    ensures product < 0.5
  {
    hide Sum, Mask, Magnitudes;
    var bound := (Mask(bits) as real + 0.5) * Sum(Magnitudes(v));
    var most := epsilon * bound;
    Wider(n, bound, epsilon, product, most);
  }

  /**
   * Quantizes a normalized vector, at `epsilon` above the best scale. The code is the best one whenever that crosses no
   * step, as when `epsilon` is small for the vector or steps are further apart than it.
   */
  method Quantize(v: Vec, bits: nat, epsilon: real) returns (code: Code, ghost x: real)
    requires 1 <= bits <= 8
    ensures Optimal(Magnitudes(v), x, Mask(bits)) && AtStep(Magnitudes(v), Mask(bits), x)
    ensures code == SignedCode(v, x + epsilon, bits) && Within(code, bits)
    ensures epsilon > 0.0 && Clear(Magnitudes(v), x, epsilon, Mask(bits)) ==> BestCode(v, code, bits)
    ensures epsilon > 0.0 && Apart(Magnitudes(v), Mask(bits), epsilon) ==> BestCode(v, code, bits)
    ensures epsilon > 0.0 && Small(v, bits, epsilon) ==> BestCode(v, code, bits)
  {
    var o := Absolute(v);
    hide Optimal, AtStep, Magnitudes, Mask, Clear, Apart, BestCode, Small;
    var scale := FindScale(o, Mask(bits), epsilon);
    x := scale - epsilon;
    code := Signed(v, scale, bits);
    if epsilon > 0.0 {
      if Apart(o, Mask(bits), epsilon) { ApartAtBest(o, Mask(bits), epsilon, x); }
      if Small(v, bits, epsilon) { SmallIsClear(v, bits, x, epsilon); }
      if Clear(o, x, epsilon, Mask(bits)) { AllNotBetter(v, bits, x, epsilon); }
    }
  }

  lemma {:induction false} ApartAtBest(o: Vec, mask: nat, epsilon: real, x: real)
    requires Optimal(o, x, mask) && AtStep(o, mask, x) && Apart(o, mask, epsilon)
    ensures Clear(o, x, epsilon, mask)
  {
    hide AtStep, Apart, Clear, Better, CodeAt;
    ApartIsClear(o, mask, epsilon, x);
  }

  method Absolute(v: Vec) returns (o: Vec)
    ensures o == Magnitudes(v)
  {
    o := [];
    for i := 0 to |v|
      invariant |o| == i && forall j :: 0 <= j < i ==> o[j] == Abs(v[j])
    {
      o := o + [if v[i] < 0.0 then -v[i] else v[i]];
    }
  }

  method Signed(v: Vec, scale: real, bits: nat) returns (code: Code)
    requires bits > 0
    ensures code == SignedCode(v, scale, bits) && Within(code, bits)
  {
    code := [];
    hide SignedOf;
    for i := 0 to |v|
      invariant |code| == i && forall j :: 0 <= j < i ==> code[j] == SignedOf(scale, v[j], bits)
    {
      code := code + [SignedOf(scale, v[i], bits)];
    }
    forall k | 0 <= k < |code| ensures code[k] < Pow2(bits) { EntryWithin(scale, v[k], bits); }
  }

  lemma {:induction false} EntryWithin(t: real, v: real, bits: nat)
    requires bits > 0
    ensures SignedOf(t, v, bits) < Pow2(bits)
  {
    assert Pow2(bits) == 2 * Half(bits);
    hide Half;
  }

  // ---- Vectors of any length ----

  /** The 32-bit machine epsilon. */
  const EPSILON: real := 1.0 / 8388608.0

  const MAX_DIMENSION: nat := 0x4000_0000

  lemma {:induction false} MagnitudeDot(v: Vec)
    ensures Dot(Magnitudes(v), Magnitudes(v)) == Dot(v, v)
    decreases |v|
  {
    if v == [] {
    } else {
      var n := |v| - 1;
      MagnitudeDot(v[..n]);
      assert Magnitudes(v)[..n] == Magnitudes(v[..n]);
      assert Abs(v[n]) * Abs(v[n]) == v[n] * v[n];
    }
  }

  /** For a vector of length one, of any dimension up to 2^30, the machine epsilon is small. */
  lemma {:induction false} UnitIsSmall(v: Vec, bits: nat)
    requires 1 <= bits <= 8 && Dot(v, v) == 1.0 && |v| <= MAX_DIMENSION
    ensures Small(v, bits, EPSILON)
  {
    MagnitudeDot(v);
    SumAtMost(Magnitudes(v), 32768.0);
    var s := Sum(Magnitudes(v));
    SumNonNegative(Magnitudes(v));
    MaskBelow(bits);
    hide *;
    var m := Mask(bits) as real + 0.5;
    Wider(m, 127.5, s, m * s, 127.5 * s);
    UnitSmall(v, bits, m * s);
  }

  lemma {:induction false} UnitSmall(v: Vec, bits: nat, product: real)
    requires bits > 0 && product == (Mask(bits) as real + 0.5) * Sum(Magnitudes(v)) && product <= 127.5 * 32768.0
    ensures Small(v, bits, EPSILON)
  {
    hide Mask, Sum, Magnitudes;
  }

  lemma {:induction false} SumNonNegative(o: Vec)
    requires NonNegative(o)
    ensures Sum(o) >= 0.0
    decreases |o|
  {
    if o == [] {
    } else {
      SumNonNegative(o[..|o| - 1]);
    }
  }

  lemma {:induction false} MaskBelow(bits: nat)
    requires 1 <= bits <= 8
    ensures Mask(bits) <= 127
  {
    assert Pow2(4) == 16 && Pow2(7) == 8 * Pow2(4);
    if bits < 8 { Pow2Grows(bits - 1, 7); }
  }

  // Scaling the vector scales the scales and keeps the codes.
  lemma {:induction false} ScaledCode(v: Vec, root: real, s: real, bits: nat)
    requires bits > 0
    ensures SignedCode(Scale(root, v), s, bits) == SignedCode(v, s * root, bits)
  {
    hide SignedOf;
    var t := s * root;
    var a, b := SignedCode(Scale(root, v), s, bits), SignedCode(v, t, bits);
    forall i | 0 <= i < |v| ensures a[i] == b[i] {
      var w := root * v[i];
      assert Scale(root, v)[i] == w;
      ScaledEntry(v[i], root, s, bits, w, t);
    }
  }

  lemma {:induction false} ScaledEntry(v: real, root: real, s: real, bits: nat, w: real, t: real)
    requires bits > 0 && w == root * v && t == s * root
    ensures SignedOf(s, w, bits) == SignedOf(t, v, bits)
  {
    hide SignedEntry;
    var p, q := s * w, t * v;
    assert p == s * root * v && q == s * root * v;
  }

  lemma {:induction false} ScaledDot(c: Vec, v: Vec, root: real)
    requires |c| == |v|
    ensures Dot(c, Scale(root, v)) == Dot(c, v) * root
  {
    hide Dot;
    DotScale(1.0, c, root, v);
    assert Scale(1.0, c) == c;
  }

  lemma {:induction false} ScaledBest(v: Vec, root: real, code: Code, bits: nat)
    requires bits > 0 && root > 0.0 && |code| == |v| && BestCode(v, code, bits)
    ensures BestCode(Scale(root, v), code, bits)
  {
    hide SignedCode, Dot, Greater, Centred, Centre, Scale;
    var vector, b := Scale(root, v), Centred(code, Centre(bits));
    ScaledDot(b, v, root);
    forall s | s >= 0.0 ensures NotBetter(vector, SignedCode(vector, s, bits), code, bits) {
      var t := s * root;
      NonNegativeProduct(s, root, t);
      ScaledCode(v, root, s, bits);
      assert NotBetter(v, SignedCode(v, t, bits), code, bits);
      var c := Centred(SignedCode(v, t, bits), Centre(bits));
      ScaledDot(c, v, root);
      Rescale(Dot(c, v), Dot(c, c), Dot(b, v), Dot(b, b), root, Dot(c, vector), Dot(b, vector));
    }
  }

  lemma {:induction false} UnitLength(v: Vec, root: real)
    requires root > 0.0 && root * root == Dot(Scale(root, v), Scale(root, v))
    ensures Dot(v, v) == 1.0
  {
    hide *;
    DotScale(root, v, root, v);
    IsOne(Dot(v, v), root, root * root);
  }

  lemma {:induction false} IsOne(n: real, root: real, k: real)
    requires root > 0.0 && k == root * root && k == root * root * n
    ensures n == 1.0
  {
    PositiveProduct(root, root, k);
    assert root * root * n == n * k;
    CompareScaled(n, 1.0, k);
    CompareScaled(1.0, n, k);
  }

  /**
   * The quantizer as it is used: any vector but zero, of any dimension up to 2^30, normalized and quantized at the
   * machine epsilon above the best scale. No scale gives a code of greater cosine with the vector.
   */
  method Encode(vector: Vec, bits: nat, root: real) returns (code: Code)
    requires 1 <= bits <= 8 && |vector| <= MAX_DIMENSION
    requires root > 0.0 && root * root == Dot(vector, vector)
    ensures |code| == |vector| && Within(code, bits) && BestCode(vector, code, bits)
  {
    var v: Vec := [];
    for i := 0 to |vector|
      invariant |v| == i && forall j :: 0 <= j < i ==> root * v[j] == vector[j]
    {
      var entry := vector[i] * (1.0 / root);
      assert root * entry == vector[i] * (root * (1.0 / root));
      v := v + [entry];
    }
    assert Scale(root, v) == vector by {
      forall i | 0 <= i < |v| ensures Scale(root, v)[i] == vector[i] {
        var w := root * v[i];
        assert Scale(root, v)[i] == w;
      }
    }
    hide Optimal, AtStep, Magnitudes, Mask, Clear, Apart, BestCode, Small, SignedCode, Dot;
    UnitLength(v, root);
    UnitIsSmall(v, bits);
    ghost var x;
    code, x := Quantize(v, bits, EPSILON);
    ScaledBest(v, root, code, bits);
  }

  // ---- A larger epsilon ----

  lemma {:induction false} Dot2(a: real, b: real, v: real, w: real)
    ensures Dot([a, b], [v, w]) == a * v + b * w
  {
    assert [a, b][..1] == [a] && [v, w][..1] == [v] && [a][..0] == [] && [v][..0] == [];
    assert Dot([a], [v]) == a * v;
  }

  lemma {:induction false} TwoBits()
    ensures Half(2) == 2 && Centre(2) == 1.5
  {
    assert Pow2(1) == 2 && Pow2(2) == 4;
  }

  // At any scale of at least one both entries are clamped; at one half only the first is raised.
  lemma {:induction false} Crossed(t: real)
    requires t >= 1.0
    ensures SignedCode([3.0, 1.0], t, 2) == [3, 3] && SignedCode([3.0, 1.0], 0.5, 2) == [3, 2]
  {
    TwoBits();
    hide Half;
  }

  lemma {:induction false} RaisedOne()
    ensures !NotBetter([3.0, 1.0], [3, 2], [3, 3], 2)
  {
    TwoBits();
    hide Half, Dot, Centre;
    assert Centred([3, 2], 1.5) == [1.5, 0.5] && Centred([3, 3], 1.5) == [1.5, 1.5];
    Dot2(1.5, 0.5, 3.0, 1.0);
    Dot2(1.5, 0.5, 1.5, 0.5);
    Dot2(1.5, 1.5, 3.0, 1.0);
    Dot2(1.5, 1.5, 1.5, 1.5);
  }

  /** Too large a step up spoils the code: it raises both entries, where raising one is better. */
  method EpsilonCrosses() returns (code: Code)
    ensures code == [3, 3] && !BestCode([3.0, 1.0], code, 2)
  {
    ghost var x;
    code, x := Quantize([3.0, 1.0], 2, 1.0);
    assert x >= 0.0;
    hide *;
    Crossed(x + 1.0);
    RaisedOne();
    if BestCode([3.0, 1.0], code, 2) { BestAtHalf(code); }
  }

  lemma {:induction false} BestAtHalf(code: Code)
    requires |code| == 2 && BestCode([3.0, 1.0], code, 2)
    ensures NotBetter([3.0, 1.0], SignedCode([3.0, 1.0], 0.5, 2), code, 2)
  {
    hide NotBetter, SignedCode;
  }
}
