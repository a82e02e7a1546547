/**
 * How far apart scales at which the code steps are: the code just below a scale is the code of a lower one, and above
 * the best scale there is always room before the next step.
 */
module Spacing {
  import opened Vectors
  import opened Codes
  import opened ScaleSearch

  // ---- Just below a scale ----

  /** `w` is exactly at a step of the code. */
  predicate OnStep(w: real, mask: nat) {
    w.Floor as real == w && w.Floor <= mask
  }

  /** The entry just below `w`: at a step, the step before. */
  function StrictEntry(w: real, mask: nat): nat {
    if OnStep(w, mask) && w.Floor >= 1 then w.Floor - 1 else Entry(w, mask)
  }

  function StrictOf(s: real, v: real, mask: nat): nat {
    StrictEntry(s * v, mask)
  }

  function StrictCode(o: Vec, s: real, mask: nat): (code: Code)
    ensures |code| == |o|
  {
    seq(|o|, i requires 0 <= i < |o| => StrictOf(s, o[i], mask))
  }

  lemma {:induction false} StrictFacts(w: real, mask: nat)
    requires w >= 0.0
    ensures var a, b := StrictEntry(w, mask), Entry(w, mask);
            && (b == a || (b == a + 1 && b as real == w)) && a <= mask
            && (a > 0 ==> (a as real) < w) && (a < mask ==> w <= a as real + 1.0)
  {
  }

  /** Scale `p` reaches the entry just below `s`. */
  predicate Reaches(p: real, s: real, v: real, mask: nat) {
    StrictOf(s, v, mask) as real <= p * v
  }

  ghost predicate ReachesAll(p: real, s: real, o: Vec, mask: nat) {
    forall i :: 0 <= i < |o| ==> Reaches(p, s, o[i], mask)
  }

  lemma {:induction false} ReachOne(v: real, s: real, mask: nat) returns (p: real)
    requires v >= 0.0 && s > 0.0
    ensures 0.0 <= p < s && Reaches(p, s, v, mask)
  {
    hide StrictEntry, Reaches;
    var w, a := s * v, StrictEntry(s * v, mask);
    NonNegativeProduct(s, v, w);
    StrictFacts(w, mask);
    assert a > 0 ==> v > 0.0;
    p := if a == 0 then 0.0 else a as real / v;
    QuotientBelow(s, v, w, a, p);
    IsReaching(p, s, v, mask, w, a);
  }

  lemma {:induction false} QuotientBelow(s: real, v: real, w: real, a: nat, p: real)
    requires v >= 0.0 && s > 0.0 && w == s * v && (a > 0 ==> (a as real) < w)
    requires a > 0 ==> v > 0.0
    requires p == if a == 0 then 0.0 else a as real / v
    ensures 0.0 <= p < s && a as real <= p * v
  {
    if a > 0 {
      assert p * v == a as real;
      CompareScaled(s, p, v);
    }
  }

  lemma {:induction false} IsReaching(p: real, s: real, v: real, mask: nat, w: real, a: nat)
    requires w == s * v && a == StrictEntry(w, mask) && a as real <= p * v
    ensures Reaches(p, s, v, mask)
  {
    hide StrictEntry;
  }

  lemma {:induction false} ReachMore(v: real, s: real, mask: nat, p: real, q: real)
    requires v >= 0.0 && Reaches(p, s, v, mask) && p <= q
    ensures Reaches(q, s, v, mask)
  {
    hide StrictOf;
    Monotone(p, q, v);
  }

  lemma {:induction false} ReachAll(o: Vec, s: real, mask: nat) returns (p: real)
    requires NonNegative(o) && s > 0.0
    ensures 0.0 <= p < s && ReachesAll(p, s, o, mask)
    decreases |o|
  {
    if o == [] {
      p := 0.0;
    } else {
      hide Reaches;
      var n := |o| - 1;
      var rest := ReachAll(o[..n], s, mask);
      var last := ReachOne(o[n], s, mask);
      p := if rest < last then last else rest;
      forall i | 0 <= i < |o| ensures Reaches(p, s, o[i], mask) {
        if i < n {
          assert Reaches(rest, s, o[..n][i], mask);
          ReachMore(o[i], s, mask, rest, p);
        } else {
          ReachMore(o[n], s, mask, last, p);
        }
      }
    }
  }

  lemma {:induction false} BelowEntry(v: real, s: real, mask: nat, p: real)
    requires v >= 0.0 && 0.0 <= p < s && Reaches(p, s, v, mask)
    ensures EntryOf(p, v, mask) == StrictOf(s, v, mask)
  {
    var w, u, a := s * v, p * v, StrictEntry(s * v, mask);
    NonNegativeProduct(s, v, w);
    NonNegativeProduct(p, v, u);
    StrictFacts(w, mask);
    assert w - u == (s - p) * v;
    if v > 0.0 { PositiveProduct(s - p, v, w - u); }
    hide StrictEntry;
    BelowFloor(u, w, a, mask, v);
  }

  lemma {:induction false} BelowFloor(u: real, w: real, a: nat, mask: nat, v: real)
    requires 0.0 <= u && a as real <= u && a <= mask && (a < mask ==> w <= a as real + 1.0)
    requires u < w || (u == w == 0.0)
    ensures Entry(u, mask) == a
  {
  }

  /** The code just below a positive scale is the code at a lower scale. */
  lemma {:induction false} BelowIsCode(o: Vec, s: real, mask: nat) returns (p: real)
    requires NonNegative(o) && s > 0.0
    ensures 0.0 <= p < s && CodeAt(o, p, mask) == StrictCode(o, s, mask)
  {
    hide StrictOf, EntryOf, Reaches;
    p := ReachAll(o, s, mask);
    forall i | 0 <= i < |o| ensures EntryOf(p, o[i], mask) == StrictOf(s, o[i], mask) {
      assert Reaches(p, s, o[i], mask);
      BelowEntry(o[i], s, mask, p);
    }
  }

  // ---- One step down, one step up ----

  lemma {:induction false} StepEntries(o: Vec, x: real, mask: nat, i: nat, c: nat)
    requires NonNegative(o) && x > 0.0 && i < |o| && 1 <= c <= mask && x * o[i] == c as real
    ensures CodeAt(o, x, mask)[i] == c
    ensures var code := CodeAt(o, x, mask);
            var lower := code[i := c - 1];
            Raised(o, StrictCode(o, x, mask), lower, x) && Raised(o, lower, code, x)
  {
    var code, strict := CodeAt(o, x, mask), StrictCode(o, x, mask);
    assert code[i] == c && strict[i] == c - 1;
    var lower := code[i := c - 1];
    hide Entry, StrictEntry;
    forall j | 0 <= j < |o| ensures RaisedEntry(strict[j], code[j], o[j], x) {
      NonNegativeProduct(x, o[j], x * o[j]);
      StrictFacts(x * o[j], mask);
    }
    hide RaisedEntry;
    forall j | 0 <= j < |o|
      ensures RaisedEntry(strict[j], lower[j], o[j], x) && RaisedEntry(lower[j], code[j], o[j], x)
    {
      SameIsRaised(lower[j], o[j], x);
    }
  }

  lemma {:induction false} SameIsRaised(c: nat, v: real, s: real)
    ensures RaisedEntry(c, c, v, s)
  {
  }

  /** Taking back one step of the best scale improves nothing. */
  lemma {:induction false} StepDown(o: Vec, x: real, mask: nat, i: nat, c: nat)
    requires Optimal(o, x, mask) && x > 0.0 && i < |o| && 1 <= c <= mask && x * o[i] == c as real
    ensures var code := CodeAt(o, x, mask); code[i] == c && !Better(o, code[i := c - 1], code)
  {
    var code := CodeAt(o, x, mask);
    var p := BelowIsCode(o, x, mask);
    assert !Better(o, CodeAt(o, p, mask), code);
    hide *;
    StepEntries(o, x, mask, i, c);
    BetterAsymmetric(o, code, code);
    BetweenNoBetter(o, StrictCode(o, x, mask), code[i := c - 1], code, code, x);
  }

  /** Entry `i` has a step above scale `x`. */
  predicate Steps(o: Vec, x: real, mask: nat, i: nat)
    requires i < |o|
  {
    (x * o[i]).Floor < mask && o[i] > 0.0
  }

  /** The scale of the next step of an entry. */
  function NextStepOf(x: real, v: real): real
    requires v > 0.0
  {
    ((x * v).Floor + 1) as real / v
  }

  lemma {:induction false} NextStepIs(x: real, v: real)
    requires v > 0.0
    ensures NextStepOf(x, v) * v == (x * v).Floor as real + 1.0 && x < NextStepOf(x, v)
  {
    var w, y := x * v, NextStepOf(x, v);
    assert y * v == w.Floor as real + 1.0;
    CompareScaled(y, x, v);
  }

  /** `i` is the entry with the first step above `x`. */
  ghost predicate First(o: Vec, x: real, mask: nat, i: nat)
    requires i < |o|
  {
    && Steps(o, x, mask, i)
    && forall j :: 0 <= j < |o| && Steps(o, x, mask, j) ==> NextStepOf(x, o[i]) <= NextStepOf(x, o[j])
  }

  lemma {:induction false} FirstExists(o: Vec, x: real, mask: nat, some: nat) returns (i: nat)
    requires some < |o| && Steps(o, x, mask, some)
    ensures i < |o| && First(o, x, mask, i)
  {
    i := some;
    hide NextStepOf;
    for k := 0 to |o|
      invariant i < |o| && Steps(o, x, mask, i)
      invariant forall j :: 0 <= j < k && Steps(o, x, mask, j) ==> NextStepOf(x, o[i]) <= NextStepOf(x, o[j])
    {
      if Steps(o, x, mask, k) && NextStepOf(x, o[k]) < NextStepOf(x, o[i]) {
        i := k;
      }
    }
  }

  // What an entry is at a scale that is no further than its next step.
  lemma {:induction false} EntryAtNext(w: real, u: real, mask: nat)
    requires 0.0 <= w <= u && (w.Floor < mask ==> u <= w.Floor as real + 1.0)
    ensures var a, b := Entry(w, mask), Entry(u, mask); b == a || (b == a + 1 && b as real == u)
    ensures w.Floor < mask && u == w.Floor as real + 1.0 ==> Entry(u, mask) == Entry(w, mask) + 1
  {
    assert w.Floor <= u.Floor;
  }

  lemma {:induction false} ProductAtNext(x: real, v: real, y: real, mask: nat)
    requires x >= 0.0 && v >= 0.0 && x <= y && ((x * v).Floor < mask && v > 0.0 ==> y <= NextStepOf(x, v))
    ensures 0.0 <= x * v <= y * v && ((x * v).Floor < mask ==> y * v <= (x * v).Floor as real + 1.0)
  {
    var w, u := x * v, y * v;
    NonNegativeProduct(x, v, w);
    Monotone(x, y, v);
    if v > 0.0 {
      NextStepIs(x, v);
      hide NextStepOf;
      if w.Floor < mask { Monotone(y, NextStepOf(x, v), v); }
    } else {
      assert u == 0.0 && w == 0.0;
    }
  }

  lemma {:induction false} RaisedAtNext(x: real, v: real, y: real, mask: nat)
    requires x >= 0.0 && v >= 0.0 && x <= y && ((x * v).Floor < mask && v > 0.0 ==> y <= NextStepOf(x, v))
    ensures RaisedEntry(EntryOf(x, v, mask), EntryOf(y, v, mask), v, y)
    ensures (x * v).Floor < mask && y * v == (x * v).Floor as real + 1.0 ==>
              EntryOf(y, v, mask) == EntryOf(x, v, mask) + 1
  {
    hide Entry, NextStepOf;
    ProductAtNext(x, v, y, mask);
    EntryAtNext(x * v, y * v, mask);
  }

  // The code with entry `i` one step up lies between the codes at the best scale and at the next step.
  lemma {:induction false} UpperBetween(o: Vec, x: real, mask: nat, i: nat, y: real)
    requires NonNegative(o) && 0.0 <= x < y && i < |o| && First(o, x, mask, i) && y == NextStepOf(x, o[i])
    ensures var code := CodeAt(o, x, mask);
            var upper := code[i := code[i] + 1];
            && (code[i] + 1) as real == y * o[i]
            && Raised(o, code, upper, y) && Raised(o, upper, CodeAt(o, y, mask), y)
  {
    var code, at := CodeAt(o, x, mask), CodeAt(o, y, mask);
    FirstRaised(o, x, mask, i, y);
    var upper := code[i := code[i] + 1];
    hide EntryOf, RaisedEntry, NextStepOf;
    forall j | 0 <= j < |o| ensures RaisedEntry(code[j], upper[j], o[j], y) && RaisedEntry(upper[j], at[j], o[j], y) {
      assert (x * o[j]).Floor < mask && o[j] > 0.0 ==> Steps(o, x, mask, j);
      RaisedAtNext(x, o[j], y, mask);
      SameIsRaised(upper[j], o[j], y);
    }
  }

  // The entry itself steps up by one.
  lemma {:induction false} FirstRaised(o: Vec, x: real, mask: nat, i: nat, y: real)
    requires NonNegative(o) && 0.0 <= x < y && i < |o| && First(o, x, mask, i) && y == NextStepOf(x, o[i])
    ensures var a, b := CodeAt(o, x, mask)[i], CodeAt(o, y, mask)[i];
            (a + 1) as real == y * o[i] && b == a + 1 && RaisedEntry(a, a + 1, o[i], y)
  {
    var w := x * o[i];
    NonNegativeProduct(x, o[i], w);
    NextStepIs(x, o[i]);
    hide NextStepOf;
    RaisedAtNext(x, o[i], y, mask);
  }

  lemma {:induction false} StepsPositive(o: Vec, x: real, mask: nat, i: nat)
    requires i < |o| && First(o, x, mask, i)
    ensures o[i] > 0.0
  {
  }

  lemma {:induction false} OptimalAt(o: Vec, x: real, mask: nat, s: real)
    requires Optimal(o, x, mask)
    ensures NonNegative(o) && x >= 0.0 && (s >= 0.0 ==> !Better(o, CodeAt(o, s, mask), CodeAt(o, x, mask)))
  {
    hide Better, CodeAt;
  }

  /** Taking one step more than at the best scale improves nothing. */
  lemma {:induction false} StepUp(o: Vec, x: real, mask: nat, i: nat, y: real)
    requires Optimal(o, x, mask) && i < |o| && First(o, x, mask, i) && y == NextStepOf(x, o[i])
    ensures x < y && NonNegative(o) && x >= 0.0
    ensures var code := CodeAt(o, x, mask);
            (code[i] + 1) as real == y * o[i] && !Better(o, code[i := code[i] + 1], code)
  {
    hide *;
    StepsPositive(o, x, mask, i);
    NextStepIs(x, o[i]);
    OptimalAt(o, x, mask, y);
    var code := CodeAt(o, x, mask);
    UpperBetween(o, x, mask, i, y);
    BetterAsymmetric(o, code, code);
    BetweenNoBetter(o, code, code[i := code[i] + 1], CodeAt(o, y, mask), code, y);
  }

  // ---- The gap ----

  // What the step down says of the sums.
  lemma {:induction false} DownBound(n: real, d: real, o: real, x: real, c: real)
    requires o > 0.0 && c == x * o && !Greater(n - o, d - 2.0 * c, n, d)
    ensures 2.0 * (x * n * n) + o * d <= 2.0 * (n * d)
  {
    var z := 2.0 * (n * d) - o * d - 2.0 * (x * n * n);
    assert z * o == n * n * (d - 2.0 * c) - (n - o) * (n - o) * d by {
      assert (n - o) * (n - o) * d == n * n * d - 2.0 * (n * d * o) + o * d * o;
      assert n * n * (d - 2.0 * c) == n * n * d - 2.0 * (x * n * n * o);
    }
    CompareScaled(0.0, z, o);
  }

  // What the step up says of them.
  lemma {:induction false} UpBound(n: real, d: real, o: real, y: real, c: real)
    requires o > 0.0 && c == y * o && !Greater(n + o, d + 2.0 * c, n, d)
    ensures 2.0 * (n * d) + o * d <= 2.0 * (y * n * n)
  {
    var z := 2.0 * (y * n * n) - o * d - 2.0 * (n * d);
    assert z * o == n * n * (d + 2.0 * c) - (n + o) * (n + o) * d by {
      assert (n + o) * (n + o) * d == n * n * d + 2.0 * (n * d * o) + o * d * o;
      assert n * n * (d + 2.0 * c) == n * n * d + 2.0 * (y * n * n * o);
    }
    CompareScaled(0.0, z, o);
  }

  /** If a step down from scale `x` and a step up at scale `y` improve nothing, the two scales are apart. */
  lemma {:induction false} Gap(n: real, d: real, o1: real, c1: real, x: real, o2: real, c2: real, y: real, z: real)
    requires n > 0.0 && d > 0.0 && o1 > 0.0 && o2 > 0.0 && c1 >= 1.0 && c1 == x * o1 && c2 == y * o2 && z == (y - x) * n
    requires !Greater(n - o1, d - 2.0 * c1, n, d) && !Greater(n + o2, d + 2.0 * c2, n, d)
    ensures z > 0.5
  {
    DownBound(n, d, o1, x, c1);
    UpBound(n, d, o2, y, c2);
    hide Greater;
    EntryAbove(n, d, o1, c1, x);
    PositiveProduct(o2, d, o2 * d);
    assert z * n == y * n * n - x * n * n;
    CompareScaled(z, 0.5, n);
  }

  // The scale is below d / n, so an entry that steps there is above n / d.
  lemma {:induction false} EntryAbove(n: real, d: real, o: real, c: real, x: real)
    requires n > 0.0 && d > 0.0 && o > 0.0 && c >= 1.0 && c == x * o
    requires 2.0 * (x * n * n) + o * d <= 2.0 * (n * d)
    ensures o * d > n
  {
    PositiveProduct(o, d, o * d);
    var p := x * n;
    assert p * n == x * n * n && d * n == n * d;
    CompareScaled(d, p, n);
    CompareScaled(d, p, o);
    assert p * o == c * n && d * o == o * d;
    Monotone(1.0, c, n);
  }

  // ---- Above the best scale ----

  lemma {:induction false} NumAtLeast(o: Vec, code: Code, i: nat)
    requires |o| == |code| && NonNegative(o) && i < |o|
    ensures Num(o, code) >= (code[i] as real + 0.5) * o[i]
    decreases |o|
  {
    var n := |o| - 1;
    if i == n {
      NumNonNegative(o[..n], code[..n]);
    } else {
      NumAtLeast(o[..n], code[..n], i);
      NonNegativeProduct(code[n] as real + 0.5, o[n], (code[n] as real + 0.5) * o[n]);
    }
  }

  // The scale is a step of some entry: the next step of any entry is further than half of one over the numerator.
  lemma {:induction false} StepsApart(o: Vec, x: real, mask: nat, i: nat, y: real) returns (z: real)
    requires Optimal(o, x, mask) && AtStep(o, mask, x) && x > 0.0
    requires i < |o| && First(o, x, mask, i) && y == NextStepOf(x, o[i])
    ensures NonNegative(o) && z == (y - x) * Num(o, CodeAt(o, x, mask)) && z > 0.5
  {
    hide *;
    OptimalAt(o, x, mask, x);
    var e, code := ScaleSearch.StepAt(o, mask, x), CodeAt(o, x, mask);
    StepIn(o, mask, e);
    StepDown(o, x, mask, e.i, e.c);
    StepUp(o, x, mask, i, y);
    StepsPositive(o, x, mask, i);
    LoweredSums(o, code, e.i);
    NumStep(o, code, i);
    DenStep(code, i);
    DenPositive(code);
    NumAtLeast(o, code, e.i);
    PositiveProduct(code[e.i] as real + 0.5, o[e.i], (code[e.i] as real + 0.5) * o[e.i]);
    BetterSums(o, code[e.i := e.c - 1], code);
    BetterSums(o, code[i := code[i] + 1], code);
    z := (y - x) * Num(o, code);
    Gap(Num(o, code), Den(code), o[e.i], e.c as real, x, o[i], (code[i] + 1) as real, y, z);
  }

  lemma {:induction false} StepIn(o: Vec, mask: nat, e: Event)
    requires Proper(e, o, mask)
    ensures 1 <= e.c <= mask && e.i < |o|
  {
  }

  lemma {:induction false} BetterSums(o: Vec, a: Code, b: Code)
    requires |a| == |b| == |o|
    ensures Better(o, a, b) <==> Greater(Num(o, a), Den(a), Num(o, b), Den(b))
  {
    hide Num, Den, Greater;
  }

  lemma {:induction false} LoweredSums(o: Vec, code: Code, i: nat)
    requires |o| == |code| && i < |o| && code[i] >= 1
    ensures var lower := code[i := code[i] - 1];
            Num(o, lower) == Num(o, code) - o[i] && Den(lower) == Den(code) - 2.0 * code[i] as real
  {
    hide *;
    var lower := code[i := code[i] - 1];
    NumStep(o, lower, i);
    DenStep(lower, i);
    assert lower[i := lower[i] + 1] == code;
  }

  lemma {:induction false} Uncleared(x: real, v: real, epsilon: real, mask: nat)
    requires v >= 0.0 && x >= 0.0 && !ClearEntry(x, v, epsilon, mask)
    ensures (x * v).Floor < mask && v > 0.0 && NextStepOf(x, v) <= x + epsilon
    ensures x == 0.0 ==> epsilon * v >= 1.0
  {
    var t := x + epsilon;
    assert t * v >= (x * v).Floor as real + 1.0;
    NonNegativeProduct(x, v, x * v);
    if v > 0.0 {
      NextStepIs(x, v);
      CompareScaled(NextStepOf(x, v), t, v);
    }
  }

  lemma {:induction false} ClearAt(o: Vec, x: real, mask: nat, epsilon: real, k: nat, q: real)
    requires Optimal(o, x, mask) && AtStep(o, mask, x) && epsilon > 0.0
    requires NonNegative(o) && x >= 0.0 && q == epsilon * Num(o, CodeAt(o, x, mask)) && q < 0.5
    requires k < |o| && o[k] >= 0.0
    ensures ClearEntry(x, o[k], epsilon, mask)
  {
    hide *;
    var code := CodeAt(o, x, mask);
    if !ClearEntry(x, o[k], epsilon, mask) {
      Uncleared(x, o[k], epsilon, mask);
      if x == 0.0 {
        NumAtLeast(o, code, k);
        TooNear(epsilon, o[k], code[k], Num(o, code), q);
      } else {
        HasStep(o, x, mask, k);
        var i := FirstExists(o, x, mask, k);
        StepsPositive(o, x, mask, i);
        FirstBefore(o, x, mask, i, k);
        var y := NextStepOf(x, o[i]);
        var z := StepsApart(o, x, mask, i, y);
        NumNonNegative(o, code);
        Wider(y - x, epsilon, Num(o, code), z, q);
      }
    }
  }

  lemma {:induction false} HasStep(o: Vec, x: real, mask: nat, k: nat)
    requires k < |o| && (x * o[k]).Floor < mask && o[k] > 0.0
    ensures Steps(o, x, mask, k)
  {
  }

  lemma {:induction false} FirstBefore(o: Vec, x: real, mask: nat, i: nat, k: nat)
    requires i < |o| && k < |o| && First(o, x, mask, i) && Steps(o, x, mask, k)
    ensures o[i] > 0.0 && o[k] > 0.0 && NextStepOf(x, o[i]) <= NextStepOf(x, o[k])
  {
    hide NextStepOf;
  }

  /** Above the best scale, no step is nearer than half of one over the numerator there. */
  lemma {:induction false} BestIsClear(o: Vec, x: real, mask: nat, epsilon: real, q: real)
    requires Optimal(o, x, mask) && AtStep(o, mask, x) && epsilon > 0.0
    requires NonNegative(o) && x >= 0.0 && q == epsilon * Num(o, CodeAt(o, x, mask)) && q < 0.5
    ensures Clear(o, x, epsilon, mask)
  {
    hide AtStep, Optimal, CodeAt, ClearEntry, Num;
    forall k | 0 <= k < |o| ensures ClearEntry(x, o[k], epsilon, mask) {
      ClearAt(o, x, mask, epsilon, k, q);
    }
  }

  lemma {:induction false} Wider(gap: real, epsilon: real, n: real, z: real, q: real)
    requires gap <= epsilon && n >= 0.0 && z == gap * n && q == epsilon * n
    ensures z <= q
  {
    NonNegativeProduct(epsilon - gap, n, q - z);
  }

  lemma {:induction false} TooNear(epsilon: real, v: real, c: nat, n: real, q: real)
    requires epsilon > 0.0 && v >= 0.0 && n >= (c as real + 0.5) * v && epsilon * v >= 1.0 && q == epsilon * n
    ensures q >= 0.5
  {
    NonNegativeProduct(c as real, v, c as real * v);
    assert (c as real + 0.5) * v == c as real * v + 0.5 * v;
    NonNegativeProduct(epsilon, n - 0.5 * v, q - 0.5 * (epsilon * v));
  }

  // ---- Bounds on the numerator ----

  lemma {:induction false} NumAtMost(o: Vec, code: Code, mask: nat)
    requires |o| == |code| && NonNegative(o) && forall i :: 0 <= i < |code| ==> code[i] <= mask
    ensures Num(o, code) <= (mask as real + 0.5) * Sum(o)
    decreases |o|
  {
    if o == [] {
    } else {
      var n := |o| - 1;
      NumAtMost(o[..n], code[..n], mask);
      var m := mask as real + 0.5;
      Wider(code[n] as real + 0.5, m, o[n], (code[n] as real + 0.5) * o[n], m * o[n]);
      assert m * (Sum(o[..n]) + o[n]) == m * Sum(o[..n]) + m * o[n];
    }
  }

  /** The sum of a vector, from its squared length. */
  lemma {:induction false} SumAtMost(o: Vec, k: real)
    ensures 2.0 * k * Sum(o) <= k * k * Dot(o, o) + |o| as real
    decreases |o|
  {
    if o == [] {
    } else {
      var n := |o| - 1;
      SumAtMost(o[..n], k);
      var z := k * o[n] - 1.0;
      assert z * z >= 0.0;
      assert z * z == k * k * (o[n] * o[n]) - 2.0 * k * o[n] + 1.0;
    }
  }
}
