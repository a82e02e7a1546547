/**
 * The search for the quantization scale: a sweep over all the scales at which some entry of the code steps up, keeping
 * the objective's numerator and squared denominator by increments.
 */
module ScaleSearch {
  import opened Vectors
  import opened Codes

  /** The scale c / o[i], at which entry `i` of the code reaches `c`. */
  datatype Event = Event(c: nat, i: nat)

  predicate NonNegative(o: Vec) {
    forall i :: 0 <= i < |o| ==> o[i] >= 0.0
  }

  predicate Proper(e: Event, o: Vec, mask: nat) {
    1 <= e.c <= mask && e.i < |o|
  }

  /** Event order by scale; an entry that is zero never steps up at a finite scale, and comes last. */
  predicate NotAfter(o: Vec, e: Event, f: Event)
    requires e.i < |o| && f.i < |o|
  {
    e.c as real * o[f.i] <= f.c as real * o[e.i]
  }

  /** The event has happened at scale `s`. */
  predicate Reached(o: Vec, e: Event, s: real)
    requires e.i < |o|
  {
    e.c as real <= s * o[e.i]
  }

  // ---- Objective ----

  /** The entry of the code at scale `s`. */
  function Entry(v: real, mask: nat): nat {
    if v < 0.0 then 0 else if v.Floor <= mask then v.Floor else mask
  }

  function EntryOf(s: real, v: real, mask: nat): nat {
    Entry(s * v, mask)
  }

  lemma {:induction false} NonNegativeProduct(a: real, b: real, product: real)
    requires a >= 0.0 && b >= 0.0 && product == a * b
    ensures product >= 0.0
  {
  }

  lemma {:induction false} PositiveProduct(a: real, b: real, product: real)
    requires a > 0.0 && b > 0.0 && product == a * b
    ensures product > 0.0
  {
  }

  function CodeAt(o: Vec, s: real, mask: nat): (code: Code)
    requires NonNegative(o) && s >= 0.0
    ensures |code| == |o|
  {
    seq(|o|, i requires 0 <= i < |o| => EntryOf(s, o[i], mask))
  }

  /** Scalar product of the magnitudes with the code's cell centres. */
  function Num(o: Vec, code: Code): real
    requires |o| == |code|
  {
    if o == [] then 0.0 else
      var n := |o| - 1;
      Num(o[..n], code[..n]) + (code[n] as real + 0.5) * o[n]
  }

  /** Squared norm of the cell centres. */
  function Den(code: Code): real {
    if code == [] then 0.0 else
      var n := |code| - 1;
      Den(code[..n]) + (code[n] as real + 0.5) * (code[n] as real + 0.5)
  }

  /** N / sqrt(D) > M / sqrt(E), for non-negative numerators and positive denominators. */
  predicate Greater(n: real, d: real, m: real, e: real) {
    n * n * e > m * m * d
  }

  lemma {:induction false} GreaterIsGreater(n: real, d: real, m: real, e: real, rootD: real, rootE: real)
    requires n >= 0.0 && m >= 0.0 && rootD > 0.0 && rootE > 0.0 && rootD * rootD == d && rootE * rootE == e
    ensures Greater(n, d, m, e) <==> n / rootD > m / rootE
  {
    var a, b := n / rootD, m / rootE;
    assert a * rootD == n && b * rootE == m;
    Squares(a, b, rootD, rootE, n, m, d, e);
    CompareSquares(a, b);
    assert a >= 0.0 && b >= 0.0;
  }

  lemma {:induction false} Squares(a: real, b: real, p: real, q: real, n: real, m: real, d: real, e: real)
    requires n == a * p && m == b * q && d == p * p && e == q * q && p > 0.0 && q > 0.0
    ensures n * n * e > m * m * d <==> a * a > b * b
  {
    var k := d * e;
    PositiveProduct(p, p, d);
    PositiveProduct(q, q, e);
    PositiveProduct(d, e, k);
    assert n * n * e == a * a * k;
    assert m * m * d == b * b * k;
    CompareScaled(a * a, b * b, k);
  }

  lemma {:induction false} CompareScaled(a: real, b: real, k: real)
    requires k > 0.0
    ensures a * k > b * k <==> a > b
  {
    if a > b { PositiveProduct(a - b, k, a * k - b * k); }
    else { NonNegativeProduct(b - a, k, b * k - a * k); }
  }

  lemma {:induction false} CompareSquares(a: real, b: real)
    ensures a >= 0.0 && b >= 0.0 ==> (a * a > b * b <==> a > b)
  {
    if a >= 0.0 && b >= 0.0 {
      if a > b {
        PositiveProduct(a - b, a + b, a * a - b * b);
      }
      else { assert a * a <= a * b && a * b <= b * b; }
    }
  }

  predicate Better(o: Vec, a: Code, b: Code)
    requires |a| == |b| == |o|
  {
    Greater(Num(o, a), Den(a), Num(o, b), Den(b))
  }

  lemma {:induction false} NumNonNegative(o: Vec, code: Code)
    requires |o| == |code| && NonNegative(o)
    ensures Num(o, code) >= 0.0
    decreases |o|
  {
    if o == [] {
    } else {
      var n := |o| - 1;
      NumNonNegative(o[..n], code[..n]);
      NonNegativeProduct(code[n] as real + 0.5, o[n], (code[n] as real + 0.5) * o[n]);
    }
  }

  lemma {:induction false} DenPositive(code: Code)
    ensures Den(code) >= 0.0 && (code != [] ==> Den(code) > 0.0)
    decreases |code|
  {
    if code == [] {
    } else {
      var n := |code| - 1;
      DenPositive(code[..n]);
      var v := code[n] as real + 0.5;
      PositiveProduct(v, v, v * v);
    }
  }

  // One entry steps up.
  lemma {:induction false} NumStep(o: Vec, code: Code, i: nat)
    requires |o| == |code| && i < |o|
    ensures Num(o, code[i := code[i] + 1]) == Num(o, code) + o[i]
    decreases |o|
  {
    var n := |o| - 1;
    var next := code[i := code[i] + 1];
    if i == n {
      assert next[..n] == code[..n];
      assert (code[n] as real + 1.0 + 0.5) * o[n] == (code[n] as real + 0.5) * o[n] + o[n];
    } else {
      assert next[..n] == code[..n][i := code[i] + 1];
      NumStep(o[..n], code[..n], i);
    }
  }

  lemma {:induction false} DenStep(code: Code, i: nat)
    requires i < |code|
    ensures Den(code[i := code[i] + 1]) == Den(code) + 2.0 * (code[i] + 1) as real
    decreases |code|
  {
    var n := |code| - 1;
    var next := code[i := code[i] + 1];
    if i == n {
      assert next[..n] == code[..n];
      var v := code[n] as real + 0.5;
      assert (v + 1.0) * (v + 1.0) == v * v + 2.0 * v + 1.0;
    } else {
      assert next[..n] == code[..n][i := code[i] + 1];
      DenStep(code[..n], i);
    }
  }

  // ---- Comparing objectives ----

  lemma {:induction false} Monotone(a: real, b: real, k: real)
    requires a <= b && k >= 0.0
    ensures a * k <= b * k
  {
    NonNegativeProduct(b - a, k, b * k - a * k);
  }

  // A step of a zero entry only lengthens the code.
  lemma {:induction false} ZeroStepNoBetter(n: real, d: real, step: real)
    requires step >= 0.0
    ensures !Greater(n, d + step, n, d)
  {
    var n2 := n * n;
    assert n2 >= 0.0 by { if n >= 0.0 { NonNegativeProduct(n, n, n2); } else { NonNegativeProduct(-n, -n, n2); } }
    NonNegativeProduct(n2, step, n2 * (d + step) - n2 * d);
  }

  /**
   * Steps at one scale: once one of them improves the objective, so does the next. With the scale x, o1 = c1 / x and
   * o2 = c2 / x.
   */
  lemma {:induction false} TiedStepsImprove(n: real, d: real, o1: real, c1: real, o2: real, c2: real)
    requires n >= 0.0 && d > 0.0 && o1 > 0.0 && c1 > 0.0 && o2 > 0.0 && c2 > 0.0 && c1 * o2 == c2 * o1
    requires Greater(n + o1, d + 2.0 * c1, n, d)
    ensures Greater(n + o1 + o2, d + 2.0 * c1 + 2.0 * c2, n + o1, d + 2.0 * c1)
  {
    hide Greater;
    var x := c1 / o1;
    assert o1 * x == c1;
    assert o2 * x == c2 by { assert o2 * c1 == c2 * o1; assert o2 * x * o1 == o2 * c1; }
    assert x > 0.0;
    var a := n * x;
    NonNegativeProduct(n, x, a);
    Rescale(n + o1, d + 2.0 * c1, n, d, x, a + c1, a);
    TiedScaled(a, d, c1, c2);
    Rescale(n + o1 + o2, d + 2.0 * c1 + 2.0 * c2, n + o1, d + 2.0 * c1, x, a + c1 + c2, a + c1);
  }

  lemma {:induction false} Rescale(n: real, d: real, m: real, e: real, x: real, u: real, v: real)
    requires x > 0.0 && u == n * x && v == m * x
    ensures Greater(n, d, m, e) <==> Greater(u, d, v, e)
  {
    var k := x * x;
    PositiveProduct(x, x, k);
    assert u * u * e == n * n * e * k && v * v * d == m * m * d * k;
    CompareScaled(n * n * e, m * m * d, k);
  }

  lemma {:induction false} TiedScaled(a: real, d: real, c1: real, c2: real)
    requires a >= 0.0 && d > 0.0 && c1 > 0.0 && c2 > 0.0
    requires Greater(a + c1, d + 2.0 * c1, a, d)
    ensures Greater(a + c1 + c2, d + 2.0 * c1 + 2.0 * c2, a + c1, d + 2.0 * c1)
  {
    Improves(a, d, c1);
    Small(a, d, c1);
    var b, e := a + c1, d + 2.0 * c1;
    NonNegativeProduct(b, e - b, -(b * (b - e)));
    PositiveProduct(c2, e, c2 * e);
    Improves(b, e, c2);
  }

  // A step of size c from numerator a improves exactly when c d > 2 a (a - d).
  lemma {:induction false} Improves(a: real, d: real, c: real)
    requires c > 0.0
    ensures Greater(a + c, d + 2.0 * c, a, d) <==> c * d > 2.0 * (a * (a - d))
  {
    assert (a + c) * (a + c) * d - a * a * (d + 2.0 * c) == c * (c * d - 2.0 * (a * (a - d))) by {
      assert (a + c) * (a + c) * d == a * a * d + 2.0 * (a * c * d) + c * c * d;
      assert a * a * (d + 2.0 * c) == a * a * d + 2.0 * (a * a * c);
      assert c * (c * d - 2.0 * (a * (a - d))) == c * c * d - 2.0 * (a * a * c) + 2.0 * (a * c * d);
    }
    var z := c * d - 2.0 * (a * (a - d));
    CompareScaled(z, 0.0, c);
  }

  lemma {:induction false} Small(a: real, d: real, c: real)
    requires a >= 0.0 && d > 0.0 && c > 0.0 && c * d > 2.0 * (a * (a - d))
    ensures a - d - c <= 0.0
  {
    if a > d {
      var g := a - d;
      assert a * g >= d * g by { Monotone(d, a, g); }
      assert c * d > g * d;
      CompareScaled(c, g, d);
    }
  }

  // ---- The sweep ----

  /** Every step of every entry, once. */
  ghost predicate Complete(events: seq<Event>, o: Vec, mask: nat) {
    forall e :: multiset(events)[e] == if Proper(e, o, mask) then 1 else 0
  }

  ghost predicate Ordered(events: seq<Event>, o: Vec) {
    && (forall k :: 0 <= k < |events| ==> events[k].i < |o|)
    && forall a, b :: 0 <= a < b < |events| ==> NotAfter(o, events[a], events[b])
  }

  ghost predicate Schedule(events: seq<Event>, o: Vec, mask: nat) {
    NonNegative(o) && Complete(events, o, mask) && Ordered(events, o)
  }

  /** The code after the first `k` events. */
  function After(n: nat, events: seq<Event>, k: nat): (code: Code)
    requires k <= |events| && forall j :: 0 <= j < k ==> events[j].i < n
    ensures |code| == n
  {
    if k == 0 then Zeros(n) else
      var before := After(n, events, k - 1);
      var i := events[k - 1].i;
      before[i := before[i] + 1]
  }

  lemma {:induction false} OnceEach(events: seq<Event>, o: Vec, mask: nat)
    requires Complete(events, o, mask)
    ensures forall e :: e in events <==> Proper(e, o, mask)
    ensures forall a, b :: 0 <= a < b < |events| ==> events[a] != events[b]
  {
    forall e ensures e in events <==> Proper(e, o, mask) {
      assert e in events <==> multiset(events)[e] > 0;
    }
    forall a, b | 0 <= a < b < |events| ensures events[a] != events[b] { TwiceIsTwo(events, a, b); }
  }

  lemma {:induction false} TwiceIsTwo(events: seq<Event>, a: nat, b: nat)
    requires a < b < |events|
    ensures events[a] == events[b] ==> multiset(events)[events[a]] >= 2
  {
    var p := events[..b];
    assert p[a] == events[a] && events[a] in p;
    assert multiset(p)[events[a]] >= 1;
    assert events == p + [events[b]] + events[b + 1..];
    assert multiset(events) == multiset(p) + multiset([events[b]]) + multiset(events[b + 1..]);
  }

  /** Entry i > 0 is the largest step already made; a zero entry has not moved while none of its steps was made. */
  ghost predicate Follows(o: Vec, mask: nat, events: seq<Event>, k: nat, code: Code) {
    && k <= |events| && |code| == |o|
    && forall i :: 0 <= i < |o| ==> Tracks(o, mask, events, k, i, code[i])
  }

  ghost predicate Tracks(o: Vec, mask: nat, events: seq<Event>, k: nat, i: nat, v: nat)
    requires k <= |events| && i < |o|
  {
    if o[i] > 0.0
    then v <= mask && forall c :: 1 <= c <= mask ==> (Event(c, i) in events[..k] <==> c <= v)
    else (forall c :: Event(c, i) !in events[..k]) ==> v == 0
  }

  lemma {:induction false} InPrefix(events: seq<Event>, k: nat, j: nat)
    requires k <= |events| && j < |events|
    ensures j < k ==> events[j] in events[..k]
  {
    if j < k { assert events[..k][j] == events[j]; }
  }

  lemma {:induction false} LaterSteps(o: Vec, mask: nat, events: seq<Event>, k: nat, f: Event)
    requires Schedule(events, o, mask) && k < |events| && o[events[k].i] > 0.0
    requires Proper(f, o, mask) && f.i == events[k].i && f !in events[..k]
    ensures events[k].c <= f.c
  {
    hide NotAfter;
    OnceEach(events, o, mask);
    assert f in events;
    var j :| 0 <= j < |events| && events[j] == f;
    InPrefix(events, k, j);
    assert j == k || NotAfter(o, events[k], f);
    if j != k { SameEntry(o, events[k], f); }
  }

  // The next step of a positive entry is one more than the last.
  lemma {:induction false} NextStep(o: Vec, mask: nat, events: seq<Event>, k: nat, v: nat)
    requires Schedule(events, o, mask) && k < |events| && o[events[k].i] > 0.0
    requires Tracks(o, mask, events, k, events[k].i, v)
    ensures events[k].c == v + 1 <= mask
  {
    var e := events[k];
    NotYet(o, mask, events, k);
    assert Event(e.c, e.i) !in events[..k];
    assert v < e.c;
    assert Event(v + 1, e.i) !in events[..k];
    hide Tracks;
    LaterSteps(o, mask, events, k, Event(v + 1, e.i));
  }

  lemma {:induction false} NotYet(o: Vec, mask: nat, events: seq<Event>, k: nat)
    requires Complete(events, o, mask) && k < |events|
    ensures events[k] !in events[..k] && Proper(events[k], o, mask)
  {
    OnceEach(events, o, mask);
    assert events[k] in events;
  }

  lemma {:induction false} SameEntry(o: Vec, e: Event, f: Event)
    requires e.i == f.i < |o| && o[e.i] > 0.0 && NotAfter(o, e, f)
    ensures e.c <= f.c
  {
    CompareScaled(e.c as real, f.c as real, o[e.i]);
  }

  lemma {:induction false} TracksNext(o: Vec, mask: nat, events: seq<Event>, k: nat, i: nat, v: nat)
    requires Schedule(events, o, mask) && k < |events| && i < |o| && Tracks(o, mask, events, k, i, v)
    ensures Tracks(o, mask, events, k + 1, i, if events[k].i == i then v + 1 else v)
  {
    var e := events[k];
    assert events[..k + 1] == events[..k] + [e];
    if o[i] > 0.0 {
      if e.i == i { NextStep(o, mask, events, k, v); }
    } else if e.i == i {
      assert Event(e.c, i) in events[..k + 1];
    } else {
      assert (forall c :: Event(c, i) !in events[..k + 1]) ==> forall c :: Event(c, i) !in events[..k];
    }
  }

  lemma {:induction false} AfterFollows(o: Vec, mask: nat, events: seq<Event>, k: nat)
    requires Schedule(events, o, mask) && k <= |events|
    ensures Follows(o, mask, events, k, After(|o|, events, k))
  {
    if k == 0 {
      assert events[..0] == [];
    } else {
      AfterFollows(o, mask, events, k - 1);
      var before, code := After(|o|, events, k - 1), After(|o|, events, k);
      forall i | 0 <= i < |o| ensures Tracks(o, mask, events, k, i, code[i]) {
        hide Tracks, Schedule;
        TracksNext(o, mask, events, k - 1, i, before[i]);
      }
    }
  }

  // ---- The code at a scale is a code of the sweep ----

  lemma {:induction false} ReachedEarlier(o: Vec, e: Event, f: Event, s: real)
    requires NonNegative(o) && e.i < |o| && f.i < |o| && f.c >= 1 && s >= 0.0
    requires Reached(o, f, s) && NotAfter(o, e, f)
    ensures Reached(o, e, s)
  {
    Earlier(e.c as real, o[e.i], f.c as real, o[f.i], s, s * o[f.i]);
  }

  lemma {:induction false} Earlier(a: real, oa: real, b: real, ob: real, s: real, sb: real)
    requires b >= 1.0 && oa >= 0.0 && ob >= 0.0 && s >= 0.0 && sb == s * ob && b <= sb && a * ob <= b * oa
    ensures a <= s * oa
  {
    assert ob == 0.0 ==> sb == 0.0;
    Monotone(b, sb, oa);
    assert a * ob <= (s * oa) * ob by { assert sb * oa == (s * oa) * ob; }
    CompareScaled(a, s * oa, ob);
  }

  /** Events up to `k` have happened at scale s, later ones have not. */
  ghost predicate Splits(o: Vec, events: seq<Event>, k: nat, s: real)
    requires forall j :: 0 <= j < |events| ==> events[j].i < |o|
  {
    && k <= |events|
    && (forall j :: 0 <= j < k ==> Reached(o, events[j], s))
    && (forall j :: k <= j < |events| ==> !Reached(o, events[j], s))
  }

  predicate AtMost(c: nat, v: real) { c as real <= v }

  lemma {:induction false} EntryIs(v: real, mask: nat, w: nat)
    requires v >= 0.0 && w <= mask && forall c: nat :: 1 <= c <= mask ==> (AtMost(c, v) <==> c <= w)
    ensures Entry(v, mask) == w
  {
    var e := Entry(v, mask);
    assert AtMost(e, v);
    assert e == 0 || e <= w;
    assert w == 0 || AtMost(w, v);
    assert w == 0 || w <= e;
  }

  lemma {:induction false} SplitIsCode(o: Vec, mask: nat, events: seq<Event>, k: nat, s: real)
    requires Schedule(events, o, mask) && s >= 0.0 && Splits(o, events, k, s)
    ensures After(|o|, events, k) == CodeAt(o, s, mask)
  {
    AfterFollows(o, mask, events, k);
    var code := After(|o|, events, k);
    forall i | 0 <= i < |o| ensures code[i] == CodeAt(o, s, mask)[i] {
      assert Tracks(o, mask, events, k, i, code[i]);
      NonNegativeProduct(s, o[i], s * o[i]);
      hide Tracks, Schedule, Splits, Entry;
      SplitEntry(o, mask, events, k, s, i, code[i], s * o[i]);
      CodeAtEntry(o, s, mask, i);
    }
  }

  lemma {:induction false} CodeAtEntry(o: Vec, s: real, mask: nat, i: nat)
    requires NonNegative(o) && s >= 0.0 && i < |o|
    ensures s * o[i] >= 0.0 && CodeAt(o, s, mask)[i] == Entry(s * o[i], mask)
  {
    NonNegativeProduct(s, o[i], s * o[i]);
  }

  lemma {:induction false} SplitEntry(o: Vec, mask: nat, events: seq<Event>, k: nat, s: real, i: nat, w: nat, v: real)
    requires Schedule(events, o, mask) && s >= 0.0 && Splits(o, events, k, s) && i < |o|
    requires Tracks(o, mask, events, k, i, w) && v == s * o[i] >= 0.0
    ensures Entry(v, mask) == w
  {
    if o[i] > 0.0 {
      forall c: nat | 1 <= c <= mask ensures AtMost(c, v) <==> c <= w {
        var e := Event(c, i);
        assert e in events[..k] <==> c <= w;
        hide Tracks;
        SplitAt(o, mask, events, k, s, e);
      }
      EntryIs(v, mask, w);
    } else {
      ZeroNeverSteps(o, mask, events, k, s, i);
      assert v == 0.0;
    }
  }

  lemma {:induction false} SplitAt(o: Vec, mask: nat, events: seq<Event>, k: nat, s: real, e: Event)
    requires Schedule(events, o, mask) && s >= 0.0 && Splits(o, events, k, s) && Proper(e, o, mask)
    ensures e in events[..k] <==> Reached(o, e, s)
  {
    OnceEach(events, o, mask);
    assert e in events;
    var j :| 0 <= j < |events| && events[j] == e;
    if j < k { assert events[..k][j] == e; }
  }

  lemma {:induction false} ZeroNeverSteps(o: Vec, mask: nat, events: seq<Event>, k: nat, s: real, i: nat)
    requires Schedule(events, o, mask) && s >= 0.0 && Splits(o, events, k, s) && i < |o| && o[i] == 0.0
    ensures forall c :: Event(c, i) !in events[..k]
  {
    assert s * o[i] == 0.0;
    forall c ensures Event(c, i) !in events[..k] { PrefixReached(o, mask, events, k, s, Event(c, i)); }
  }

  lemma {:induction false} PrefixReached(o: Vec, mask: nat, events: seq<Event>, k: nat, s: real, e: Event)
    requires Schedule(events, o, mask) && Splits(o, events, k, s) && e.i < |o|
    ensures e in events[..k] ==> e.c >= 1 && Reached(o, e, s)
  {
    OnceEach(events, o, mask);
    assert e in events[..k] ==> e in events;
  }

  /** At every scale the sweep has passed exactly the events of that scale. */
  lemma {:induction false} SplitExists(o: Vec, mask: nat, events: seq<Event>, s: real) returns (k: nat)
    requires Schedule(events, o, mask) && s >= 0.0
    ensures Splits(o, events, k, s)
  {
    OnceEach(events, o, mask);
    k := 0;
    while k < |events| && Reached(o, events[k], s)
      invariant k <= |events| && forall j :: 0 <= j < k ==> Reached(o, events[j], s)
    {
      k := k + 1;
    }
    forall j | k <= j < |events| ensures !Reached(o, events[j], s) {
      if Reached(o, events[j], s) && k < j {
        assert events[j] in events;
        ReachedEarlier(o, events[k], events[j], s);
      }
    }
  }

  // ---- The best code so far ----

  ghost predicate Best(o: Vec, events: seq<Event>, k: nat, m: nat)
    requires Ordered(events, o)
  {
    && m <= k <= |events|
    && (forall j :: 0 <= j <= k ==> !Better(o, After(|o|, events, j), After(|o|, events, m)))
    && (m > 0 ==> o[events[m - 1].i] > 0.0 && Better(o, After(|o|, events, m), After(|o|, events, m - 1)))
    && (0 < m < k ==> !NotAfter(o, events[m], events[m - 1]))
  }

  lemma {:induction false} StepSums(o: Vec, events: seq<Event>, k: nat)
    requires Ordered(events, o) && k < |events|
    ensures var i, before, code := events[k].i, After(|o|, events, k), After(|o|, events, k + 1);
            && code[i] == before[i] + 1
            && Num(o, code) == Num(o, before) + o[i]
            && Den(code) == Den(before) + 2.0 * code[i] as real
  {
    hide NotAfter;
    var i, before := events[k].i, After(|o|, events, k);
    NumStep(o, before, i);
    DenStep(before, i);
  }

  lemma {:induction false} Chained(n: real, d: real, b2: real, bd: real, k: real, kd: real)
    requires d > 0.0 && bd > 0.0 && kd > 0.0 && k * bd <= b2 * kd && n * bd > b2 * d
    ensures n * kd > k * d
  {
    var p, q := n * bd, b2 * d;
    CompareScaled(p, q, kd);
    Monotone(k * bd, b2 * kd, d);
    assert p * kd == (n * kd) * bd && q * kd == (b2 * kd) * d && (k * bd) * d == (k * d) * bd;
    CompareScaled(n * kd, k * d, bd);
  }

  // Better than the best is better than everything the best was not worse than.
  lemma {:induction false} BetterStill(o: Vec, c: Code, best: Code, code: Code)
    requires |c| == |best| == |code| == |o| > 0
    requires !Better(o, c, best) && Better(o, code, best)
    ensures Better(o, code, c)
  {
    DenPositive(c);
    DenPositive(best);
    DenPositive(code);
    hide Num, Den;
    var n, b, k := Num(o, code), Num(o, best), Num(o, c);
    Chained(n * n, Den(code), b * b, Den(best), k * k, Den(c));
  }

  lemma {:induction false} BetterAsymmetric(o: Vec, a: Code, b: Code)
    requires |a| == |b| == |o|
    ensures Better(o, a, b) ==> !Better(o, b, a)
    ensures !Better(o, a, a)
  {
    hide Num, Den;
  }

  lemma {:induction false} BestNew(o: Vec, mask: nat, events: seq<Event>, k: nat, m: nat)
    requires Schedule(events, o, mask) && k < |events| && Best(o, events, k, m)
    requires Better(o, After(|o|, events, k + 1), After(|o|, events, m))
    ensures Best(o, events, k + 1, k + 1) && o[events[k].i] > 0.0
  {
    hide Better, NotAfter, After, Complete;
    var next := k + 1;
    var code, best := After(|o|, events, next), After(|o|, events, m);
    forall j | 0 <= j <= next ensures !Better(o, After(|o|, events, j), code) {
      if j == next { BetterAsymmetric(o, code, code); }
      else {
        BetterStill(o, After(|o|, events, j), best, code);
        BetterAsymmetric(o, code, After(|o|, events, j));
      }
    }
    BetterStill(o, After(|o|, events, k), best, code);
    PositiveStep(o, events, k);
  }

  lemma {:induction false} PositiveStep(o: Vec, events: seq<Event>, k: nat)
    requires Ordered(events, o) && k < |events| && NonNegative(o)
    requires Better(o, After(|o|, events, k + 1), After(|o|, events, k))
    ensures o[events[k].i] > 0.0
  {
    StepSums(o, events, k);
    hide NotAfter, After, Num, Den;
    var before, code := After(|o|, events, k), After(|o|, events, k + 1);
    ZeroStepNoBetter(Num(o, before), Den(before), 2.0 * code[events[k].i] as real);
  }

  // Of two events at the same scale, if the first improves the objective so does the second.
  lemma {:induction false} TiedBetter(o: Vec, mask: nat, events: seq<Event>, k: nat)
    requires Schedule(events, o, mask) && 0 < k < |events| && o[events[k - 1].i] > 0.0
    requires Better(o, After(|o|, events, k), After(|o|, events, k - 1))
    ensures NotAfter(o, events[k], events[k - 1]) ==> Better(o, After(|o|, events, k + 1), After(|o|, events, k))
  {
    assert NotAfter(o, events[k - 1], events[k]);
    hide *;
    if NotAfter(o, events[k], events[k - 1]) { TiedImproves(o, mask, events, k); }
  }

  lemma {:induction false} TiedImproves(o: Vec, mask: nat, events: seq<Event>, k: nat)
    requires Schedule(events, o, mask) && 0 < k < |events| && o[events[k - 1].i] > 0.0
    requires Better(o, After(|o|, events, k), After(|o|, events, k - 1))
    requires NotAfter(o, events[k], events[k - 1]) && NotAfter(o, events[k - 1], events[k])
    ensures Better(o, After(|o|, events, k + 1), After(|o|, events, k))
  {
    hide NotAfter, After, Num, Den, Greater, Complete;
    var e, f := events[k - 1], events[k];
    NotYet(o, mask, events, k - 1);
    NotYet(o, mask, events, k);
    Tie(o, e, f);
    TiedPositive(e.c as real, o[e.i], f.c as real, o[f.i]);
    TiedSums(o, mask, events, k);
    NumNonNegative(o, After(|o|, events, k - 1));
    DenPositive(After(|o|, events, k - 1));
    TiedStepsImprove(Num(o, After(|o|, events, k - 1)), Den(After(|o|, events, k - 1)), o[e.i], e.c as real, o[f.i],
                     f.c as real);
  }

  lemma {:induction false} Tie(o: Vec, e: Event, f: Event)
    requires e.i < |o| && f.i < |o| && NotAfter(o, e, f) && NotAfter(o, f, e)
    ensures e.c as real * o[f.i] == f.c as real * o[e.i]
  {
  }

  lemma {:induction false} TiedPositive(c1: real, v1: real, c2: real, v2: real)
    requires c1 > 0.0 && v1 > 0.0 && c2 > 0.0 && v2 >= 0.0 && c1 * v2 == c2 * v1
    ensures v2 > 0.0
  {
    PositiveProduct(c2, v1, c2 * v1);
    assert v2 == 0.0 ==> c1 * v2 == 0.0;
  }

  lemma {:induction false} TiedSums(o: Vec, mask: nat, events: seq<Event>, k: nat)
    requires Schedule(events, o, mask) && 0 < k < |events|
    requires o[events[k - 1].i] > 0.0 && o[events[k].i] > 0.0
    ensures var a, b, c := After(|o|, events, k - 1), After(|o|, events, k), After(|o|, events, k + 1);
            var e, f := events[k - 1], events[k];
            && Num(o, b) == Num(o, a) + o[e.i] && Den(b) == Den(a) + 2.0 * e.c as real
            && Num(o, c) == Num(o, a) + o[e.i] + o[f.i] && Den(c) == Den(a) + 2.0 * e.c as real + 2.0 * f.c as real
  {
    StepCount(o, mask, events, k - 1);
    StepCount(o, mask, events, k);
    StepSums(o, events, k - 1);
    StepSums(o, events, k);
    hide *;
  }

  // An event of a positive entry brings the entry to the event's step.
  lemma {:induction false} StepCount(o: Vec, mask: nat, events: seq<Event>, k: nat)
    requires Schedule(events, o, mask) && k < |events| && o[events[k].i] > 0.0
    ensures After(|o|, events, k)[events[k].i] + 1 == events[k].c
  {
    AfterFollows(o, mask, events, k);
    hide After, Tracks;
    NextStep(o, mask, events, k, After(|o|, events, k)[events[k].i]);
  }

  lemma {:induction false} BestSame(o: Vec, mask: nat, events: seq<Event>, k: nat, m: nat)
    requires Schedule(events, o, mask) && k < |events| && Best(o, events, k, m)
    requires !Better(o, After(|o|, events, k + 1), After(|o|, events, m))
    ensures Best(o, events, k + 1, m)
  {
    hide Better, NotAfter, After, Complete;
    if 0 < m == k { TiedBetter(o, mask, events, k); }
  }

  function StepScale(o: Vec, e: Event): real
    requires e.i < |o| && o[e.i] > 0.0
  {
    e.c as real / o[e.i]
  }

  /** `x` is the scale of the last of the first `m` events. */
  ghost predicate ScaleOf(o: Vec, events: seq<Event>, m: nat, x: real)
    requires Ordered(events, o)
  {
    m <= |events| && x >= 0.0 && if m == 0 then x == 0.0 else x * o[events[m - 1].i] == events[m - 1].c as real
  }

  lemma {:induction false} ScaleNonNegative(o: Vec, events: seq<Event>, m: nat, x: real)
    requires Ordered(events, o) && ScaleOf(o, events, m, x)
    ensures x >= 0.0
  {
  }

  lemma {:induction false} StepIsScale(o: Vec, events: seq<Event>, k: nat)
    requires Ordered(events, o) && k < |events| && o[events[k].i] > 0.0
    ensures ScaleOf(o, events, k + 1, StepScale(o, events[k]))
  {
    hide NotAfter;
    Quotient(events[k].c, o[events[k].i]);
  }

  lemma {:induction false} Quotient(c: nat, v: real)
    requires v > 0.0
    ensures c as real / v >= 0.0 && (c as real / v) * v == c as real
  {
  }

  // ---- The recorded scale produces the recorded code ----

  lemma {:induction false} ReachedTies(o: Vec, e: Event, p: Event, x: real)
    requires NonNegative(o) && e.i < |o| && p.i < |o| && o[p.i] > 0.0 && x * o[p.i] == p.c as real
    ensures Reached(o, e, x) ==> NotAfter(o, e, p)
    ensures Reached(o, p, x)
  {
    if Reached(o, e, x) {
      Monotone(e.c as real, x * o[e.i], o[p.i]);
      assert (x * o[e.i]) * o[p.i] == (x * o[p.i]) * o[e.i];
    }
  }

  lemma {:induction false} BestAttained(o: Vec, mask: nat, events: seq<Event>, m: nat, x: real)
    requires Schedule(events, o, mask) && Best(o, events, |events|, m) && x >= 0.0
    requires ScaleOf(o, events, m, x)
    ensures After(|o|, events, m) == CodeAt(o, x, mask)
  {
    forall j | 0 <= j < m ensures Reached(o, events[j], x) { PassedAt(o, mask, events, m, x, j); }
    forall j | m <= j < |events| ensures !Reached(o, events[j], x) { AheadAt(o, mask, events, m, x, j); }
    hide Reached, NotAfter, Best, Complete;
    SplitIsCode(o, mask, events, m, x);
  }

  lemma {:induction false} PassedAt(o: Vec, mask: nat, events: seq<Event>, m: nat, x: real, j: nat)
    requires Schedule(events, o, mask) && Best(o, events, |events|, m) && x >= 0.0 && j < m
    requires ScaleOf(o, events, m, x)
    ensures Reached(o, events[j], x)
  {
    hide NotAfter, Reached, Complete, Better, After;
    NotYet(o, mask, events, m - 1);
    ReachedTies(o, events[m - 1], events[m - 1], x);
    if j < m - 1 { ReachedEarlier(o, events[j], events[m - 1], x); }
  }

  lemma {:induction false} AheadAt(o: Vec, mask: nat, events: seq<Event>, m: nat, x: real, j: nat)
    requires Schedule(events, o, mask) && Best(o, events, |events|, m) && x >= 0.0 && m <= j < |events|
    requires ScaleOf(o, events, m, x)
    ensures !Reached(o, events[j], x)
  {
    NotYet(o, mask, events, j);
    if m == 0 {
      assert x * o[events[j].i] == 0.0;
    } else {
      hide NotAfter, Reached, Better, After, Complete;
      ReachedTies(o, events[m], events[m - 1], x);
      assert !NotAfter(o, events[m], events[m - 1]);
      LaterUnreached(o, events[m], events[j], x, m == j);
    }
  }

  lemma {:induction false} LaterUnreached(o: Vec, e: Event, f: Event, x: real, same: bool)
    requires NonNegative(o) && e.i < |o| && f.i < |o| && f.c >= 1 && x >= 0.0
    requires !Reached(o, e, x) && if same then e == f else NotAfter(o, e, f)
    ensures !Reached(o, f, x)
  {
    hide NotAfter, Reached;
    if !same && Reached(o, f, x) { ReachedEarlier(o, e, f, x); }
  }

  /** The recorded scale is the best scale: no other scale gives a code with a greater objective. */
  lemma {:induction false} BestIsOptimal(o: Vec, mask: nat, events: seq<Event>, m: nat, x: real, s: real)
    requires Schedule(events, o, mask) && Best(o, events, |events|, m) && x >= 0.0 && s >= 0.0
    requires ScaleOf(o, events, m, x)
    ensures !Better(o, CodeAt(o, s, mask), CodeAt(o, x, mask))
  {
    hide Better, NotAfter, CodeAt, After;
    BestAttained(o, mask, events, m, x);
    var k := SplitExists(o, mask, events, s);
    SplitIsCode(o, mask, events, k, s);
  }

  // ---- The search itself ----

  lemma {:induction false} OrderTransitive(o: Vec, e: Event, f: Event, g: Event)
    requires NonNegative(o) && e.i < |o| && f.i < |o| && g.i < |o| && e.c >= 1 && f.c >= 1 && g.c >= 1
    requires NotAfter(o, e, f) && NotAfter(o, f, g)
    ensures NotAfter(o, e, g)
  {
    Between(e.c as real, o[e.i], f.c as real, o[f.i], g.c as real, o[g.i]);
  }

  lemma {:induction false} Between(a: real, oa: real, b: real, ob: real, c: real, oc: real)
    requires a >= 1.0 && b >= 1.0 && c >= 1.0 && oa >= 0.0 && ob >= 0.0 && oc >= 0.0
    requires a * ob <= b * oa && b * oc <= c * ob
    ensures a * oc <= c * oa
  {
    Monotone(a * ob, b * oa, c);
    Monotone(b * oc, c * ob, a);
    assert (a * ob) * c == (c * ob) * a && (b * oc) * a == (a * oc) * b && (b * oa) * c == (c * oa) * b;
    CompareScaled(a * oc, c * oa, b);
  }

  ghost predicate Usable(events: seq<Event>, o: Vec) {
    forall k :: 0 <= k < |events| ==> events[k].i < |o| && events[k].c >= 1
  }

  /** An ordering by scale, whatever becomes of ties. */
  method SortEvents(o: Vec, events: seq<Event>) returns (sorted: seq<Event>)
    requires NonNegative(o) && Usable(events, o)
    ensures Ordered(sorted, o) && Usable(sorted, o) && multiset(sorted) == multiset(events)
  {
    sorted := [];
    for k := 0 to |events|
      invariant Ordered(sorted, o) && Usable(sorted, o) && multiset(sorted) == multiset(events[..k])
    {
      assert events[..k + 1] == events[..k] + [events[k]];
      sorted := InsertEvent(o, sorted, events[k]);
    }
    assert events[..|events|] == events;
  }

  method InsertEvent(o: Vec, sorted: seq<Event>, e: Event) returns (r: seq<Event>)
    requires NonNegative(o) && Ordered(sorted, o) && Usable(sorted, o) && e.i < |o| && e.c >= 1
    ensures Ordered(r, o) && Usable(r, o) && multiset(r) == multiset(sorted) + multiset{e}
  {
    var at := |sorted|;
    while at > 0 && !NotAfter(o, sorted[at - 1], e)
      invariant 0 <= at <= |sorted| && forall j :: at <= j < |sorted| ==> NotAfter(o, e, sorted[j])
    {
      at := at - 1;
    }
    r := sorted[..at] + [e] + sorted[at..];
    assert sorted == sorted[..at] + sorted[at..];
    InsertOrdered(o, sorted, e, at);
  }

  lemma {:induction false} InsertOrdered(o: Vec, sorted: seq<Event>, e: Event, at: nat)
    requires NonNegative(o) && Ordered(sorted, o) && Usable(sorted, o) && e.i < |o| && e.c >= 1 && at <= |sorted|
    requires at > 0 ==> NotAfter(o, sorted[at - 1], e)
    requires forall j :: at <= j < |sorted| ==> NotAfter(o, e, sorted[j])
    ensures Ordered(sorted[..at] + [e] + sorted[at..], o)
  {
    hide NotAfter;
    var r := sorted[..at] + [e] + sorted[at..];
    forall j | 0 <= j < at ensures NotAfter(o, sorted[j], e) {
      if j < at - 1 { OrderTransitive(o, sorted[j], sorted[at - 1], e); }
    }
    forall a, b | 0 <= a < b < |r| ensures NotAfter(o, r[a], r[b]) {
      assert r[a] == if a < at then sorted[a] else if a == at then e else sorted[a - 1];
      assert r[b] == if b < at then sorted[b] else if b == at then e else sorted[b - 1];
    }
  }

  /** All the steps, entry by entry. */
  method AllEvents(o: Vec, mask: nat) returns (events: seq<Event>)
    ensures Complete(events, o, mask)
  {
    events := [];
    for i := 0 to |o|
      invariant forall e :: multiset(events)[e] == if e.i < i && 1 <= e.c <= mask then 1 else 0
    {
      var c := 1;
      while c <= mask
        invariant 1 <= c <= mask + 1
        invariant forall e :: multiset(events)[e] ==
                              if (e.i < i && 1 <= e.c <= mask) || (e.i == i && 1 <= e.c < c) then 1 else 0
      {
        events := events + [Event(c, i)];
        c := c + 1;
      }
    }
  }

  lemma {:induction false} StartSums(o: Vec)
    ensures Num(o, Zeros(|o|)) == 0.5 * Sum(o)
    ensures Den(Zeros(|o|)) == 0.25 * |o| as real
    decreases |o|
  {
    if o == [] {
    } else {
      var n := |o| - 1;
      StartSums(o[..n]);
      assert Zeros(|o|)[..n] == Zeros(n);
    }
  }

  // The objective at scale zero.
  method Start(o: Vec) returns (numerator: real, denominator: real)
    ensures numerator == Num(o, Zeros(|o|)) && denominator == Den(Zeros(|o|))
  {
    numerator, denominator := 0.0, 0.0;
    for i := 0 to |o|
      invariant numerator == 0.5 * Sum(o[..i]) && denominator == 0.25 * i as real
    {
      assert o[..i + 1][..i] == o[..i];
      numerator, denominator := numerator + 0.5 * o[i], denominator + 0.5 * 0.5;
    }
    assert o[..|o|] == o;
    StartSums(o);
  }

  /** No scale gives a code with a greater objective. */
  ghost predicate Optimal(o: Vec, x: real, mask: nat) {
    NonNegative(o) && x >= 0.0 && forall s :: s >= 0.0 ==> !Better(o, CodeAt(o, s, mask), CodeAt(o, x, mask))
  }

  /** `x` is zero or the scale of a step. */
  ghost predicate AtStep(o: Vec, mask: nat, x: real) {
    x == 0.0 || exists e :: Proper(e, o, mask) && o[e.i] > 0.0 && x * o[e.i] == e.c as real
  }

  lemma {:induction false} BestAtStep(o: Vec, mask: nat, events: seq<Event>, m: nat, x: real)
    requires Schedule(events, o, mask) && Best(o, events, |events|, m) && ScaleOf(o, events, m, x)
    ensures AtStep(o, mask, x)
  {
    hide Better, NotAfter, After;
    if m > 0 { assert events[m - 1] in events; }
  }

  /** The loop over the events. The numerator and squared denominator always equal their direct sums. */
  method Sweep(o: Vec, mask: nat, events: seq<Event>) returns (x: real)
    requires Schedule(events, o, mask)
    ensures Optimal(o, x, mask) && AtStep(o, mask, x)
  {
    assert NonNegative(o) && Ordered(events, o) && forall k :: 0 <= k < |events| ==> events[k].i < |o|;
    hide *;
    var code := Zeros(|o|);
    var numerator, denominator := Start(o);
    var bestN, bestD := numerator, denominator;
    x := 0.0;
    ghost var m := 0;
    NothingSwept(o, events);
    for k := 0 to |events|
      invariant Best(o, events, k, m) && m <= k
      invariant Swept(o, events, k, code, numerator, denominator)
      invariant Swept(o, events, m, After(|o|, events, m), bestN, bestD)
      invariant ScaleOf(o, events, m, x)
    {
      var e := events[k];
      SweepNext(o, events, k, code, numerator, denominator);
      code := code[e.i := code[e.i] + 1];
      numerator, denominator := numerator + o[e.i], denominator + 2.0 * code[e.i] as real;
      SweptCompare(o, events, k + 1, code, numerator, denominator, m, bestN, bestD);
      if Greater(numerator, denominator, bestN, bestD) {
        BestNew(o, mask, events, k, m);
        StepIsScale(o, events, k);
        bestN, bestD, x, m := numerator, denominator, StepScale(o, e), k + 1;
      } else {
        BestSame(o, mask, events, k, m);
      }
    }
    AllOptimal(o, mask, events, m, x);
    BestAtStep(o, mask, events, m, x);
  }

  lemma {:induction false} AllOptimal(o: Vec, mask: nat, events: seq<Event>, m: nat, x: real)
    requires Schedule(events, o, mask) && Best(o, events, |events|, m) && ScaleOf(o, events, m, x)
    ensures Optimal(o, x, mask)
  {
    ScaleNonNegative(o, events, m, x);
    hide Better, CodeAt, NotAfter, Complete, Ordered, Best, ScaleOf;
    forall s | s >= 0.0 ensures !Better(o, CodeAt(o, s, mask), CodeAt(o, x, mask)) {
      BestIsOptimal(o, mask, events, m, x, s);
    }
  }

  /** The returned scale is `epsilon` above the best one, which is zero or a step. */
  method FindScale(o: Vec, mask: nat, epsilon: real) returns (scale: real)
    requires NonNegative(o)
    ensures Optimal(o, scale - epsilon, mask) && AtStep(o, mask, scale - epsilon)
  {
    hide Better, CodeAt, NotAfter, Complete, Ordered, Optimal, AtStep;
    var raw := AllEvents(o, mask);
    RawUsable(raw, o, mask);
    var events := SortEvents(o, raw);
    SortedComplete(raw, events, o, mask);
    var x := Sweep(o, mask, events);
    scale := x + epsilon;
    assert scale - epsilon == x;
  }

  lemma {:induction false} RawUsable(raw: seq<Event>, o: Vec, mask: nat)
    requires Complete(raw, o, mask)
    ensures Usable(raw, o)
  {
    OnceEach(raw, o, mask);
    forall k | 0 <= k < |raw| ensures raw[k].i < |o| && raw[k].c >= 1 { assert raw[k] in raw; }
  }

  lemma {:induction false} SortedComplete(raw: seq<Event>, events: seq<Event>, o: Vec, mask: nat)
    requires Complete(raw, o, mask) && multiset(raw) == multiset(events)
    ensures Complete(events, o, mask)
  {
  }

  /** The loop's state after `k` events: the code and the direct sums of its objective. */
  ghost predicate Swept(o: Vec, events: seq<Event>, k: nat, code: Code, n: real, d: real)
    requires Ordered(events, o)
  {
    k <= |events| && code == After(|o|, events, k) && n == Num(o, code) && d == Den(code)
  }

  lemma {:induction false} NothingSwept(o: Vec, events: seq<Event>)
    requires Ordered(events, o)
    ensures Swept(o, events, 0, Zeros(|o|), Num(o, Zeros(|o|)), Den(Zeros(|o|)))
    ensures Best(o, events, 0, 0) && After(|o|, events, 0) == Zeros(|o|) && ScaleOf(o, events, 0, 0.0)
  {
    BetterAsymmetric(o, Zeros(|o|), Zeros(|o|));
    hide Better, NotAfter;
  }

  lemma {:induction false} SweepNext(o: Vec, events: seq<Event>, k: nat, code: Code, n: real, d: real)
    requires Ordered(events, o) && k < |events| && Swept(o, events, k, code, n, d)
    ensures events[k].i < |o| == |code|
    ensures var i := events[k].i;
            var next := code[i := code[i] + 1];
            Swept(o, events, k + 1, next, n + o[i], d + 2.0 * next[i] as real)
  {
    StepSums(o, events, k);
    hide NotAfter, Num, Den;
  }

  lemma {:induction false} SweptCompare(o: Vec, events: seq<Event>, k: nat, code: Code, n: real, d: real, m: nat,
                                        bn: real, bd: real)
    requires Ordered(events, o) && Swept(o, events, k, code, n, d) && m <= |events|
    requires Swept(o, events, m, After(|o|, events, m), bn, bd)
    ensures k <= |events| && code == After(|o|, events, k)
    ensures Greater(n, d, bn, bd) <==> Better(o, After(|o|, events, k), After(|o|, events, m))
  {
    hide Greater, NotAfter, Num, Den, After;
  }

  // ---- Above the best scale ----

  /** A step of `epsilon` up from `x` crosses no step of any entry. */
  predicate Clear(o: Vec, x: real, epsilon: real, mask: nat) {
    forall i :: 0 <= i < |o| ==> ClearEntry(x, o[i], epsilon, mask)
  }

  predicate ClearEntry(x: real, v: real, epsilon: real, mask: nat) {
    (x * v).Floor < mask ==> (x + epsilon) * v < (x * v).Floor as real + 1.0
  }

  lemma {:induction false} EntryKept(x: real, v: real, epsilon: real, mask: nat)
    requires x >= 0.0 && epsilon > 0.0 && v >= 0.0
    ensures ClearEntry(x, v, epsilon, mask) <==> EntryOf(x + epsilon, v, mask) == EntryOf(x, v, mask)
  {
    var w, more := x * v, epsilon * v;
    NonNegativeProduct(x, v, w);
    NonNegativeProduct(epsilon, v, more);
    assert (x + epsilon) * v == w + more;
  }

  /** Exactly then the code stays the same. */
  lemma {:induction false} ClearKeepsCode(o: Vec, x: real, epsilon: real, mask: nat)
    requires NonNegative(o) && x >= 0.0 && epsilon > 0.0
    ensures Clear(o, x, epsilon, mask) <==> CodeAt(o, x + epsilon, mask) == CodeAt(o, x, mask)
  {
    hide ClearEntry, EntryOf;
    var a, b := CodeAt(o, x + epsilon, mask), CodeAt(o, x, mask);
    forall i | 0 <= i < |o| ensures ClearEntry(x, o[i], epsilon, mask) <==> a[i] == b[i] {
      EntryKept(x, o[i], epsilon, mask);
    }
  }

  lemma {:induction false} EntryClearance(x: real, v: real, mask: nat) returns (delta: real)
    requires x >= 0.0 && v >= 0.0
    ensures delta > 0.0 && forall epsilon :: 0.0 < epsilon < delta ==> ClearEntry(x, v, epsilon, mask)
  {
    var w := x * v;
    var gap := w.Floor as real + 1.0 - w;
    delta := if v > 0.0 then gap / v else 1.0;
    forall epsilon | 0.0 < epsilon < delta ensures ClearEntry(x, v, epsilon, mask) {
      assert (x + epsilon) * v == w + epsilon * v;
      if v > 0.0 {
        assert delta * v == gap;
        CompareScaled(delta, epsilon, v);
      }
    }
  }

  /** Above every scale there is room for some step. */
  lemma {:induction false} Clearance(o: Vec, x: real, mask: nat) returns (delta: real)
    requires NonNegative(o) && x >= 0.0
    ensures delta > 0.0 && forall epsilon :: 0.0 < epsilon < delta ==> Clear(o, x, epsilon, mask)
    decreases |o|
  {
    if o == [] {
      delta := 1.0;
    } else {
      var n := |o| - 1;
      var rest := Clearance(o[..n], x, mask);
      var last := EntryClearance(x, o[n], mask);
      delta := if rest < last then rest else last;
      hide ClearEntry;
      forall epsilon | 0.0 < epsilon < delta ensures Clear(o, x, epsilon, mask) {
        assert Clear(o[..n], x, epsilon, mask) && ClearEntry(x, o[n], epsilon, mask);
        forall i | 0 <= i < |o| ensures ClearEntry(x, o[i], epsilon, mask) {
          if i < n { assert o[..n][i] == o[i]; }
        }
      }
    }
  }

  /** Different steps, zero included, are more than `epsilon` apart. */
  ghost predicate Apart(o: Vec, mask: nat, epsilon: real) {
    && (forall f :: Proper(f, o, mask) ==> epsilon * o[f.i] < f.c as real)
    && (forall e, f :: Proper(e, o, mask) && Proper(f, o, mask) ==> Distant(o, e, f, epsilon))
  }

  predicate Distant(o: Vec, e: Event, f: Event, epsilon: real)
    requires e.i < |o| && f.i < |o|
  {
    e.c as real * o[f.i] < f.c as real * o[e.i] ==>
      e.c as real * o[f.i] + epsilon * o[e.i] * o[f.i] < f.c as real * o[e.i]
  }

  lemma {:induction false} ApartEntry(o: Vec, mask: nat, epsilon: real, x: real, i: nat)
    requires NonNegative(o) && x >= 0.0 && AtStep(o, mask, x) && Apart(o, mask, epsilon) && i < |o|
    ensures ClearEntry(x, o[i], epsilon, mask)
  {
    assert o[i] >= 0.0;
    hide *;
    var w := x * o[i];
    NonNegativeProduct(x, o[i], w);
    if w.Floor >= mask {
      Clamped(x, o[i], epsilon, mask);
    } else if x == 0.0 {
      ApartFirst(o, mask, epsilon, i, w.Floor + 1);
      FirstBelow(o[i], epsilon, mask, w, w.Floor + 1);
    } else {
      ApartStep(o, mask, epsilon, x, i, StepAt(o, mask, x), w);
      NextBelow(x, o[i], epsilon, mask, w.Floor + 1);
    }
  }

  /** The step at scale `x`. */
  ghost function StepAt(o: Vec, mask: nat, x: real): (e: Event)
    requires AtStep(o, mask, x) && x != 0.0
    ensures Proper(e, o, mask) && o[e.i] > 0.0 && x * o[e.i] == e.c as real
  {
    var e :| Proper(e, o, mask) && o[e.i] > 0.0 && x * o[e.i] == e.c as real;
    e
  }

  lemma {:induction false} ApartFirst(o: Vec, mask: nat, epsilon: real, i: nat, c: nat)
    requires Apart(o, mask, epsilon) && i < |o| && 1 <= c <= mask
    ensures epsilon * o[i] < c as real
  {
    hide Distant;
    assert Proper(Event(c, i), o, mask);
  }

  lemma {:induction false} ApartStep(o: Vec, mask: nat, epsilon: real, x: real, i: nat, e: Event, w: real)
    requires Apart(o, mask, epsilon) && i < |o| && w == x * o[i] && 0 <= w.Floor < mask
    requires Proper(e, o, mask) && o[e.i] > 0.0 && x * o[e.i] == e.c as real
    ensures (x + epsilon) * o[i] < w.Floor as real + 1.0
  {
    var f := Event(w.Floor + 1, i);
    assert Proper(f, o, mask);
    assert Distant(o, e, f, epsilon);
    hide Proper, Apart;
    StepBelow(x, o[e.i], o[i], e.c as real, f.c as real, epsilon);
  }

  lemma {:induction false} Clamped(x: real, v: real, epsilon: real, mask: nat)
    requires (x * v).Floor >= mask
    ensures ClearEntry(x, v, epsilon, mask)
  {
  }

  lemma {:induction false} NextBelow(x: real, v: real, epsilon: real, mask: nat, c: nat)
    requires c == (x * v).Floor + 1 && (x + epsilon) * v < c as real
    ensures ClearEntry(x, v, epsilon, mask)
  {
  }

  lemma {:induction false} FirstBelow(v: real, epsilon: real, mask: nat, w: real, c: nat)
    requires w == 0.0 * v && c == w.Floor + 1 && epsilon * v < c as real
    ensures ClearEntry(0.0, v, epsilon, mask)
  {
    assert (0.0 + epsilon) * v == epsilon * v;
  }

  lemma {:induction false} StepBelow(x: real, oe: real, oi: real, c: real, d: real, epsilon: real)
    requires oe > 0.0 && x * oe == c && x * oi < d
    requires c * oi < d * oe ==> c * oi + epsilon * oe * oi < d * oe
    ensures (x + epsilon) * oi < d
  {
    var w := x * oi;
    CompareScaled(d, w, oe);
    assert c * oi == w * oe;
    var t := (x + epsilon) * oi;
    assert t * oe == c * oi + epsilon * oe * oi;
    CompareScaled(d, t, oe);
  }

  /** If steps are further apart than `epsilon`, going up from any of them by `epsilon` crosses none. */
  lemma {:induction false} ApartIsClear(o: Vec, mask: nat, epsilon: real, x: real)
    requires NonNegative(o) && x >= 0.0 && AtStep(o, mask, x) && Apart(o, mask, epsilon)
    ensures Clear(o, x, epsilon, mask)
  {
    hide ClearEntry, Apart, AtStep;
    forall i | 0 <= i < |o| ensures ClearEntry(x, o[i], epsilon, mask) {
      ApartEntry(o, mask, epsilon, x, i);
    }
  }

  // ---- Between the codes just below a scale and at it ----

  /** `hi` is `lo` with some entries, whose step is at `s`, raised by one. */
  ghost predicate Raised(o: Vec, lo: Code, hi: Code, s: real)
    requires |o| == |lo| == |hi|
  {
    forall i :: 0 <= i < |o| ==> RaisedEntry(lo[i], hi[i], o[i], s)
  }

  predicate RaisedEntry(lo: nat, hi: nat, v: real, s: real) {
    hi == lo || (hi == lo + 1 && hi as real == s * v)
  }

  lemma {:induction false} RaisedSums(o: Vec, lo: Code, hi: Code, s: real) returns (c: real)
    requires |o| == |lo| == |hi| && Raised(o, lo, hi, s)
    ensures c >= 0.0 && (c == 0.0 ==> hi == lo)
    ensures Num(o, hi) * s == Num(o, lo) * s + c && Den(hi) == Den(lo) + 2.0 * c
    decreases |o|
  {
    hide *;
    if o == [] {
      c := 0.0;
      assert hi == lo;
    } else {
      var n := |o| - 1;
      var u, v := (hi[n] as real + 0.5) * o[n], (lo[n] as real + 0.5) * o[n];
      RaisedPrefix(o, lo, hi, s);
      var rest := RaisedSums(o[..n], lo[..n], hi[..n], s);
      var step := if hi[n] == lo[n] then 0.0 else hi[n] as real;
      c := rest + step;
      RaisedLast(lo[n], hi[n], o[n], s, u, v);
      RaisedJoin(Num(o[..n], hi[..n]), Num(o[..n], lo[..n]), u, v, s, rest, step);
      LastSums(o, lo);
      LastSums(o, hi);
      assert lo == lo[..n] + [lo[n]] && hi == hi[..n] + [hi[n]];
    }
  }

  lemma {:induction false} RaisedPrefix(o: Vec, lo: Code, hi: Code, s: real)
    requires |o| == |lo| == |hi| > 0 && Raised(o, lo, hi, s)
    ensures var n := |o| - 1;
            && Raised(o[..n], lo[..n], hi[..n], s)
            && RaisedEntry(lo[n], hi[n], o[n], s)
  {
  }

  lemma {:induction false} LastSums(o: Vec, code: Code)
    requires |o| == |code| > 0
    ensures var n := |o| - 1;
            && Num(o, code) == Num(o[..n], code[..n]) + (code[n] as real + 0.5) * o[n]
            && Den(code) == Den(code[..n]) + (code[n] as real + 0.5) * (code[n] as real + 0.5)
  {
  }

  lemma {:induction false} RaisedJoin(p: real, q: real, u: real, v: real, s: real, c: real, step: real)
    requires p * s == q * s + c && u * s == v * s + step
    ensures (p + u) * s == (q + v) * s + (c + step)
  {
    assert (p + u) * s == p * s + u * s && (q + v) * s == q * s + v * s;
  }

  lemma {:induction false} RaisedLast(lo: nat, hi: nat, o: real, s: real, u: real, v: real)
    requires RaisedEntry(lo, hi, o, s)
    requires u == (hi as real + 0.5) * o && v == (lo as real + 0.5) * o
    ensures hi == lo || hi == lo + 1
    ensures var step, a, b := if hi == lo then 0.0 else hi as real, lo as real + 0.5, hi as real + 0.5;
            u * s == v * s + step && b * b == a * a + 2.0 * step
  {
  }

  // Once raising entries at one scale improves the objective, so does raising more of them.
  lemma {:induction false} TiedRaise(o: Vec, below: Code, code: Code, at: Code, s: real)
    requires |o| == |below| == |code| == |at| > 0 && NonNegative(o) && s > 0.0
    requires Raised(o, below, code, s) && Raised(o, code, at, s) && Better(o, code, below)
    ensures at == code || Better(o, at, code)
  {
    hide *;
    var c1 := RaisedSums(o, below, code, s);
    var c2 := RaisedSums(o, code, at, s);
    BetterAsymmetric(o, code, below);
    if c2 > 0.0 { TiedGreater(o, below, code, at, s, c1, c2); }
  }

  lemma {:induction false} TiedGreater(o: Vec, below: Code, code: Code, at: Code, s: real, c1: real, c2: real)
    requires |o| == |below| == |code| == |at| > 0 && NonNegative(o) && s > 0.0
    requires c1 > 0.0 && c2 > 0.0 && Better(o, code, below)
    requires Num(o, code) * s == Num(o, below) * s + c1 && Den(code) == Den(below) + 2.0 * c1
    requires Num(o, at) * s == Num(o, code) * s + c2 && Den(at) == Den(code) + 2.0 * c2
    ensures Better(o, at, code)
  {
    hide Num, Den, Greater, NonNegative;
    NumNonNegative(o, below);
    DenPositive(below);
    var a, d := Num(o, below) * s, Den(below);
    NonNegativeProduct(Num(o, below), s, a);
    Rescale(Num(o, code), d + 2.0 * c1, Num(o, below), d, s, a + c1, a);
    TiedScaled(a, d, c1, c2);
    Rescale(Num(o, at), d + 2.0 * c1 + 2.0 * c2, Num(o, code), d + 2.0 * c1, s, a + c1 + c2, a + c1);
  }

  /** If neither the code just below a scale nor the code at it is better, then neither is any code between them. */
  lemma {:induction false} BetweenNoBetter(o: Vec, below: Code, code: Code, at: Code, best: Code, s: real)
    requires |o| == |below| == |code| == |at| == |best| && NonNegative(o) && s > 0.0
    requires Raised(o, below, code, s) && Raised(o, code, at, s)
    requires !Better(o, below, best) && !Better(o, at, best)
    ensures !Better(o, code, best)
  {
    if o != [] && Better(o, code, best) {
      hide *;
      BetterStill(o, below, best, code);
      TiedRaise(o, below, code, at, s);
      BetterStill(o, at, best, code);
      BetterAsymmetric(o, code, at);
    }
  }
}
