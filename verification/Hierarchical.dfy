/**
 * Hierarchical clustering's two combinatorial parts: apportioning centroids to groups, and regrouping the rows of a
 * matrix in place.
 */
module Hierarchical {

  // ---- Apportionment ----

  /** A heap entry: the priority of a group is weight / (seats + 1/2). */
  datatype Quotient = Quotient(weight: nat, seats: nat, index: nat)

  /** a's priority is at least b's, cross-multiplied. */
  predicate AtLeast(a: Quotient, b: Quotient) {
    a.weight * (2 * b.seats + 1) >= b.weight * (2 * a.seats + 1)
  }

  lemma {:induction false} AtLeastTransitive(a: Quotient, b: Quotient, c: Quotient)
    requires AtLeast(a, b) && AtLeast(b, c)
    ensures AtLeast(a, c)
  {
    Transitive(a.weight, 2 * a.seats + 1, b.weight, 2 * b.seats + 1, c.weight, 2 * c.seats + 1);
  }

  lemma {:induction false} Transitive(a: nat, p: nat, b: nat, q: nat, c: nat, r: nat)
    requires p > 0 && q > 0 && r > 0 && a * q >= b * p && b * r >= c * q
    ensures a * r >= c * p
  {
    assert (a * q) * r >= (b * p) * r by { Scale(b * p, a * q, r); }
    assert (b * r) * p >= (c * q) * p by { Scale(c * q, b * r, p); }
    assert (a * q) * r == (a * r) * q && (b * p) * r == (b * r) * p && (c * q) * p == (c * p) * q;
    Unscale(c * p, a * r, q);
  }

  lemma {:induction false} Scale(a: nat, b: nat, k: nat)
    requires a <= b
    ensures a * k <= b * k
  {
    assert b * k == a * k + (b - a) * k;
  }

  lemma {:induction false} Unscale(a: nat, b: nat, k: nat)
    requires k > 0 && a * k <= b * k
    ensures a <= b
  {
    if b < a { Scale(b + 1, a, k); }
  }

  /** Removes an entry of the greatest priority. */
  method PopMax(heap: seq<Quotient>) returns (top: Quotient, rest: seq<Quotient>)
    requires heap != []
    ensures top in heap && multiset(heap) == multiset(rest) + multiset{top}
    ensures forall q :: q in heap ==> AtLeast(top, q)
  {
    var at := 0;
    for k := 1 to |heap|
      invariant 0 <= at < k && forall j :: 0 <= j < k ==> AtLeast(heap[at], heap[j])
    {
      if !AtLeast(heap[at], heap[k]) {
        forall j | 0 <= j < k ensures AtLeast(heap[k], heap[j]) {
          AtLeastTransitive(heap[k], heap[at], heap[j]);
        }
        at := k;
      }
    }
    top, rest := heap[at], heap[..at] + heap[at + 1..];
    assert heap == heap[..at] + [heap[at]] + heap[at + 1..];
  }

  function Total(seats: seq<nat>): nat {
    if seats == [] then 0 else Total(seats[..|seats| - 1]) + seats[|seats| - 1]
  }

  lemma {:induction false} TotalUpdate(seats: seq<nat>, i: nat, v: nat)
    requires i < |seats|
    ensures Total(seats[i := v]) == Total(seats) - seats[i] + v
  {
    var n := |seats| - 1;
    if i == n {
      assert seats[i := v][..n] == seats[..n];
    } else {
      assert seats[i := v][..n] == seats[..n][i := v];
      TotalUpdate(seats[..n], i, v);
    }
  }

  lemma {:induction false} TotalOnes(n: nat)
    ensures Total(seq(n, _ => 1)) == n
  {
    if n == 0 {
    } else {
      assert seq(n, _ => 1)[..n - 1] == seq(n - 1, _ => 1);
      TotalOnes(n - 1);
    }
  }

  /** One heap entry per group, with its present seats. */
  ghost predicate HeapOf(heap: seq<Quotient>, weight: seq<nat>, seats: seq<nat>) {
    |seats| == |weight| &&
    forall q :: multiset(heap)[q] == if Current(q, weight, seats) then 1 else 0
  }

  predicate Current(q: Quotient, weight: seq<nat>, seats: seq<nat>) {
    q.index < |weight| == |seats| && q.weight == weight[q.index] && q.seats == seats[q.index]
  }

  /** Every group has a seat, and no group would have had a better claim to another group's last extra seat. */
  ghost predicate Apportioned(weight: seq<nat>, seats: seq<nat>) {
    && |seats| == |weight|
    && (forall i :: 0 <= i < |seats| ==> seats[i] >= 1)
    && forall i, j :: 0 <= i < |seats| && 0 <= j < |seats| && seats[i] > 1 ==> Deserved(weight, seats, i, j)
  }

  /** weight[i] / (seats[i] - 1/2) >= weight[j] / (seats[j] + 1/2), cross-multiplied. */
  ghost predicate Deserved(weight: seq<nat>, seats: seq<nat>, i: nat, j: nat)
    requires i < |seats| == |weight| && j < |seats| && seats[i] >= 1
  {
    weight[i] * (2 * seats[j] + 1) >= weight[j] * (2 * seats[i] - 1)
  }

  lemma {:induction false} MoreSeats(weight: seq<nat>, seats: seq<nat>, p: nat)
    requires Apportioned(weight, seats) && p < |seats|
    requires forall j :: 0 <= j < |seats| ==> AtLeast(Quotient(weight[p], seats[p], p),
                                                      Quotient(weight[j], seats[j], j))
    ensures Apportioned(weight, seats[p := seats[p] + 1])
  {
    var next := seats[p := seats[p] + 1];
    forall i, j | 0 <= i < |next| && 0 <= j < |next| && next[i] > 1 ensures Deserved(weight, next, i, j) {
      if i == p {
        assert AtLeast(Quotient(weight[p], seats[p], p), Quotient(weight[j], seats[j], j));
        if j == p { Scale(2 * next[p] - 1, 2 * next[p] + 1, weight[p]); }
      } else {
        assert Deserved(weight, seats, i, j);
        if j == p { Scale(2 * seats[p] + 1, 2 * next[p] + 1, weight[i]); }
      }
    }
  }

  lemma {:induction false} HeapUpdated(heap: seq<Quotient>, rest: seq<Quotient>, top: Quotient, weight: seq<nat>,
                                       seats: seq<nat>)
    requires HeapOf(heap, weight, seats) && top in heap && multiset(heap) == multiset(rest) + multiset{top}
    ensures top.index < |weight| == |seats| && Current(top, weight, seats)
    ensures HeapOf(rest + [Quotient(top.weight, top.seats + 1, top.index)], weight, seats[top.index := top.seats + 1])
  {
    assert multiset(heap)[top] > 0;
    assert Current(top, weight, seats);
    var next, heap' := seats[top.index := top.seats + 1], rest + [Quotient(top.weight, top.seats + 1, top.index)];
    forall q ensures multiset(heap')[q] == if Current(q, weight, next) then 1 else 0 {
      assert multiset(rest)[q] == multiset(heap)[q] - (if q == top then 1 else 0);
      if q.index == top.index && Current(q, weight, seats) { assert q == top; }
    }
  }

  lemma {:induction false} HeapMember(heap: seq<Quotient>, weight: seq<nat>, seats: seq<nat>, j: nat)
    requires HeapOf(heap, weight, seats) && j < |weight|
    ensures Quotient(weight[j], seats[j], j) in heap
  {
    var q := Quotient(weight[j], seats[j], j);
    assert multiset(heap)[q] == 1;
  }

  /** Seats by highest quotients, after one seat each. */
  method ModifiedWebster(n: nat, weight: seq<nat>) returns (seats: seq<nat>)
    requires n >= |weight|
    ensures Apportioned(weight, seats)
    ensures Total(seats) == if weight == [] then 0 else n
  {
    seats := [];
    var heap: seq<Quotient> := [];
    for i := 0 to |weight|
      invariant seats == seq(i, _ => 1) && |heap| == i
      invariant forall k :: 0 <= k < i ==> heap[k] == Quotient(weight[k], 1, k)
    {
      seats, heap := seats + [1], heap + [Quotient(weight[i], 1, i)];
    }
    TotalOnes(|weight|);
    InitialHeap(heap, weight, seats);
    var k := |weight|;
    hide HeapOf, AtLeast, Deserved;
    while k < n
      invariant |weight| <= k <= n && HeapOf(heap, weight, seats) && Apportioned(weight, seats)
      invariant Total(seats) == if weight == [] then 0 else k
    {
      if heap == [] {
        EmptyHeap(weight, seats);
        return;
      }
      var top, rest := PopMax(heap);
      forall j | 0 <= j < |seats|
        ensures AtLeast(top, Quotient(weight[j], seats[j], j))
      {
        HeapMember(heap, weight, seats, j);
      }
      HeapUpdated(heap, rest, top, weight, seats);
      MoreSeats(weight, seats, top.index);
      TotalUpdate(seats, top.index, top.seats + 1);
      heap := rest + [Quotient(top.weight, top.seats + 1, top.index)];
      seats, k := seats[top.index := top.seats + 1], k + 1;
    }
  }

  lemma {:induction false} EmptyHeap(weight: seq<nat>, seats: seq<nat>)
    requires HeapOf([], weight, seats)
    ensures weight == []
  {
    if weight != [] { HeapMember([], weight, seats, 0); }
  }

  lemma {:induction false} InitialHeap(heap: seq<Quotient>, weight: seq<nat>, seats: seq<nat>)
    requires |heap| == |weight| == |seats| && forall k :: 0 <= k < |heap| ==>
               heap[k] == Quotient(weight[k], seats[k], k)
    ensures HeapOf(heap, weight, seats)
  {
    forall q ensures multiset(heap)[q] == if Current(q, weight, seats) then 1 else 0 {
      InitialCount(heap, weight, seats, q);
    }
  }

  lemma {:induction false} InitialCount(heap: seq<Quotient>, weight: seq<nat>, seats: seq<nat>, q: Quotient)
    requires |heap| <= |weight| == |seats| && forall k :: 0 <= k < |heap| ==>
               heap[k] == Quotient(weight[k], seats[k], k)
    ensures multiset(heap)[q] == if Current(q, weight, seats) && q.index < |heap| then 1 else 0
    decreases |heap|
  {
    if heap == [] {
    } else {
      var n := |heap| - 1;
      assert heap == heap[..n] + [heap[n]];
      InitialCount(heap[..n], weight, seats, q);
    }
  }

  /**
   * The apportionment minimizes the greatest remaining claim: however else the same number of seats is dealt with one
   * each at least, some group is left with a claim as strong as any left here.
   */
  lemma {:induction false} LeastClaims(weight: seq<nat>, seats: seq<nat>, other: seq<nat>, j: nat) returns (i: nat)
    requires Apportioned(weight, seats) && |other| == |seats| && Total(other) == Total(seats) && j < |seats|
    requires forall k :: 0 <= k < |other| ==> other[k] >= 1
    ensures i < |weight| && AtLeast(Quotient(weight[i], other[i], i), Quotient(weight[j], seats[j], j))
  {
    if other[j] <= seats[j] {
      i := j;
      Scale(2 * other[j] + 1, 2 * seats[j] + 1, weight[j]);
    } else {
      i := SomewhereFewer(seats, other, j);
      assert Deserved(weight, seats, i, j);
      Scale(2 * other[i] + 1, 2 * seats[i] - 1, weight[j]);
    }
  }

  lemma {:induction false} SomewhereFewer(seats: seq<nat>, other: seq<nat>, j: nat) returns (i: nat)
    requires |other| == |seats| && Total(other) == Total(seats) && j < |seats| && other[j] > seats[j]
    ensures i < |seats| && other[i] < seats[i]
  {
    if forall k :: 0 <= k < |seats| ==> other[k] >= seats[k] {
      NowhereFewer(seats, other, j);
    }
    i :| 0 <= i < |seats| && other[i] < seats[i];
  }

  lemma {:induction false} NowhereFewer(seats: seq<nat>, other: seq<nat>, j: nat)
    requires |other| == |seats| && j < |seats| && forall k :: 0 <= k < |seats| ==> other[k] >= seats[k]
    ensures Total(other) - other[j] >= Total(seats) - seats[j]
  {
    var n := |seats| - 1;
    if n == 0 {
    } else {
      NowhereFewer(seats[..n], other[..n], if j < n then j else 0);
    }
  }

  // ---- Regrouping rows in place ----

  function Flatten(groups: seq<seq<nat>>): seq<nat> {
    if groups == [] then [] else Flatten(groups[..|groups| - 1]) + groups[|groups| - 1]
  }

  predicate Permutation(p: seq<nat>, n: nat) {
    && |p| == n
    && (forall k :: 0 <= k < n ==> p[k] < n)
    && forall a, b :: 0 <= a < b < n ==> p[a] != p[b]
  }

  /** Marked rows are in their final place, unmarked rows are untouched. */
  ghost predicate Placed<T>(cur: seq<T>, was: seq<T>, p: seq<nat>, marked: seq<bool>)
    requires |cur| == |was| == |p| == |marked| && forall k :: 0 <= k < |p| ==> p[k] < |p|
  {
    forall k :: 0 <= k < |cur| ==> cur[k] == if marked[k] then was[p[k]] else was[k]
  }

  /** A marked row's successor in its cycle is marked too, except for the start `i` of an open cycle. */
  ghost predicate Closed(p: seq<nat>, marked: seq<bool>, i: int)
    requires |p| == |marked| && forall k :: 0 <= k < |p| ==> p[k] < |p|
  {
    forall k :: 0 <= k < |p| && marked[p[k]] && p[k] != i ==> marked[k]
  }

  function Unmarked(marked: seq<bool>): nat {
    if marked == [] then 0 else Unmarked(marked[..|marked| - 1]) + if marked[|marked| - 1] then 0 else 1
  }

  lemma {:induction false} MarkOne(marked: seq<bool>, k: nat)
    requires k < |marked| && !marked[k]
    ensures Unmarked(marked[k := true]) + 1 == Unmarked(marked)
  {
    var n := |marked| - 1;
    if k == n {
      assert marked[k := true][..n] == marked[..n];
    } else {
      assert marked[k := true][..n] == marked[..n][k := true];
      MarkOne(marked[..n], k);
    }
  }

  /** The walk has reached `dst`, which is not marked yet, from `prev`. */
  ghost predicate Walking(p: seq<nat>, marked: seq<bool>, i: nat, prev: nat, dst: nat) {
    && Permutation(p, |marked|) && i < |p| && dst < |p| && !marked[dst] && Closed(p, marked, i)
    && (dst == i || (marked[i] && prev < |p| && marked[prev] && p[prev] == dst))
  }

  lemma {:induction false} WalkOn(p: seq<nat>, marked: seq<bool>, i: nat, prev: nat, dst: nat)
    requires Walking(p, marked, i, prev, dst)
    ensures p[dst] != i ==> !marked[p[dst]] && Walking(p, marked[dst := true], i, dst, p[dst])
    ensures p[dst] == i ==> marked[dst := true][i] && Closed(p, marked[dst := true], -1)
  {
    var next := marked[dst := true];
    forall k | 0 <= k < |p| && next[p[k]] && p[k] != i ensures next[k] {
      if p[k] == dst { assert k == prev; } else { assert marked[p[k]]; }
    }
    if p[dst] == i {
      forall k | 0 <= k < |p| && next[p[k]] ensures next[k] {
        if p[k] == i { assert k == dst; }
      }
    } else {
      assert !marked[p[dst]];
      assert dst != i ==> prev != dst && p[prev] == dst;
    }
  }

  lemma {:induction false} PlaceOne<T>(cur: seq<T>, was: seq<T>, p: seq<nat>, marked: seq<bool>, dst: nat, v: T)
    requires |cur| == |was| == |p| == |marked| && (forall k :: 0 <= k < |p| ==> p[k] < |p|)
    requires Placed(cur, was, p, marked) && dst < |p| && v == was[p[dst]]
    ensures Placed(cur[dst := v], was, p, marked[dst := true])
  {
  }

  /** Follows one cycle from the unmarked row `i`. */
  method FollowCycle<T>(a: array<T>, p: seq<nat>, marked: seq<bool>, i: nat, ghost was: seq<T>)
      returns (next: seq<bool>)
    requires Permutation(p, a.Length) && |marked| == |was| == a.Length && i < a.Length && !marked[i]
    requires Placed(a[..], was, p, marked) && Closed(p, marked, -1)
    modifies a
    ensures |next| == a.Length && next[i] && Placed(a[..], was, p, next) && Closed(p, next, -1)
    ensures forall k :: 0 <= k < |marked| && marked[k] ==> next[k]
  {
    next := marked;
    var buffer := a[i];
    assert buffer == was[i] && forall k :: 0 <= k < |p| ==> p[k] < |p|;
    var src, dst := p[i], i;
    ghost var prev := i;
    while src != i
      invariant |next| == a.Length && dst < a.Length && src == p[dst]
      invariant Walking(p, next, i, prev, dst) && Placed(a[..], was, p, next)
      invariant forall k :: 0 <= k < |marked| && marked[k] ==> next[k]
      decreases Unmarked(next)
    {
      MarkOne(next, dst);
      WalkOn(p, next, i, prev, dst);
      assert a[..][src] == was[src];
      hide Walking, Closed, Unmarked;
      PlaceOne(a[..], was, p, next, dst, a[src]);
      hide Placed;
      ghost var before := a[..];
      a[dst] := a[src];
      assert a[..] == before[dst := before[src]];
      next := next[dst := true];
      prev, src, dst := dst, p[src], src;
    }
    WalkOn(p, next, i, prev, dst);
    PlaceOne(a[..], was, p, next, dst, buffer);
    hide Placed, Closed, Walking;
    ghost var before := a[..];
    a[dst] := buffer;
    assert a[..] == before[dst := buffer];
    next := next[dst := true];
  }

  /** Rows regrouped in place, and the row range of each group. */
  method Partition<T>(a: array<T>, groups: seq<seq<nat>>) returns (ranges: seq<(nat, nat)>)
    requires Permutation(Flatten(groups), a.Length)
    modifies a
    ensures forall k :: 0 <= k < a.Length ==> a[k] == old(a[..])[Flatten(groups)[k]]
    ensures |ranges| == |groups|
    ensures forall g :: 0 <= g < |groups| ==> GroupAt(a[..], old(a[..]), groups[g], ranges[g])
    ensures Contiguous(ranges, a.Length)
  {
    ghost var was := a[..];
    var p := Flatten(groups);
    var marked := seq(a.Length, _ => false);
    hide Flatten, GroupAt, Contiguous;
    for i := 0 to a.Length
      invariant |marked| == a.Length && Placed(a[..], was, p, marked) && Closed(p, marked, -1)
      invariant forall k :: 0 <= k < i ==> marked[k]
    {
      hide Placed, Closed;
      if !marked[i] { marked := FollowCycle(a, p, marked, i, was); }
    }
    assert forall k :: 0 <= k < a.Length ==> a[..][k] == was[p[k]];
    ranges := Split(groups, a[..], was);
  }

  // The matrix cut into consecutive windows as long as the groups.
  method Split<T>(groups: seq<seq<nat>>, ghost cur: seq<T>, ghost was: seq<T>) returns (ranges: seq<(nat, nat)>)
    requires |cur| == |was| == |Flatten(groups)|
    requires forall k :: 0 <= k < |cur| ==> Flatten(groups)[k] < |was| && cur[k] == was[Flatten(groups)[k]]
    ensures |ranges| == |groups| && Contiguous(ranges, |cur|)
    ensures forall g :: 0 <= g < |groups| ==> GroupAt(cur, was, groups[g], ranges[g])
  {
    ranges := [];
    var start := 0;
    for g := 0 to |groups|
      invariant |ranges| == g && start == |Flatten(groups[..g])| <= |cur|
      invariant forall h :: 0 <= h < g ==> GroupAt(cur, was, groups[h], ranges[h])
      invariant Contiguous(ranges, start)
    {
      FlattenPrefix(groups, g);
      var end := start + |groups[g]|;
      GroupPlaced(groups, cur, was, g, start);
      ContiguousNext(ranges, start, end);
      hide GroupAt, Contiguous, Flatten;
      ranges, start := ranges + [(start, end)], end;
    }
    assert groups[..|groups|] == groups;
  }

  lemma {:induction false} GroupPlaced<T>(groups: seq<seq<nat>>, cur: seq<T>, was: seq<T>, g: nat, start: nat)
    requires |cur| == |was| == |Flatten(groups)| && g < |groups| && start == |Flatten(groups[..g])|
    requires forall k :: 0 <= k < |cur| ==> Flatten(groups)[k] < |was| && cur[k] == was[Flatten(groups)[k]]
    ensures GroupAt(cur, was, groups[g], (start, start + |groups[g]|))
  {
    FlattenPrefix(groups, g);
    var p, q := Flatten(groups), Flatten(groups[..g + 1]);
    assert forall t :: 0 <= t < |q| ==> p[t] == q[t];
    assert q == Flatten(groups[..g]) + groups[g];
    hide Flatten;
    forall t | 0 <= t < |groups[g]| ensures groups[g][t] < |was| && cur[start + t] == was[groups[g][t]] {
      assert p[start + t] == q[start + t] == groups[g][t];
    }
  }

  /** The range holds exactly the group's rows, in the group's order. */
  ghost predicate GroupAt<T>(cur: seq<T>, was: seq<T>, group: seq<nat>, range: (nat, nat)) {
    && range.0 <= range.1 <= |cur| && range.1 - range.0 == |group|
    && forall t :: 0 <= t < |group| ==> group[t] < |was| && cur[range.0 + t] == was[group[t]]
  }

  /** The ranges follow one another from row 0 to `end`. */
  ghost predicate Contiguous(ranges: seq<(nat, nat)>, end: nat) {
    if ranges == [] then end == 0
    else
      var last := ranges[|ranges| - 1];
      last.1 == end && Contiguous(ranges[..|ranges| - 1], last.0)
  }

  lemma {:induction false} ContiguousNext(ranges: seq<(nat, nat)>, start: nat, end: nat)
    requires Contiguous(ranges, start)
    ensures Contiguous(ranges + [(start, end)], end)
  {
    assert (ranges + [(start, end)])[..|ranges|] == ranges;
  }

  lemma {:induction false} FlattenPrefix(groups: seq<seq<nat>>, g: nat)
    requires g < |groups|
    ensures Flatten(groups[..g + 1]) == Flatten(groups[..g]) + groups[g]
    ensures |Flatten(groups[..g + 1])| <= |Flatten(groups)|
            && Flatten(groups)[..|Flatten(groups[..g + 1])|] == Flatten(groups[..g + 1])
    decreases |groups|
  {
    assert groups[..g + 1][..g] == groups[..g];
    var n := |groups| - 1;
    if g < n {
      FlattenPrefix(groups[..n], g);
      assert groups[..n][..g + 1] == groups[..g + 1] && groups[..n][..g] == groups[..g] && groups[..n][g] == groups[g];
    } else {
      assert groups[..g + 1] == groups;
    }
  }
}
