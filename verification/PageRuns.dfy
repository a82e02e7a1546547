/** Runs of consecutive pages inside one GPU arena, as maps from start page to length:
    what it means for free and allocated runs to tile the arena, and what follows. */
module PageRuns {

  type Runs = map<nat, nat>

  /** The page just after a run. */
  ghost function End(runs: Runs, s: nat): nat
    requires s in runs
  {
    s + runs[s]
  }

  /** Every run is nonempty, inside the arena and disjoint from the runs after it. */
  ghost predicate Disjoint(total: nat, runs: Runs) {
    && (forall s :: s in runs ==> runs[s] > 0 && s + runs[s] <= total)
    && (forall s, t :: s in runs && t in runs && s < t ==> s + runs[s] <= t)
  }

  /** The first run starts at page 0 and every run ends where the next one starts. */
  ghost predicate Tiles(total: nat, runs: Runs) {
    && (total > 0 ==> 0 in runs)
    && (forall s {:trigger End(runs, s)} :: s in runs ==> End(runs, s) == total || End(runs, s) in runs)
  }

  /** No free run ends where another free run starts. */
  ghost predicate Coalesced(free: Runs) {
    forall s {:trigger End(free, s)} :: s in free ==> End(free, s) !in free
  }

  /** Free and allocated runs partition the arena, with free runs as long as possible. */
  ghost predicate Partition(total: nat, free: Runs, taken: Runs) {
    && free.Keys !! taken.Keys
    && Disjoint(total, free + taken)
    && Tiles(total, free + taken)
    && Coalesced(free)
  }

  // Walking the tiling from run p reaches the run that ends at s.
  lemma {:induction false} Predecessor(total: nat, runs: Runs, p: nat, s: nat) returns (q: nat)
    requires Disjoint(total, runs) && Tiles(total, runs)
    requires p in runs && s in runs && p < s
    ensures q in runs && q + runs[q] == s
    decreases s - p
  {
    if End(runs, p) == s {
      q := p;
    } else {
      q := Predecessor(total, runs, p + runs[p], s);
    }
  }

  // Every page lies in a run at or after p.
  lemma {:induction false} Owner(total: nat, runs: Runs, p: nat, b: nat) returns (q: nat)
    requires Disjoint(total, runs) && Tiles(total, runs)
    requires p in runs && p <= b < total
    ensures q in runs && q <= b < q + runs[q]
    decreases b - p
  {
    if b < End(runs, p) {
      q := p;
    } else {
      q := Owner(total, runs, p + runs[p], b);
    }
  }

  /** Page `b` belongs to some run of `runs`. */
  ghost predicate Covers(runs: Runs, b: nat) {
    exists s :: s in runs && s <= b < s + runs[s]
  }

  /** In a partition each page is in exactly one of the two families. */
  lemma {:induction false} PartitionSplitsPages(total: nat, free: Runs, taken: Runs, b: nat)
    requires Partition(total, free, taken) && b < total
    ensures Covers(free, b) <==> !Covers(taken, b)
  {
    var all := free + taken;
    var q := Owner(total, all, 0, b);
    assert forall s :: s in free ==> s in all && all[s] == free[s];
    assert forall s :: s in taken ==> s in all && all[s] == taken[s];
  }

  /** No run touches the `n` pages from `p`. */
  ghost predicate Vacant(runs: Runs, p: nat, n: nat) {
    forall s :: s in runs ==> s + runs[s] <= p || p + n <= s
  }

  /** Pages that no allocated run touches lie in one free run: free runs are as long as possible. */
  lemma {:induction false} VacantInRun(total: nat, free: Runs, taken: Runs, p: nat, n: nat) returns (s: nat)
    requires Partition(total, free, taken) && n > 0 && p + n <= total && Vacant(taken, p, n)
    ensures s in free && s <= p && p + n <= s + free[s]
    decreases n
  {
    var last := p + n - 1;
    PartitionSplitsPages(total, free, taken, last);
    assert !Covers(taken, last);
    var t :| t in free && t <= last < t + free[t];
    s := t;
    if t > p {
      s := VacantInRun(total, free, taken, p, n - 1);
      assert (free + taken)[s] == free[s] && (free + taken)[t] == free[t];
      assert End(free, s) !in free;
    }
  }

  /** A free run is vacant. */
  lemma {:induction false} RunIsVacant(total: nat, free: Runs, taken: Runs, s: nat)
    requires Partition(total, free, taken) && s in free
    ensures Vacant(taken, s, free[s]) && s + free[s] <= total
  {
    var all := free + taken;
    assert all[s] == free[s];
    forall t | t in taken ensures t + taken[t] <= s || s + free[s] <= t {
      assert all[t] == taken[t] && s != t;
    }
  }

  lemma {:induction false} EndMerged(f: Runs, g: Runs, q: nat)
    requires f.Keys !! g.Keys
    ensures q in f ==> End(f + g, q) == End(f, q)
    ensures q in g ==> End(f + g, q) == End(g, q)
  {
  }

  // A free run that is not at page 0 starts where an allocated run ends.
  lemma {:induction false} FreeAfterTaken(total: nat, f: Runs, taken: Runs, s: nat) returns (q: nat)
    requires Partition(total, f, taken) && s in f && s > 0
    ensures q in taken && End(taken, q) == s
  {
    var all := f + taken;
    q := Predecessor(total, all, 0, s);
    EndMerged(f, taken, q);
  }

  // The free runs of one partition start where those of every other with the same allocated runs do.
  lemma {:induction false} FreeStartsDetermined(total: nat, f: Runs, g: Runs, taken: Runs, s: nat)
    requires Partition(total, f, taken) && Partition(total, g, taken) && s in f
    ensures s in g
  {
    var ga := g + taken;
    assert s !in taken && s < total by { assert (f + taken)[s] == f[s]; }
    if s > 0 {
      var q := FreeAfterTaken(total, f, taken, s);
      assert End(ga, q) == s;
    }
  }

  // ... and end there too: at the next allocated run or the end of the arena.
  lemma {:induction false} FreeEnd(total: nat, f: Runs, taken: Runs, s: nat)
    requires Partition(total, f, taken) && s in f
    ensures End(f, s) <= total && (End(f, s) == total || End(f, s) in taken)
    ensures forall t :: t in taken && s < t ==> End(f, s) <= t
  {
    var all := f + taken;
    assert End(all, s) == End(f, s);
    assert forall t :: t in taken ==> t in all && all[t] == taken[t];
  }

  lemma {:induction false} FreeRunsDetermined(total: nat, f: Runs, g: Runs, taken: Runs, s: nat)
    requires Partition(total, f, taken) && Partition(total, g, taken)
    requires s in f
    ensures s in g && g[s] == f[s]
  {
    FreeStartsDetermined(total, f, g, taken, s);
    FreeEnd(total, f, taken, s);
    FreeEnd(total, g, taken, s);
    assert f[s] > 0 && g[s] > 0 by { assert (f + taken)[s] == f[s] && (g + taken)[s] == g[s]; }
    hide Partition;
    assert End(f, s) == End(g, s);
  }

  /** The free runs are a function of the allocated runs: history leaves no trace. */
  lemma {:induction false} FreeIsCanonical(total: nat, f: Runs, g: Runs, taken: Runs)
    requires Partition(total, f, taken) && Partition(total, g, taken)
    ensures f == g
  {
    forall s | s in f ensures s in g && g[s] == f[s] { FreeRunsDetermined(total, f, g, taken, s); }
    forall s | s in g ensures s in f && g[s] == f[s] { FreeRunsDetermined(total, g, f, taken, s); }
  }

  /** With nothing allocated there is exactly one free run, the whole arena. */
  lemma {:induction false} NothingAllocated(total: nat, free: Runs)
    requires total > 0 && Partition(total, free, map[])
    ensures free == map[0 := total]
  {
    assert Partition(total, map[0 := total], map[]);
    FreeIsCanonical(total, free, map[0 := total], map[]);
  }

  /** Total length of a family of runs. */
  ghost function Sum(runs: Runs): nat {
    if runs == map[] then 0 else
      var k :| k in runs;
      runs[k] + Sum(runs - {k})
  }

  lemma {:induction false} SumRemove(runs: Runs, k: nat)
    requires k in runs
    ensures Sum(runs) == runs[k] + Sum(runs - {k})
    decreases |runs|
  {
    var j :| j in runs && Sum(runs) == runs[j] + Sum(runs - {j});
    if j != k {
      SumRemove(runs - {j}, k);
      SumRemove(runs - {k}, j);
      assert runs - {j} - {k} == runs - {k} - {j};
    }
  }

  lemma {:induction false} SumAdd(runs: Runs, k: nat, n: nat)
    requires k !in runs
    ensures Sum(runs[k := n]) == Sum(runs) + n
  {
    SumRemove(runs[k := n], k);
    assert runs[k := n] - {k} == runs;
  }

  lemma {:induction false} MergeRemove(f: Runs, g: Runs, k: nat)
    requires f.Keys !! g.Keys && k in g
    ensures (f + g) - {k} == f + (g - {k})
  {
  }

  lemma {:induction false} SumMerge(f: Runs, g: Runs)
    requires f.Keys !! g.Keys
    ensures Sum(f + g) == Sum(f) + Sum(g)
    decreases |g|
  {
    if g == map[] {
      assert f + g == f;
    } else {
      var k :| k in g;
      var h := g - {k};
      assert Sum(f + h) == Sum(f) + Sum(h) by { SumMerge(f, h); }
      assert Sum(g) == g[k] + Sum(h) by { SumRemove(g, k); }
      assert Sum(f + g) == g[k] + Sum(f + h) by {
        SumRemove(f + g, k);
        MergeRemove(f, g, k);
      }
    }
  }

  /** The runs that start at page p or later. */
  ghost function From(runs: Runs, p: nat): Runs {
    map s | s in runs && s >= p :: runs[s]
  }

  lemma {:induction false} FromNext(total: nat, runs: Runs, p: nat)
    requires Disjoint(total, runs) && p in runs
    ensures From(runs, p) - {p} == From(runs, p + runs[p])
  {
  }

  lemma {:induction false} SumEmpty()
    ensures Sum(map[]) == 0
  {
  }

  // The runs from p on add up to the rest of the arena.
  lemma {:induction false} SumFrom(total: nat, runs: Runs, p: nat)
    requires Disjoint(total, runs) && Tiles(total, runs)
    requires p == total || p in runs
    ensures Sum(From(runs, p)) == total - p
    decreases total - p
  {
    hide Sum;
    if p == total {
      assert From(runs, p) == map[];
      SumEmpty();
    } else {
      SumFrom(total, runs, End(runs, p));
      FromNext(total, runs, p);
      SumRemove(From(runs, p), p);
    }
  }

  /** Conservation: free and allocated pages add up to the arena. */
  lemma {:induction false} PagesConserved(total: nat, free: Runs, taken: Runs)
    requires Partition(total, free, taken)
    ensures Sum(free) + Sum(taken) == total
  {
    var all := free + taken;
    SumMerge(free, taken);
    if total == 0 {
      assert all == map[];
    } else {
      SumFrom(total, all, 0);
      assert From(all, 0) == all;
    }
  }
}
