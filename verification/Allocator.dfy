/** The best-fit page-run allocator of one GPU arena (`FixedBlockAllocator`): an address map,
    size buckets, two sorted lists and a counter, kept in step by every operation. */
module Allocator {
  import opened PageRuns

  datatype Option<+T> = None | Some(value: T)

  datatype ReleaseOutcome =
    | Released
    | InvalidBlocks   // not one nonempty contiguous run
    | ReleasedTwice   // no run was allocated at that page
    | WrongSize       // a run was allocated there, with another length

  /** The pages start, start + 1, ..., start + count - 1. */
  function Range(start: nat, count: nat): seq<nat> {
    seq(count, i => start + i)
  }

  ghost predicate Increasing(a: seq<nat>) {
    forall i, j :: 0 <= i < j < |a| ==> a[i] < a[j]
  }

  /** Position of the first element that is not below `x`. */
  function BisectLeft(a: seq<nat>, x: nat): (i: nat)
    requires Increasing(a)
    ensures i <= |a|
    ensures forall j :: 0 <= j < i ==> a[j] < x
    ensures forall j :: i <= j < |a| ==> x <= a[j]
  {
    if |a| == 0 || a[|a| - 1] < x then |a| else BisectLeft(a[..|a| - 1], x)
  }

  /** The sorted list with `x` put at its place. */
  function Insort(a: seq<nat>, x: nat): (b: seq<nat>)
    requires Increasing(a) && x !in a
    ensures Increasing(b)
    ensures forall y :: y in b <==> y in a || y == x
  {
    var i := BisectLeft(a, x);
    assert i < |a| ==> a[i] in a;
    a[..i] + [x] + a[i..]
  }

  /** The sorted list without `x`. */
  function Without(a: seq<nat>, x: nat): (b: seq<nat>)
    requires Increasing(a) && x in a
    ensures Increasing(b)
    ensures forall y :: y in b <==> y in a && y != x
  {
    var i := BisectLeft(a, x);
    assert a[i] == x;
    assert forall y :: y in a <==> y in a[..i] || y == x || y in a[i + 1..];
    a[..i] + a[i + 1..]
  }

  lemma {:induction false} SmallestExists(s: set<nat>) returns (m: nat)
    requires s != {}
    ensures m in s && forall y :: y in s ==> m <= y
  {
    var x :| x in s;
    var rest := s - {x};
    assert forall y :: y in s ==> y == x || y in rest;
    m := x;
    if rest != {} {
      var n := SmallestExists(rest);
      m := if x < n then x else n;
    }
  }

  function Smallest(s: set<nat>): (m: nat)
    requires s != {}
    ensures m in s && forall y :: y in s ==> m <= y
  {
    assert exists m :: m in s && forall y :: y in s ==> m <= y by { var m := SmallestExists(s); }
    var m :| m in s && forall y :: y in s ==> m <= y;
    m
  }

  /** Two increasing lists with the same elements are the same list. */
  lemma {:induction false} IncreasingDetermined(a: seq<nat>, b: seq<nat>)
    requires Increasing(a) && Increasing(b)
    requires forall x :: x in a <==> x in b
    ensures a == b
  {
    assert a != [] ==> a[0] in b;
    assert b != [] ==> b[0] in a;
    if |a| != 0 {
      assert a[|a| - 1] in b;
      assert b[|b| - 1] in a;
      var m, n := |a| - 1, |b| - 1;
      assert a[m] == b[n];
      forall x ensures x in a[..m] <==> x in b[..n] {
        assert x in a <==> x in a[..m] || x == a[m];
        assert x in b <==> x in b[..n] || x == b[n];
      }
      IncreasingDetermined(a[..m], b[..n]);
    }
  }

  /** `list` holds exactly `keys`, in increasing order. */
  ghost predicate Lists(list: seq<nat>, keys: set<nat>) {
    Increasing(list) && forall x :: x in list <==> x in keys
  }

  lemma {:induction false} ListsRemove<T>(list: seq<nat>, m: map<nat, T>, x: nat)
    requires Lists(list, m.Keys) && x in m
    ensures Lists(Without(list, x), (m - {x}).Keys)
  {
  }

  lemma {:induction false} ListsAdd<T>(list: seq<nat>, m: map<nat, T>, x: nat, v: T)
    requires Lists(list, m.Keys) && x !in m
    ensures Lists(Insort(list, x), m[x := v].Keys)
  {
  }

  /** `bySize` groups the starts of `free` by length, with no empty group. */
  ghost predicate Buckets(free: Runs, bySize: map<nat, set<nat>>) {
    && (forall z :: z in bySize ==> bySize[z] != {})
    && (forall z, s :: z in bySize && s in bySize[z] ==> s in free && free[s] == z)
    && (forall s :: s in free ==> free[s] in bySize && s in bySize[free[s]])
  }

  /** The size buckets are determined by the address map. */
  lemma {:induction false} BucketsDetermined(free: Runs, a: map<nat, set<nat>>, b: map<nat, set<nat>>)
    requires Buckets(free, a) && Buckets(free, b)
    ensures a == b
  {
    forall z | z in a ensures z in b && a[z] == b[z] {
      BucketIncluded(free, a, b, z);
      BucketIncluded(free, b, a, z);
    }
    forall z | z in b ensures z in a { BucketIncluded(free, b, a, z); }
  }

  lemma {:induction false} BucketIncluded(free: Runs, a: map<nat, set<nat>>, b: map<nat, set<nat>>, z: nat)
    requires Buckets(free, a) && Buckets(free, b) && z in a
    ensures z in b && a[z] <= b[z]
  {
    forall s | s in a[z] ensures z in b && s in b[z] {
      assert s in free && free[s] == z;
    }
    var s :| s in a[z];
  }

  lemma {:induction false} BucketAdd(free: Runs, bySize: map<nat, set<nat>>, start: nat, blocks: nat)
    requires Buckets(free, bySize) && start !in free
    ensures var bucket := if blocks in bySize then bySize[blocks] else {};
            Buckets(free[start := blocks], bySize[blocks := bucket + {start}])
  {
  }

  lemma {:induction false} BucketRemove(free: Runs, bySize: map<nat, set<nat>>, start: nat)
    requires Buckets(free, bySize) && start in free
    ensures var bucket := bySize[free[start]] - {start};
            Buckets(free - {start}, if bucket == {} then bySize - {free[start]} else bySize[free[start] := bucket])
  {
    var z := free[start];
    var bucket := bySize[z] - {start};
    var after := if bucket == {} then bySize - {z} else bySize[z := bucket];
    forall s | s in free - {start} ensures free[s] in after && s in after[free[s]] {
      assert s in bySize[free[s]];
      if free[s] == z { assert s in bucket; }
    }
  }

  // Taking one run out of every index.
  lemma {:induction false} IndexRemove(free: Runs, bySize: map<nat, set<nat>>, starts: seq<nat>, sizes: seq<nat>,
                                       start: nat)
    requires Lists(starts, free.Keys) && Lists(sizes, bySize.Keys) && Buckets(free, bySize) && start in free
    ensures free[start] in bySize && start in starts && free[start] in sizes && Increasing(starts) && Increasing(sizes)
    ensures Lists(Without(starts, start), (free - {start}).Keys)
    ensures Sum(free) == free[start] + Sum(free - {start})
    ensures var z, bucket := free[start], bySize[free[start]] - {start};
            if bucket == {} then Lists(Without(sizes, z), (bySize - {z}).Keys) && Buckets(free - {start}, bySize - {z})
            else Lists(sizes, bySize[z := bucket].Keys) && Buckets(free - {start}, bySize[z := bucket])
  {
    SumRemove(free, start);
    BucketRemove(free, bySize, start);
    ListsRemove(starts, free, start);
    ListsRemove(sizes, bySize, free[start]);
    var z, bucket := free[start], bySize[free[start]] - {start};
    hide Buckets, Sum;
    assert bucket != {} ==> bySize[z := bucket].Keys == bySize.Keys;
  }

  // Adding one run to every index.
  lemma {:induction false} IndexAdd(free: Runs, bySize: map<nat, set<nat>>, starts: seq<nat>, sizes: seq<nat>,
                                    start: nat, z: nat)
    requires Lists(starts, free.Keys) && Lists(sizes, bySize.Keys) && Buckets(free, bySize) && start !in free
    ensures start !in starts && (z in sizes <==> z in bySize) && Increasing(starts) && Increasing(sizes)
    ensures Lists(Insort(starts, start), free[start := z].Keys)
    ensures Sum(free[start := z]) == Sum(free) + z
    ensures var bucket := (if z in bySize then bySize[z] else {}) + {start};
            Lists(if z in bySize then sizes else Insort(sizes, z), bySize[z := bucket].Keys) &&
            Buckets(free[start := z], bySize[z := bucket])
  {
    SumAdd(free, start, z);
    BucketAdd(free, bySize, start, z);
    ListsAdd(starts, free, start, z);
    var bucket := (if z in bySize then bySize[z] else {}) + {start};
    hide Buckets, Sum;
    if z in bySize {
      assert bySize[z := bucket].Keys == bySize.Keys;
    } else {
      ListsAdd(sizes, bySize, z, bucket);
    }
  }

  lemma {:induction false} ScalePages(a: nat, b: int, page: nat)
    ensures a <= b ==> a * page <= b * page
  {
  }

  class FixedBlockAllocator {
    const blockBytes: nat
    const blockCount: nat
    var freeByStart: Runs
    var freeBySize: map<nat, set<nat>>
    var starts: seq<nat>
    var sizes: seq<nat>
    var taken: Runs
    var freeBlocks: nat

    /** The two sorted lists, the buckets and the counter all describe `freeByStart`. */
    ghost predicate Indexed()
      reads this`freeByStart, this`freeBySize, this`starts, this`sizes, this`freeBlocks
    {
      && Lists(starts, freeByStart.Keys)
      && Lists(sizes, freeBySize.Keys)
      && Buckets(freeByStart, freeBySize)
      && freeBlocks == Sum(freeByStart)
    }

    ghost predicate Valid()
      reads this
    {
      && blockBytes > 0 && blockCount > 0
      && Indexed()
      && Partition(blockCount, freeByStart, taken)
    }

    /** The source rejects any other configuration. */
    constructor (capacity: nat, blockBytes: nat)
      requires capacity > 0 && blockBytes > 0 && blockBytes % 256 == 0
      requires capacity / blockBytes > 0
      ensures Valid() && this.blockBytes == blockBytes && blockCount == capacity / blockBytes
      ensures taken == map[] && freeByStart == map[0 := blockCount]
    {
      this.blockBytes := blockBytes;
      blockCount := capacity / blockBytes;
      freeByStart, freeBySize, starts, sizes, taken, freeBlocks := map[], map[], [], [], map[], 0;
      new;
      AddFreeRun(0, blockCount);
    }

    method AddFreeRun(start: nat, blocks: nat)
      requires Indexed()
      requires blocks > 0 && start + blocks <= blockCount
      requires start !in freeByStart
      modifies this`freeByStart, this`freeBySize, this`starts, this`sizes, this`freeBlocks
      ensures Indexed()
      ensures freeByStart == old(freeByStart)[start := blocks]
    {
      hide Lists, Buckets, Increasing, Sum, Insort, BisectLeft;
      IndexAdd(freeByStart, freeBySize, starts, sizes, start, blocks);
      var bucket := if blocks in freeBySize then freeBySize[blocks] else {};
      starts := Insort(starts, start);
      if blocks !in freeBySize {
        sizes := Insort(sizes, blocks);
      }
      freeByStart, freeBySize := freeByStart[start := blocks], freeBySize[blocks := bucket + {start}];
      freeBlocks := freeBlocks + blocks;
    }

    method RemoveFreeRun(start: nat, blocks: nat)
      requires Indexed()
      requires start in freeByStart && freeByStart[start] == blocks
      modifies this`freeByStart, this`freeBySize, this`starts, this`sizes, this`freeBlocks
      ensures Indexed()
      ensures freeByStart == old(freeByStart) - {start}
    {
      hide Lists, Buckets, Increasing, Sum, Without, BisectLeft;
      IndexRemove(freeByStart, freeBySize, starts, sizes, start);
      var bucket := freeBySize[blocks] - {start};
      starts := Without(starts, start);
      if bucket == {} {
        sizes, freeBySize := Without(sizes, blocks), freeBySize - {blocks};
      } else {
        freeBySize := freeBySize[blocks := bucket];
      }
      freeByStart, freeBlocks := freeByStart - {start}, freeBlocks - blocks;
    }

    function BlocksFor(payloadBytes: nat): (n: nat)
      requires blockBytes > 0
      ensures n * blockBytes >= payloadBytes
      ensures payloadBytes > 0 ==> n > 0 && (n - 1) * blockBytes < payloadBytes
    {
      (payloadBytes + blockBytes - 1) / blockBytes
    }

    // A payload that fits `count` pages needs no more than that.
    lemma {:induction false} BlocksSuffice(payloadBytes: nat, count: nat)
      requires blockBytes > 0 && payloadBytes <= count * blockBytes
      ensures BlocksFor(payloadBytes) <= count
    {
      ScalePages(count, BlocksFor(payloadBytes) - 1, blockBytes);
    }

    lemma {:induction false} SizeHasRun(z: nat)
      requires Indexed() && z in sizes
      ensures exists s :: s in freeByStart && freeByStart[s] == z
    {
      var s :| s in freeBySize[z];
      assert s in freeByStart;
    }

    /** The length in pages of the longest free run. */
    function LargestFree(): (n: nat)
      requires Indexed()
      reads this
      ensures forall s :: s in freeByStart ==> freeByStart[s] <= n
      ensures n > 0 ==> exists s :: s in freeByStart && freeByStart[s] == n
    {
      if sizes == [] then 0 else
        assert sizes[|sizes| - 1] in sizes;
        SizeHasRun(sizes[|sizes| - 1]);
        sizes[|sizes| - 1]
    }

    // No free run has a length strictly between `required` and the size found for it.
    lemma {:induction false} ShorterRunsAreTooShort(required: nat)
      requires Indexed()
      ensures forall t :: t in freeByStart && freeByStart[t] >= required ==>
                var i := BisectLeft(sizes, required);
                i < |sizes| && sizes[i] <= freeByStart[t]
    {
      forall t | t in freeByStart && freeByStart[t] >= required
        ensures var i := BisectLeft(sizes, required); i < |sizes| && sizes[i] <= freeByStart[t]
      {
        assert freeByStart[t] in sizes;
      }
    }

    /** Best fit: the shortest free run that is long enough, the lowest of that length. */
    ghost predicate BestFit(free: Runs, required: nat, start: nat) {
      && start in free && free[start] >= required
      && forall t :: t in free && free[t] >= required ==>
           free[start] < free[t] || (free[start] == free[t] && start <= t)
    }

    method Allocate(payloadBytes: nat) returns (r: Option<nat>)
      requires Valid() && payloadBytes > 0
      modifies this
      ensures Valid()
      ensures r.None? <==> forall s :: s in old(freeByStart) ==> old(freeByStart)[s] < BlocksFor(payloadBytes)
      ensures r.None? ==> unchanged(this)
      ensures r.Some? ==> BestFit(old(freeByStart), BlocksFor(payloadBytes), r.value)
      ensures r.Some? ==> r.value !in old(taken) && taken == old(taken)[r.value := BlocksFor(payloadBytes)]
    {
      var required := BlocksFor(payloadBytes);
      var i := BisectLeft(sizes, required);
      ShorterRunsAreTooShort(required);
      if i == |sizes| {
        return None;
      }
      var available := sizes[i];
      assert available in sizes;
      var start := Smallest(freeBySize[available]);
      assert start in freeByStart && freeByStart[start] == available;
      ghost var free, used := freeByStart, taken;
      TakeKeepsPartition(blockCount, free, used, start, required);
      TailIsNew(free, used, start, required);
      Take(start, available, required);
      r := Some(start);
    }

    /** Hand out the first `required` pages of the free run at `start`. */
    method Take(start: nat, available: nat, required: nat)
      requires Indexed()
      requires start in freeByStart && freeByStart[start] == available
      requires 0 < required <= available
      requires start + available <= blockCount && (required < available ==> start + required !in freeByStart)
      modifies this
      ensures Indexed()
      ensures freeByStart == AfterTake(old(freeByStart), start, required)
      ensures taken == old(taken)[start := required]
    {
      hide Indexed;
      ghost var rest := freeByStart - {start};
      ghost var after := AfterTake(freeByStart, start, required);
      var remaining := available - required;
      assert remaining > 0 ==> after == rest[start + required := remaining];
      assert remaining == 0 ==> after == rest;
      taken := taken[start := required];
      RemoveFreeRun(start, available);
      if remaining > 0 {
        AddFreeRun(start + required, remaining);
      }
    }

    /** Take the free run that ends at `start`, if any, out of the free runs. */
    method JoinLeft(start: nat, length: nat) returns (first: nat)
      requires Indexed()
      requires start !in freeByStart && Disjoint(blockCount, freeByStart[start := length])
      modifies this`freeByStart, this`freeBySize, this`starts, this`sizes, this`freeBlocks
      ensures Indexed()
      ensures first == LeftEdge(old(freeByStart), start) <= start
      ensures freeByStart == old(freeByStart) - {first}
    {
      first := start;
      var insertion := BisectLeft(starts, start);
      if insertion > 0 {
        var previous := starts[insertion - 1];
        assert previous in starts && previous < start;
        LeftEdgeIsPrevious(blockCount, freeByStart, start, length, previous);
        if previous + freeByStart[previous] == start {
          first := previous;
          RemoveFreeRun(previous, freeByStart[previous]);
        }
      } else {
        NoLeftEdge(freeByStart, start);
      }
    }

    /** Put a run back among the free runs, joined with the free runs on either side of it. */
    method GiveBack(start: nat, length: nat)
      requires Indexed() && length > 0 && start + length <= blockCount
      requires start !in freeByStart && Disjoint(blockCount, freeByStart[start := length])
      modifies this`freeByStart, this`freeBySize, this`starts, this`sizes, this`freeBlocks
      ensures Indexed()
      ensures freeByStart == Joined(old(freeByStart), start, length)
    {
      hide Indexed;
      ghost var free := freeByStart;
      RightEdgeInside(blockCount, free, start, length);
      var first := JoinLeft(start, length);
      var next := start + length;
      var last := next;
      if next in freeByStart {
        last := next + freeByStart[next];
        RemoveFreeRun(next, freeByStart[next]);
      }
      assert freeByStart == free - {first, next};
      AddFreeRun(first, last - first);
    }

    method Release(blocks: seq<nat>) returns (outcome: ReleaseOutcome)
      requires Valid()
      modifies this
      ensures outcome.InvalidBlocks? <==> blocks == [] || blocks != Range(blocks[0], |blocks|)
      ensures outcome.Released? ==>
        blocks[0] in old(taken) && old(taken)[blocks[0]] == |blocks| &&
        Valid() && taken == old(taken) - {blocks[0]}
      ensures outcome.ReleasedTwice? ==> blocks[0] !in old(taken)
      ensures outcome.InvalidBlocks? || outcome.ReleasedTwice? ==> unchanged(this)
      // A run of another length is forgotten before its length is checked: its pages are lost.
      ensures outcome.WrongSize? ==>
        blocks[0] in old(taken) && old(taken)[blocks[0]] != |blocks| &&
        !Valid() && taken == old(taken) - {blocks[0]} && freeByStart == old(freeByStart)
    {
      if blocks == [] || blocks != Range(blocks[0], |blocks|) {
        return InvalidBlocks;
      }
      var start := blocks[0];
      if start !in taken {
        return ReleasedTwice;
      }
      var length := taken[start];
      ghost var free, used := freeByStart, taken;
      assert Partition(blockCount, free, used);
      taken := taken - {start};
      if |blocks| != length {
        LostPages(blockCount, free, used, start);
        return WrongSize;
      }
      ReleasableRun(blockCount, free, used, start);
      ReleaseKeepsPartition(blockCount, free, used, start);
      GiveBack(start, length);
      return Released;
    }

    lemma {:induction false} TailIsNew(free: Runs, used: Runs, start: nat, required: nat)
      requires Partition(blockCount, free, used)
      requires start in free && 0 < required <= free[start]
      ensures start !in used && start + free[start] <= blockCount
      ensures required < free[start] ==> start + required !in free
    {
      var all := free + used;
      assert all[start] == free[start];
      assert required < free[start] ==> start + required !in all;
    }
  }

  /** Free runs after `required` pages are taken from the front of the free run at `start`. */
  ghost function AfterTake(free: Runs, start: nat, required: nat): Runs
    requires start in free
  {
    var rest := free - {start};
    if free[start] > required then rest[start + required := free[start] - required] else rest
  }

  ghost function CutAt(all: Runs, start: nat, required: nat): Runs
    requires start in all && required < all[start]
  {
    all[start := required][start + required := all[start] - required]
  }

  // Cutting a run in two keeps a tiling.
  lemma {:induction false} SplitKeepsDisjoint(total: nat, all: Runs, start: nat, required: nat)
    requires Disjoint(total, all)
    requires start in all && 0 < required < all[start]
    ensures start + required !in all
    ensures Disjoint(total, CutAt(all, start, required))
  {
    assert forall t :: t in all && start < t ==> start + all[start] <= t;
  }

  lemma {:induction false} SplitKeepsTiling(total: nat, all: Runs, start: nat, required: nat)
    requires Disjoint(total, all) && Tiles(total, all)
    requires start in all && 0 < required < all[start]
    ensures start + required !in all
    ensures Disjoint(total, CutAt(all, start, required)) && Tiles(total, CutAt(all, start, required))
  {
    SplitKeepsDisjoint(total, all, start, required);
    hide Disjoint;
    var cut := CutAt(all, start, required);
    forall s | s in cut ensures End(cut, s) == total || End(cut, s) in cut {
      if s == start + required {
        assert End(cut, s) == End(all, start);
      } else if s != start {
        assert End(cut, s) == End(all, s);
      }
    }
  }

  lemma {:induction false} TakeKeepsCoalesced(total: nat, free: Runs, start: nat, required: nat)
    requires Disjoint(total, free) && Coalesced(free)
    requires start in free && 0 < required <= free[start]
    ensures Coalesced(AfterTake(free, start, required))
  {
    var free' := AfterTake(free, start, required);
    forall s | s in free' ensures End(free', s) !in free' {
      if s != start + required || required == free[start] {
        assert End(free', s) == End(free, s);
      } else {
        assert End(free', s) == End(free, start);
      }
    }
  }

  lemma {:induction false} MergeAfterTake(free: Runs, taken: Runs, start: nat, required: nat)
    requires free.Keys !! taken.Keys && start in free && 0 < required <= free[start]
    requires start + required !in taken || required == free[start]
    ensures AfterTake(free, start, required) + taken[start := required] ==
            if required < free[start] then CutAt(free + taken, start, required) else (free + taken)[start := required]
  {
  }

  lemma {:induction false} PartDisjoint(total: nat, free: Runs, taken: Runs)
    requires free.Keys !! taken.Keys && Disjoint(total, free + taken)
    ensures Disjoint(total, free) && Disjoint(total, taken)
  {
    var all := free + taken;
    assert forall s :: s in free ==> s in all && all[s] == free[s];
    assert forall s :: s in taken ==> s in all && all[s] == taken[s];
  }

  lemma {:induction false} TakeKeepsTiling(total: nat, free: Runs, taken: Runs, start: nat, required: nat)
    requires Partition(total, free, taken)
    requires start in free && 0 < required <= free[start]
    ensures var all' := AfterTake(free, start, required) + taken[start := required];
            Disjoint(total, all') && Tiles(total, all')
  {
    var all := free + taken;
    assert all[start] == free[start];
    if required < free[start] {
      assert start + required !in taken && Disjoint(total, CutAt(all, start, required))
        && Tiles(total, CutAt(all, start, required)) by { SplitKeepsTiling(total, all, start, required); }
      MergeAfterTake(free, taken, start, required);
    } else {
      MergeAfterTake(free, taken, start, required);
      assert all[start := required] == all;
    }
  }

  lemma {:induction false} TakeKeepsPartition(total: nat, free: Runs, taken: Runs, start: nat, required: nat)
    requires Partition(total, free, taken)
    requires start in free && 0 < required <= free[start]
    ensures Partition(total, AfterTake(free, start, required), taken[start := required])
  {
    assert Coalesced(AfterTake(free, start, required)) by {
      PartDisjoint(total, free, taken);
      TakeKeepsCoalesced(total, free, start, required);
    }
    TakeKeepsTiling(total, free, taken, start, required);
    assert required < free[start] ==> start + required !in taken by {
      assert (free + taken)[start] == free[start];
      assert start + required in taken ==> start + required in free + taken;
    }
  }

  /** The start of the free run that ends at `p`, or `p` itself if there is none. */
  ghost function LeftEdge(free: Runs, p: nat): (q: nat)
    ensures q <= p
  {
    if q :| q in free && End(free, q) == p then q else p
  }

  /** The end of the free run that starts at `p`, or `p` itself if there is none. */
  ghost function RightEdge(free: Runs, p: nat): (q: nat)
    ensures p <= q
  {
    if p in free then End(free, p) else p
  }

  /** Free runs after the run at `p` is put back and joined with its free neighbours. */
  ghost function Joined(free: Runs, p: nat, length: nat): Runs {
    var first, next := LeftEdge(free, p), p + length;
    (free - {first, next})[first := RightEdge(free, next) - first]
  }

  // The only free run that can touch `start` from the left is the last one before it.
  lemma {:induction false} LeftEdgeIsPrevious(total: nat, free: Runs, start: nat, length: nat, previous: nat)
    requires Disjoint(total, free[start := length])
    requires start !in free && previous in free && previous < start
    requires forall q :: q in free && q < start ==> q <= previous
    ensures LeftEdge(free, start) == if End(free, previous) == start then previous else start
  {
    var all := free[start := length];
    forall q | q in free && End(free, q) == start ensures q == previous {
      assert q in all && previous in all && all[q] == free[q];
    }
  }

  lemma {:induction false} NoLeftEdge(free: Runs, start: nat)
    requires forall q :: q in free ==> q >= start
    ensures LeftEdge(free, start) == start
  {
  }

  lemma {:induction false} RightEdgeInside(total: nat, free: Runs, p: nat, length: nat)
    requires p !in free && length > 0 && Disjoint(total, free[p := length])
    ensures RightEdge(free, p + length) <= total
    ensures LeftEdge(free, p) != p + length && LeftEdge(free, p) !in free - {LeftEdge(free, p)}
  {
    var all := free[p := length];
    assert p in all && all[p] == length;
    assert p + length in free ==> p + length in all && all[p + length] == free[p + length];
  }

  // Dropping an allocated run without freeing it leaves pages in neither family.
  lemma {:induction false} LostPages(total: nat, free: Runs, taken: Runs, p: nat)
    requires Partition(total, free, taken) && p in taken
    ensures !Partition(total, free, taken - {p})
  {
    PagesConserved(total, free, taken);
    SumRemove(taken, p);
    assert taken[p] > 0 by { assert (free + taken)[p] == taken[p]; }
    if Partition(total, free, taken - {p}) {
      PagesConserved(total, free, taken - {p});
    }
  }

  /** Two pages are taken as one run, and a list naming only the first is given back: both are lost. */
  method LostPagesExample() returns (allocator: FixedBlockAllocator, outcome: ReleaseOutcome)
    ensures outcome.WrongSize? && !allocator.Valid()
    ensures allocator.blockCount == 2 && allocator.taken == map[] && allocator.freeByStart == map[]
  {
    allocator := new FixedBlockAllocator(512, 256);
    var first := allocator.Allocate(512);
    outcome := allocator.Release([0]);
  }

  lemma {:induction false} ReleasableRun(total: nat, free: Runs, taken: Runs, p: nat)
    requires Partition(total, free, taken) && p in taken
    ensures p !in free && taken[p] > 0 && p + taken[p] <= total
    ensures Disjoint(total, free[p := taken[p]])
  {
    var all, some := free + taken, free[p := taken[p]];
    assert forall s :: s in some ==> s in all && all[s] == some[s];
  }

  ghost function Fuse(all: Runs, a: nat): Runs
    requires a in all && End(all, a) in all
  {
    (all - {End(all, a)})[a := End(all, End(all, a)) - a]
  }

  // Two runs that meet can be fused.
  lemma {:induction false} FuseKeepsTiling(total: nat, all: Runs, a: nat)
    requires Disjoint(total, all) && Tiles(total, all)
    requires a in all && End(all, a) in all
    ensures Disjoint(total, Fuse(all, a)) && Tiles(total, Fuse(all, a))
  {
    var b, fused := End(all, a), Fuse(all, a);
    forall s | s in fused ensures End(fused, s) == total || End(fused, s) in fused {
      if s == a {
        assert End(fused, s) == End(all, b);
      } else {
        assert End(fused, s) == End(all, s);
        assert End(all, s) != b;
      }
    }
  }

  lemma {:induction false} JoinedCoalesced(total: nat, free: Runs, p: nat, length: nat)
    requires p !in free && length > 0 && Coalesced(free)
    requires Disjoint(total, free[p := length])
    ensures Coalesced(Joined(free, p, length))
  {
    var first, next, joined := LeftEdge(free, p), p + length, Joined(free, p, length);
    RightEdgeInside(total, free, p, length);
    forall s | s in joined ensures End(joined, s) !in joined {
      if s == first {
        assert End(joined, s) == RightEdge(free, next);
        assert next in free ==> End(free, next) !in free;
      } else {
        assert End(joined, s) == End(free, s);
        assert first != p ==> End(free, s) != first;
      }
    }
  }

  /** The tiling after the run at `p` absorbs the free run on its left. */
  ghost function WithLeft(free: Runs, taken: Runs, p: nat): Runs
    requires p in taken
  {
    var first := LeftEdge(free, p);
    ((free + taken) - {p})[first := p + taken[p] - first]
  }

  /** A tiling after the run `first`, which ends at `next`, absorbs a free run there. */
  ghost function WithRight(left: Runs, free: Runs, first: nat, next: nat): Runs
    requires first <= next
  {
    (if next in free then left - {next} else left)[first := RightEdge(free, next) - first]
  }

  lemma {:induction false} WithLeftIsFuse(free: Runs, taken: Runs, p: nat)
    requires p in taken && free.Keys !! taken.Keys
    ensures var all, first := free + taken, LeftEdge(free, p);
            if first < p then first in all && End(all, first) == p && WithLeft(free, taken, p) == Fuse(all, first)
            else WithLeft(free, taken, p) == all
  {
    var all, first := free + taken, LeftEdge(free, p);
    assert End(all, p) == p + taken[p];
  }

  lemma {:induction false} AbsorbLeft(total: nat, free: Runs, taken: Runs, p: nat)
    requires Partition(total, free, taken) && p in taken
    ensures Disjoint(total, WithLeft(free, taken, p)) && Tiles(total, WithLeft(free, taken, p))
  {
    hide WithLeft, Fuse, Disjoint, Tiles;
    WithLeftIsFuse(free, taken, p);
    if LeftEdge(free, p) < p {
      FuseKeepsTiling(total, free + taken, LeftEdge(free, p));
    }
  }

  lemma {:induction false} AbsorbRight(total: nat, left: Runs, free: Runs, first: nat, next: nat)
    requires Disjoint(total, left) && Tiles(total, left)
    requires first in left && End(left, first) == next
    requires next in free ==> next in left && left[next] == free[next]
    ensures Disjoint(total, WithRight(left, free, first, next)) && Tiles(total, WithRight(left, free, first, next))
  {
    WithRightIsFuse(left, free, first, next);
    hide WithRight, Fuse, Disjoint, Tiles;
    if next in free {
      FuseKeepsTiling(total, left, first);
    }
  }

  lemma {:induction false} WithRightIsFuse(left: Runs, free: Runs, first: nat, next: nat)
    requires first in left && End(left, first) == next
    requires next in free ==> next in left && left[next] == free[next]
    ensures WithRight(left, free, first, next) == if next in free then Fuse(left, first) else left
  {
    assert next in free ==> End(left, next) == End(free, next);
  }

  lemma {:induction false} WithLeftAt(total: nat, free: Runs, taken: Runs, p: nat)
    requires Partition(total, free, taken) && p in taken
    ensures var first, next, left := LeftEdge(free, p), p + taken[p], WithLeft(free, taken, p);
            first in left && End(left, first) == next && (next in free ==> next in left && left[next] == free[next])
  {
    ReleasableRun(total, free, taken, p);
  }

  lemma {:induction false} JoinedMerge(free: Runs, taken: Runs, p: nat)
    requires p in taken && free.Keys !! taken.Keys
    ensures Joined(free, p, taken[p]) + (taken - {p}) ==
            WithRight(WithLeft(free, taken, p), free, LeftEdge(free, p), p + taken[p])
  {
  }

  lemma {:induction false} ReleaseKeepsTiling(total: nat, free: Runs, taken: Runs, p: nat)
    requires Partition(total, free, taken) && p in taken
    ensures var all := Joined(free, p, taken[p]) + (taken - {p});
            Disjoint(total, all) && Tiles(total, all)
  {
    hide WithLeft, WithRight, Joined, Disjoint, Tiles;
    AbsorbLeft(total, free, taken, p);
    WithLeftAt(total, free, taken, p);
    AbsorbRight(total, WithLeft(free, taken, p), free, LeftEdge(free, p), p + taken[p]);
    JoinedMerge(free, taken, p);
  }

  lemma {:induction false} ReleaseKeepsPartition(total: nat, free: Runs, taken: Runs, p: nat)
    requires Partition(total, free, taken) && p in taken
    ensures Partition(total, Joined(free, p, taken[p]), taken - {p})
  {
    hide Coalesced;
    ReleasableRun(total, free, taken, p);
    JoinedCoalesced(total, free, p, taken[p]);
    ReleaseKeepsTiling(total, free, taken, p);
  }

  /** Two allocators of one size with the same allocated runs agree on every index:
      whatever was allocated and released in between, in whatever order, leaves no trace. */
  lemma {:induction false} StateDetermined(a: FixedBlockAllocator, b: FixedBlockAllocator)
    requires a.Valid() && b.Valid()
    requires a.blockCount == b.blockCount && a.taken == b.taken
    ensures a.freeByStart == b.freeByStart && a.freeBySize == b.freeBySize
    ensures a.starts == b.starts && a.sizes == b.sizes && a.freeBlocks == b.freeBlocks
  {
    FreeIsCanonical(a.blockCount, a.freeByStart, b.freeByStart, a.taken);
    BucketsDetermined(a.freeByStart, a.freeBySize, b.freeBySize);
    IncreasingDetermined(a.starts, b.starts);
    IncreasingDetermined(a.sizes, b.sizes);
  }

  /** Once every run has been released the allocator is as it was created. */
  lemma {:induction false} AllReleased(a: FixedBlockAllocator)
    requires a.Valid() && a.taken == map[]
    ensures a.freeByStart == map[0 := a.blockCount] && a.freeBySize == map[a.blockCount := {0}]
    ensures a.starts == [0] && a.sizes == [a.blockCount] && a.freeBlocks == a.blockCount
  {
    NothingAllocated(a.blockCount, a.freeByStart);
    assert Buckets(a.freeByStart, map[a.blockCount := {0}]);
    BucketsDetermined(a.freeByStart, a.freeBySize, map[a.blockCount := {0}]);
    IncreasingDetermined(a.starts, [0]);
    IncreasingDetermined(a.sizes, [a.blockCount]);
    PagesConserved(a.blockCount, a.freeByStart, a.taken);
  }

  /** The free counter is what the allocated runs leave. */
  lemma {:induction false} FreeBlocksConserved(a: FixedBlockAllocator)
    requires a.Valid()
    ensures a.freeBlocks + Sum(a.taken) == a.blockCount
  {
    PagesConserved(a.blockCount, a.freeByStart, a.taken);
  }
}
