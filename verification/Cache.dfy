/** The GPU tensor cache (`GpuTensorCache`): reference counts, pins, eviction under any priority
    policy, and batch acquisition with rollback. */
module Cache {
  import opened PageRuns
  import opened Allocator
  import opened Arena
  import opened Pool
  import opened Directory

  /** Outcome of looking for space for one tensor. */
  datatype Room =
    | At(arena: nat)   // this arena has a free run long enough
    | Rejected         // lost admission against an eviction victim
    | TooLarge         // larger than every arena
    | NoRoom           // every capable arena is full of tensors in use

  /** One tensor a request wants resident. */
  datatype Load = Load(key: Key, rows: nat, dimension: nat, dtype: nat, payload: seq<Byte>, pin: bool)

  /** What a tensor of `blocks` pages is worth: its frequency per page, on top of the inflation value. */
  function Priority(inflation: real, frequency: nat, blocks: nat): real {
    inflation + frequency as real / (if blocks < 1 then 1 else blocks) as real
  }

  /** Above the inflation value, it is the frequency shared among the pages: it grows with one, falls with the other. */
  lemma {:induction false} PriorityOrder(inflation: real, f: nat, pages: nat, g: nat, more: nat)
    requires f <= g && 1 <= pages <= more
    ensures (Priority(inflation, f, pages) - inflation) * pages as real == f as real
    ensures Priority(inflation, f, more) <= Priority(inflation, f, pages) <= Priority(inflation, g, pages)
    ensures f < g ==> Priority(inflation, f, pages) < Priority(inflation, g, pages)
    ensures Priority(inflation, f, 0) == Priority(inflation, f, 1) == inflation + f as real
  {
    SharedLess(f as real, pages as real, more as real, f as real / pages as real, f as real / more as real);
  }

  lemma {:induction false} SharedLess(f: real, pages: real, more: real, a: real, b: real)
    requires f >= 0.0 && 1.0 <= pages <= more && a == f / pages && b == f / more
    ensures b <= a
  {
    var p, q, r := a * pages, b * more, b * pages;
    assert p == f && q == f;
    assert q - r == b * (more - pages);
    assert b >= 0.0;
    assert q - r >= 0.0;
    assert (a - b) * pages == p - r;
  }

  /** The entry with one reference fewer. */
  function Unreferenced(e: Entry): (r: Entry)
    requires e.references > 0
    ensures r.SamePlace(e)
  {
    e.(references := e.references - 1)
  }

  /** The device fails while uploading to `arena`, after `uploads` of its tensors went through. */
  datatype Fault = Fault(arena: nat, uploads: nat)

  /** What became of one load of a batch. */
  datatype Slot = Got(handle: Handle) | Bypassed | Deferred

  /** The keys a list of loads asks to pin. */
  ghost function Pins(loads: seq<Load>): set<Key> {
    set l | l in loads && l.pin :: l.key
  }

  ghost function KeySet(order: seq<Key>): set<Key> {
    set k | k in order
  }

  lemma {:induction false} OrderNext(order: seq<Key>, k: Key)
    requires Distinct(order) && k !in KeySet(order)
    ensures Distinct(order + [k]) && KeySet(order + [k]) == KeySet(order) + {k}
  {
  }

  /** The result of a batch: a handle per load that became resident, and the positions of the others. */
  datatype Batch = Batch(handles: seq<Option<Handle>>, bypassed: seq<nat>, deferred: seq<nat>)

  /** The handles of a batch, in order. */
  function Given(handles: seq<Option<Handle>>): seq<Handle> {
    if handles == [] then [] else
      var n := |handles| - 1;
      Given(handles[..n]) + (if handles[n].Some? then [handles[n].value] else [])
  }

  lemma {:induction false} GivenNext(handles: seq<Option<Handle>>, h: Option<Handle>)
    ensures Given(handles + [h]) == Given(handles) + (if h.Some? then [h.value] else [])
  {
    assert (handles + [h])[..|handles|] == handles;
  }

  lemma {:induction false} GivenHas(handles: seq<Option<Handle>>, i: nat)
    requires i < |handles| && handles[i].Some?
    ensures handles[i].value in Given(handles)
  {
    if i < |handles| - 1 {
      GivenHas(handles[..|handles| - 1], i);
    }
  }

  /** Each of the first `n` loads got a handle for its own key, or is bypassed, or is deferred: exactly one. */
  ghost predicate Classified(loads: seq<Load>, b: Batch, n: nat) {
    && n == |b.handles| <= |loads|
    && Increasing(b.bypassed) && Increasing(b.deferred)
    && (forall i :: i in b.bypassed ==> i < n && b.handles[i].None? && i !in b.deferred)
    && (forall i :: i in b.deferred ==> i < n && b.handles[i].None? && i !in b.bypassed)
    && (forall i :: 0 <= i < n && b.handles[i].None? ==> i in b.bypassed || i in b.deferred)
    && (forall i :: 0 <= i < n && b.handles[i].Some? ==> b.handles[i].value.key == loads[i].key)
  }

  function Extend(b: Batch, slot: Slot): Batch {
    var i := |b.handles|;
    match slot
    case Got(h) => b.(handles := b.handles + [Some(h)])
    case Bypassed => b.(handles := b.handles + [None], bypassed := b.bypassed + [i])
    case Deferred => b.(handles := b.handles + [None], deferred := b.deferred + [i])
  }

  lemma {:induction false} ExtendClassified(loads: seq<Load>, b: Batch, n: nat, slot: Slot)
    requires Classified(loads, b, n) && n < |loads| && (slot.Got? ==> slot.handle.key == loads[n].key)
    ensures Classified(loads, Extend(b, slot), n + 1)
  {
    var c := Extend(b, slot);
    assert forall i :: 0 <= i < n ==> c.handles[i] == b.handles[i];
    assert forall i :: 0 <= i < |b.bypassed| ==> b.bypassed[i] in b.bypassed;
    assert forall i :: 0 <= i < |b.deferred| ==> b.deferred[i] in b.deferred;
  }

  /** Every entry made in the batch carries the payload of one of its loads, and is pinned only if a load asks for it.
      */
  ghost predicate FromLoads(entries: Entries, loads: seq<Load>, mark: nat) {
    && (forall k :: k in entries && entries[k].id >= mark ==>
         exists l :: l in loads && l.key == k && l.payload == entries[k].payload)
    && (forall k :: k in entries && entries[k].id >= mark && entries[k].pinned ==> k in Pins(loads))
  }

  lemma {:induction false} FromLoadsShrink(mid: Entries, after: Entries, loads: seq<Load>, mark: nat)
    requires FromLoads(mid, loads, mark) && Shrunk(mid, after)
    ensures FromLoads(after, loads, mark)
  {
  }

  lemma {:induction false} FromLoadsNew(mid: Entries, after: Entries, loads: seq<Load>, mark: nat, load: Load)
    requires FromLoads(mid, loads, mark) && load in loads && load.key in after
    requires after[load.key].payload == load.payload && after[load.key].pinned == load.pin
    requires Shrunk(mid, after - {load.key})
    ensures FromLoads(after, loads, mark)
  {
    assert forall k :: k in after && k != load.key ==> k in after - {load.key};
  }

  lemma {:induction false} FromLoadsTouch(mid: Entries, loads: seq<Load>, mark: nat, load: Load, e: Entry)
    requires FromLoads(mid, loads, mark) && load in loads && load.key in mid && e.SamePlace(mid[load.key])
    requires e.pinned == (mid[load.key].pinned || load.pin)
    ensures FromLoads(mid[load.key := e], loads, mark)
  {
  }

  lemma {:induction false} GrownFaithful(before: Entries, after: Entries, mark: nat, loads: seq<Load>,
                                         content: Key -> seq<Byte>)
    requires Grown(before, after, mark, Pins(loads)) && FromLoads(after, loads, mark)
    requires Faithful(before, content) && forall l :: l in loads ==> l.payload == content(l.key)
    ensures Faithful(after, content)
  {
    forall k | k in after ensures after[k].payload == content(k) {
      if after[k].id >= mark {
        var l :| l in loads && l.key == k && l.payload == after[k].payload;
      }
    }
  }

  lemma {:induction false} PinsNext(loads: seq<Load>, n: nat)
    requires n < |loads|
    ensures Pins(loads[..n + 1]) == if loads[n].pin then Pins(loads[..n]) + {loads[n].key} else Pins(loads[..n])
  {
    assert loads[..n + 1] == loads[..n] + [loads[n]];
  }

  /** The byte length a shape asks for, if the shape is acceptable (`checked_tensor_bytes`). */
  function TensorBytes(rows: nat, dimension: nat, dtype: nat): (r: Option<nat>)
    ensures r.Some? ==> r.value > 0
  {
    if rows == 0 || dimension == 0 || rows * dimension > 0x7fff_ffff_ffff_ffff || (dtype != 1 && dtype != 2) then None
    else Some(rows * dimension * (if dtype == 1 then 4 else 2))
  }

  /** The check made of a load. */
  predicate ShapeChecks(l: Load) {
    TensorBytes(l.rows, l.dimension, l.dtype) == Some(|l.payload|)
  }

  /** The status of a load that fails it. */
  function ShapeStatus(l: Load): Status {
    if l.rows == 0 || l.dimension == 0 then InvalidRequest
    else if l.rows * l.dimension > 0x7fff_ffff_ffff_ffff then ResourceLimit
    else InvalidRequest
  }

  /** A load holds rows times columns of 32- or 16-bit floats, at least one and fewer than 2^63 of them. */
  ghost predicate WellShaped(l: Load) {
    && 1 <= l.rows * l.dimension < 0x8000_0000_0000_0000
    && (|| (l.dtype == 1 && |l.payload| == 4 * (l.rows * l.dimension))
        || (l.dtype == 2 && |l.payload| == 2 * (l.rows * l.dimension)))
  }

  /** The status reported for a load that is not well shaped. */
  ghost function ShapeError(l: Load): Status {
    if l.rows * l.dimension >= 0x8000_0000_0000_0000 then ResourceLimit else InvalidRequest
  }

  lemma {:induction false} ShapeChecksIff(l: Load)
    ensures ShapeChecks(l) <==> WellShaped(l)
    ensures ShapeStatus(l) == ShapeError(l)
  {
    if l.rows > 0 && l.dimension > 0 {
      assert l.rows * l.dimension >= 1;
    } else {
      assert l.rows * l.dimension == 0;
    }
  }

  ghost predicate AllWellShaped(loads: seq<Load>) {
    forall l :: l in loads ==> WellShaped(l)
  }

  lemma {:induction false} ShapedNone(loads: seq<Load>)
    ensures AllWellShaped(loads[..0])
  {
  }

  lemma {:induction false} ShapedNext(loads: seq<Load>, n: nat)
    requires n < |loads| && AllWellShaped(loads[..n]) && WellShaped(loads[n])
    ensures AllWellShaped(loads[..n + 1])
  {
    assert loads[..n + 1] == loads[..n] + [loads[n]];
  }

  lemma {:induction false} ShapedAll(loads: seq<Load>, n: nat)
    requires n <= |loads| && AllWellShaped(loads[..n]) && (n < |loads| ==> !WellShaped(loads[n]))
    ensures n == |loads| <==> AllWellShaped(loads)
  {
    assert n == |loads| ==> loads[..n] == loads;
    assert n < |loads| ==> loads[n] in loads;
  }

  lemma {:induction false} WellShapedNonempty(l: Load)
    requires WellShaped(l)
    ensures l.payload != []
  {
  }

  /** Answers of the frequency sketch when each load is handled; any answers are allowed. */
  datatype Sketch = Sketch(frequency: nat -> nat, estimate: nat -> nat)

  datatype Status = InvalidRequest | ResourceLimit | ComputeError

  datatype Acquired = Acquired(batch: Batch) | Failed(status: Status)

  /** One operation of some request. */
  datatype Op =
    | Acquire(loads: seq<Load>, enforceAdmission: bool, sketch: Sketch, fault: Option<Fault>)
    | Probe(keys: seq<Key>, frequency: nat -> nat)
    | GiveUp(handle: Handle)

  /** The operation loads only what its keys name. */
  ghost predicate Genuine(op: Op, content: Key -> seq<Byte>) {
    op.Acquire? ==> forall l :: l in op.loads ==> l.payload == content(l.key)
  }

  /** Nobody holds or pins anything. */
  ghost predicate Idle(entries: Entries) {
    forall k :: k in entries ==> entries[k].Evictable()
  }

  lemma {:induction false} DropOne(mine: multiset<Handle>, others: multiset<Handle>, h: Handle)
    requires h in others
    ensures h in mine + others && (mine + others) - multiset{h} == mine + (others - multiset{h})
  {
  }

  lemma {:induction false} ShrunkSelf(entries: Entries)
    ensures Shrunk(entries, entries)
  {
  }

  /** No entry of arena `c` may be evicted. */
  ghost predicate ArenaInUse(entries: Entries, c: nat) {
    forall k :: k in entries && entries[k].arena == c ==> !entries[k].Evictable()
  }

  lemma {:induction false} InUseShrunk(before: Entries, after: Entries)
    requires Shrunk(before, after)
    ensures forall c :: ArenaInUse(before, c) ==> ArenaInUse(after, c)
  {
  }

  /** Only tensors of arena `c` are gone, and each was worth no more than any that is left and could be evicted. */
  ghost predicate LowestFirst(before: Entries, after: Entries, c: nat) {
    forall k :: k in before && k !in after ==>
      && before[k].arena == c
      && forall j :: j in after && after[j].arena == c && after[j].Evictable() ==>
        before[k].priority <= after[j].priority
  }

  lemma {:induction false} LowestNone(entries: Entries, c: nat)
    ensures LowestFirst(entries, entries, c)
  {
  }

  lemma {:induction false} ShrunkOne(entries: Entries, k: Key)
    requires k in entries && entries[k].Evictable()
    ensures Shrunk(entries, entries - {k})
  {
  }

  lemma {:induction false} LowestNext(before: Entries, mid: Entries, c: nat, victim: Key)
    requires Shrunk(before, mid) && LowestFirst(before, mid, c)
    requires victim in mid && mid[victim].arena == c && mid[victim].Evictable()
    requires forall k :: k in mid && mid[k].arena == c && mid[k].Evictable() ==> mid[victim].priority <= mid[k].priority
    ensures LowestFirst(before, mid - {victim}, c)
  {
  }

  /** Each tensor that is gone was worth no more than any that is left in its arena and could be evicted. */
  ghost predicate CheapestFirst(before: Entries, after: Entries) {
    forall k, j :: k in before && k !in after && j in after && after[j].arena == before[k].arena && after[j].Evictable()
      ==> before[k].priority <= after[j].priority
  }

  lemma {:induction false} CheapestNext(before: Entries, mid: Entries, after: Entries, c: nat)
    requires Shrunk(before, mid) && Shrunk(mid, after) && CheapestFirst(before, mid) && LowestFirst(mid, after, c)
    requires forall k :: k in before && k !in mid ==> before[k].arena != c
    ensures CheapestFirst(before, after)
    ensures forall k :: k in before && k !in after ==> k !in mid || before[k].arena == c
  {
  }

  /** Only tensors of these arenas are gone. */
  ghost predicate GoneFrom(before: Entries, after: Entries, arenas: set<nat>) {
    forall k :: k in before && k !in after ==> before[k].arena in arenas
  }

  lemma {:induction false} NoneGone(entries: Entries)
    ensures CheapestFirst(entries, entries) && GoneFrom(entries, entries, {})
  {
  }

  lemma {:induction false} GoneNext(before: Entries, mid: Entries, after: Entries, arenas: set<nat>, c: nat)
    requires Shrunk(before, mid) && Shrunk(mid, after) && CheapestFirst(before, mid) && LowestFirst(mid, after, c)
    requires GoneFrom(before, mid, arenas) && c !in arenas
    ensures CheapestFirst(before, after) && GoneFrom(before, after, arenas + {c})
  {
    CheapestNext(before, mid, after, c);
  }

  /** How evictions move the inflation value: up to the greatest priority that went, never down. */
  ghost predicate Inflated(before: Entries, x: real, after: Entries, y: real) {
    && x <= y && (forall k :: k in before && k !in after ==> before[k].priority <= y)
    && (y == x || exists k :: k in before && k !in after && before[k].priority == y)
  }

  lemma {:induction false} InflatedNext(before: Entries, x: real, mid: Entries, y: real, after: Entries, z: real)
    requires Shrunk(before, mid) && Shrunk(mid, after) && Inflated(before, x, mid, y) && Inflated(mid, y, after, z)
    ensures Inflated(before, x, after, z)
  {
    if z != x {
      if z == y {
        var k :| k in before && k !in mid && before[k].priority == y;
        assert k !in after;
      } else {
        var k :| k in mid && k !in after && mid[k].priority == z;
        assert k in before && before[k].priority == z;
      }
    }
  }

  lemma {:induction false} InflatedSelf(entries: Entries, x: real)
    ensures Inflated(entries, x, entries, x)
  {
  }

  lemma {:induction false} InflatedOne(before: Entries, x: real, k: Key, y: real)
    requires k in before && y == if x < before[k].priority then before[k].priority else x
    ensures Inflated(before, x, before - {k}, y)
  {
  }

  /** What decides about room: the resident tensors and the inflation value. */
  datatype State = State(entries: Entries, inflation: real)

  /** One load of a batch: what was there, what became of it, and what was there then. */
  datatype Decision = Decision(before: State, slot: Slot, after: State)

  /** Evictions alone lead from one state to the other. */
  ghost predicate Evicting(before: State, after: State) {
    && Shrunk(before.entries, after.entries) && CheapestFirst(before.entries, after.entries)
    && Inflated(before.entries, before.inflation, after.entries, after.inflation)
  }

  /** The batch says of every load what became of it. */
  ghost predicate Reported(turns: seq<Decision>, b: Batch) {
    && |b.handles| == |turns|
    && (forall i :: 0 <= i < |turns| ==>
         b.handles[i] == if turns[i].slot.Got? then Some(turns[i].slot.handle) else None)
    && (forall i :: 0 <= i < |turns| ==> (i in b.bypassed <==> turns[i].slot.Bypassed?))
    && (forall i :: 0 <= i < |turns| ==> (i in b.deferred <==> turns[i].slot.Deferred?))
  }

  lemma {:induction false} ReportedNext(loads: seq<Load>, turns: seq<Decision>, b: Batch, t: Decision)
    requires Reported(turns, b) && Classified(loads, b, |turns|)
    ensures Reported(turns + [t], Extend(b, t.slot))
  {
  }

  /** No tensor occupies any of the `n` pages from `p` of arena `a`. */
  ghost predicate VacantIn(entries: Entries, a: nat, p: nat, n: nat) {
    forall k :: k in entries && entries[k].arena == a ==>
      entries[k].first + entries[k].count <= p || p + n <= entries[k].first
  }

  lemma {:induction false} VacantRuns(entries: Entries, taken: seq<Runs>, owner: map<(nat, nat), Key>, a: nat, p: nat,
                                      n: nat)
    requires Owned(entries, taken, owner) && a < |taken|
    ensures VacantIn(entries, a, p, n) <==> Vacant(taken[a], p, n)
  {
    if VacantIn(entries, a, p, n) {
      forall s | s in taken[a] ensures s + taken[a][s] <= p || p + n <= s {
        var e := entries[owner[(a, s)]];
        assert e.arena == a && e.first == s;
      }
    }
  }

  /** Every tensor of arena `c` that may be evicted is worth at least `bid`, and there is one. */
  ghost predicate Outbid(entries: Entries, c: nat, bid: real) {
    && !ArenaInUse(entries, c)
    && forall k :: k in entries && entries[k].arena == c && entries[k].Evictable() ==> bid <= entries[k].priority
  }

  /** Arena `a` has more free bytes than `b`, or as many and comes first. */
  ghost predicate Ahead(free: seq<nat>, a: nat, b: nat) {
    a < |free| && b < |free| && (free[a] > free[b] || (free[a] == free[b] && a <= b))
  }

  class GpuTensorCache {
    const pool: GpuResourcePool
    const allowEviction: bool
    var entries: Entries
    var nextId: nat
    var inflation: real
    ghost var owner: map<(nat, nat), Key>
    ghost var held: multiset<Handle>

    /** Everything the cache keeps true; tensors in `loading` need not have their bytes yet. */
    ghost predicate Inv(loading: set<Key>)
      reads this, pool.Allocators(), pool.Storages()
    {
      && pool.Valid() && this !in pool.Allocators() + pool.Storages() + pool.Stagings()
      && Owned(entries, pool.Taken(), owner)
      && Counted(entries, held, nextId)
      && Loaded(entries, pool.Memory(), pool.Pages(), loading)
      && Roomy(entries, pool.Pages())
    }

    ghost predicate Valid()
      reads this, pool.Allocators(), pool.Storages()
    {
      Inv({})
    }

    lemma {:induction false} Apart(loading: set<Key>)
      requires Inv(loading)
      ensures pool.Valid() && this !in pool.Allocators() + pool.Storages() + pool.Stagings()
      ensures Counted(entries, held, nextId)
    {
    }

    constructor (pool: GpuResourcePool, allowEviction: bool)
      requires pool.Valid() && forall i :: 0 <= i < |pool.arenas| ==> pool.arenas[i].allocator.taken == map[]
      ensures Valid() && this.pool == pool && this.allowEviction == allowEviction
      ensures entries == map[] && held == multiset{}
    {
      this.pool, this.allowEviction := pool, allowEviction;
      entries, nextId, inflation, owner, held := map[], 0, 0.0, map[], multiset{};
    }

    method Evict(k: Key, ghost loading: set<Key>)
      requires Inv(loading) && k in entries && entries[k].Evictable()
      modifies this`entries, this`inflation, pool.Allocators()
      ensures Inv(loading) && entries == old(entries) - {k}
      ensures inflation == if old(inflation < entries[k].priority) then old(entries[k].priority) else old(inflation)
      ensures forall i :: 0 <= i < |pool.arenas| && i != old(entries[k].arena) ==>
                pool.Largest(i) == old(pool.Largest(i)) && FreeBytes(i) == old(FreeBytes(i))
    {
      hide Owned, Counted, Loaded, Roomy;
      hide GpuResourcePool.Valid, GpuResourcePool.Taken, GpuResourcePool.Memory, GpuResourcePool.Pages,
           GpuResourcePool.Allocators, GpuResourcePool.Storages, GpuResourcePool.Largest;
      var e := entries[k];
      EntryRun(entries, pool.Taken(), owner, k);
      RemoveLoaded(entries, pool.Memory(), pool.Pages(), loading, k);
      RemoveOwned(entries, pool.Taken(), owner, k);
      RemoveCounted(entries, held, nextId, k);
      ghost var taken, mem := pool.Taken(), pool.Memory();
      pool.ReleaseRun(e.arena, e.first, e.count);
      entries, inflation := entries - {k}, if inflation < e.priority then e.priority else inflation;
      assert pool.Valid() && pool.Taken() == WithoutRun(taken, e.arena, e.first) && pool.Memory() == mem;
    }

    /** An entry of arena `a` that may be evicted, of lowest priority; ties may fall either way. */
    method Victim(a: nat) returns (r: Option<Key>)
      ensures r.None? <==> forall k :: k in entries && entries[k].arena == a ==> !entries[k].Evictable()
      ensures r.Some? ==> r.value in entries && entries[r.value].arena == a && entries[r.value].Evictable()
      ensures r.Some? ==> forall k :: k in entries && entries[k].arena == a && entries[k].Evictable() ==>
        entries[r.value].priority <= entries[k].priority
    {
      r := None;
      var rest := entries.Keys;
      while rest != {}
        invariant rest <= entries.Keys
        invariant r.None? ==> forall k :: k in entries && k !in rest && entries[k].arena == a ==>
                    !entries[k].Evictable()
        invariant r.Some? ==> r.value in entries && entries[r.value].arena == a && entries[r.value].Evictable()
        invariant r.Some? ==>
                    forall k :: k in entries && k !in rest && entries[k].arena == a && entries[k].Evictable() ==>
          entries[r.value].priority <= entries[k].priority
      {
        var k :| k in rest;
        rest := rest - {k};
        if entries[k].arena == a && entries[k].Evictable()
          && (r.None? || entries[k].priority < entries[r.value].priority) {
          r := Some(k);
        }
      }
    }

    /** The arena of `among` with the most free pages' bytes, the first of them on a tie. */
    method MostFree(among: set<nat>) returns (best: nat)
      requires among != {} && forall i :: i in among ==> i < |pool.arenas|
      ensures best in among
      ensures forall j :: j in among ==> Ahead(Frees(), best, j)
    {
      var found := false;
      best := 0;
      for i := 0 to |pool.arenas|
        invariant found ==> best in among && best < i
        invariant found ==> forall j :: 0 <= j < i && j in among ==>
          FreeBytes(j) < FreeBytes(best) || (FreeBytes(j) == FreeBytes(best) && best <= j)
        invariant !found ==> forall j :: 0 <= j < i ==> j !in among
      {
        if i in among && (!found || FreeBytes(i) > FreeBytes(best)) {
          found, best := true, i;
        }
      }
      var j :| j in among;
    }

    /** The free bytes of every arena. */
    ghost function Frees(): (f: seq<nat>)
      reads pool.Allocators()
      ensures |f| == |pool.arenas|
    {
      seq(|pool.arenas|, i requires 0 <= i < |pool.arenas| reads pool.Allocators() => FreeBytes(i))
    }

    function FreeBytes(i: nat): nat
      requires i < |pool.arenas|
      reads pool.arenas[i].allocator
    {
      pool.arenas[i].allocator.freeBlocks * pool.arenas[i].allocator.blockBytes
    }

    /** An arena's free bytes are those of the pages no tensor has. */
    lemma {:induction false} FreeBytesLeft(i: nat)
      requires pool.Valid() && i < |pool.arenas|
      ensures var al := pool.arenas[i].allocator;
              FreeBytes(i) == (al.blockCount - Sum(pool.Taken()[i])) * al.blockBytes
    {
      FreeBlocksConserved(pool.arenas[i].allocator);
    }

    /** The payload is larger than every arena. */
    predicate FitsNowhere(payloadBytes: nat) {
      forall i :: 0 <= i < |pool.arenas| ==> !pool.Capable(i, payloadBytes)
    }

    /** An evicted tensor was worth less than the newcomer's bid, over the inflation value at the start or over what
        went before it. */
    ghost predicate Beaten(before: State, after: Entries, k: Key, payloadBytes: nat, estimate: nat)
      requires k in before.entries
    {
      var e := before.entries[k];
      && e.arena < |pool.arenas|
      && var blocks := pool.Needed(e.arena, payloadBytes);
         || e.priority < Priority(before.inflation, estimate, blocks)
         || exists j ::
              && j in before.entries && j !in after && Earlier(before.entries, j, k)
              && e.priority < Priority(before.entries[j].priority, estimate, blocks)
    }

    ghost predicate Earlier(entries: Entries, j: Key, k: Key) {
      j in entries && k in entries &&
      (entries[j].arena != entries[k].arena || entries[j].priority < entries[k].priority)
    }

    /** Admission: no tensor went that was not beaten by the newcomer. */
    ghost predicate Undercut(before: State, after: Entries, payloadBytes: nat, estimate: nat) {
      forall k :: k in before.entries && k !in after ==> Beaten(before, after, k, payloadBytes, estimate)
    }

    lemma {:induction false} UndercutMore(before: State, mid: Entries, after: Entries, k: Key, payloadBytes: nat,
                                          estimate: nat)
      requires k in before.entries && Beaten(before, mid, k, payloadBytes, estimate) && Shrunk(mid, after)
      ensures Beaten(before, after, k, payloadBytes, estimate)
    {
      hide Priority, Earlier, GpuResourcePool.Needed;
    }

    lemma {:induction false} NoneUndercut(s: State, payloadBytes: nat, estimate: nat)
      ensures Undercut(s, s.entries, payloadBytes, estimate)
    {
    }

    /** One more eviction from the arena everything went from. */
    lemma {:induction false} UndercutOne(before: State, mid: State, c: nat, v: Key, payloadBytes: nat, estimate: nat)
      requires Shrunk(before.entries, mid.entries) && LowestFirst(before.entries, mid.entries, c)
      requires Inflated(before.entries, before.inflation, mid.entries, mid.inflation)
      requires Undercut(before, mid.entries, payloadBytes, estimate) && c < |pool.arenas|
      requires v in mid.entries && mid.entries[v].arena == c && mid.entries[v].Evictable()
      requires mid.entries[v].priority < Priority(mid.inflation, estimate, pool.Needed(c, payloadBytes))
      ensures Undercut(before, mid.entries - {v}, payloadBytes, estimate)
    {
      hide Priority, GpuResourcePool.Needed, Beaten;
      ShrunkOne(mid.entries, v);
      var after := mid.entries - {v};
      forall k | k in before.entries && k !in after ensures Beaten(before, after, k, payloadBytes, estimate) {
        if k != v {
          UndercutMore(before, mid.entries, after, k, payloadBytes, estimate);
        } else {
          VictimBeaten(before, mid, c, v, payloadBytes, estimate);
        }
      }
    }

    lemma {:induction false} VictimBeaten(before: State, mid: State, c: nat, v: Key, payloadBytes: nat, estimate: nat)
      requires Shrunk(before.entries, mid.entries) && LowestFirst(before.entries, mid.entries, c)
      requires Inflated(before.entries, before.inflation, mid.entries, mid.inflation)
      requires Undercut(before, mid.entries, payloadBytes, estimate) && c < |pool.arenas|
      requires v in mid.entries && mid.entries[v].arena == c && mid.entries[v].Evictable()
      requires mid.entries[v].priority < Priority(mid.inflation, estimate, pool.Needed(c, payloadBytes))
      ensures v in before.entries && Beaten(before, mid.entries - {v}, v, payloadBytes, estimate)
    {
      hide Priority, GpuResourcePool.Needed;
      if mid.inflation != before.inflation {
        var j :| j in before.entries && j !in mid.entries && before.entries[j].priority == mid.inflation;
        assert before.entries[j].arena == c && before.entries[j].priority <= before.entries[v].priority;
        if before.entries[j].priority == before.entries[v].priority {
          assert Beaten(before, mid.entries, j, payloadBytes, estimate);
        } else {
          assert Earlier(before.entries, j, v);
        }
      }
    }

    /** Evictions from another arena after those. */
    lemma {:induction false} UndercutNext(before: State, mid: State, after: Entries, c: nat, payloadBytes: nat,
                                          estimate: nat)
      requires Shrunk(before.entries, mid.entries) && Shrunk(mid.entries, after)
      requires Inflated(before.entries, before.inflation, mid.entries, mid.inflation)
      requires Undercut(before, mid.entries, payloadBytes, estimate) && Undercut(mid, after, payloadBytes, estimate)
      requires LowestFirst(mid.entries, after, c)
      requires forall k :: k in before.entries && k !in mid.entries ==> before.entries[k].arena != c
      ensures Undercut(before, after, payloadBytes, estimate)
    {
      hide Priority, GpuResourcePool.Needed;
      forall k | k in before.entries && k !in after ensures Beaten(before, after, k, payloadBytes, estimate) {
        if k !in mid.entries {
          UndercutMore(before, mid.entries, after, k, payloadBytes, estimate);
        } else {
          LaterBeaten(before, mid, after, c, k, payloadBytes, estimate);
        }
      }
    }

    lemma {:induction false} UndercutGone(before: State, mid: State, after: Entries, arenas: set<nat>, c: nat,
                                          payloadBytes: nat, estimate: nat)
      requires Shrunk(before.entries, mid.entries) && Shrunk(mid.entries, after)
      requires Inflated(before.entries, before.inflation, mid.entries, mid.inflation)
      requires Undercut(before, mid.entries, payloadBytes, estimate) && Undercut(mid, after, payloadBytes, estimate)
      requires LowestFirst(mid.entries, after, c) && GoneFrom(before.entries, mid.entries, arenas) && c !in arenas
      ensures Undercut(before, after, payloadBytes, estimate)
    {
      hide Undercut;
      UndercutNext(before, mid, after, c, payloadBytes, estimate);
    }

    lemma {:induction false} LaterBeaten(before: State, mid: State, after: Entries, c: nat, k: Key, payloadBytes: nat,
                                         estimate: nat)
      requires Shrunk(before.entries, mid.entries) && Shrunk(mid.entries, after)
      requires Inflated(before.entries, before.inflation, mid.entries, mid.inflation)
      requires k in mid.entries && k !in after && mid.entries[k].arena == c
      requires Beaten(mid, after, k, payloadBytes, estimate)
      requires forall k :: k in before.entries && k !in mid.entries ==> before.entries[k].arena != c
      ensures k in before.entries && Beaten(before, after, k, payloadBytes, estimate)
    {
      hide Priority, GpuResourcePool.Needed;
      var e, blocks := mid.entries[k], pool.Needed(c, payloadBytes);
      if e.priority < Priority(mid.inflation, estimate, blocks) {
        if mid.inflation != before.inflation {
          var j :| j in before.entries && j !in mid.entries && before.entries[j].priority == mid.inflation;
          assert Earlier(before.entries, j, k) && j !in after;
        }
      } else {
        var j :| j in mid.entries && j !in after && Earlier(mid.entries, j, k)
          && e.priority < Priority(mid.entries[j].priority, estimate, blocks);
        assert Earlier(before.entries, j, k);
      }
    }

    /** Evict from arena `c`, lowest priority first, until the payload fits, nothing may be evicted,
        or admission is lost. */
    method EvictFrom(c: nat, payloadBytes: nat, enforceAdmission: bool, estimate: nat, ghost loading: set<Key>)
      returns (rejected: bool)
      requires Inv(loading) && c < |pool.arenas|
      modifies this`entries, this`inflation, pool.Allocators()
      ensures Inv(loading) && Shrunk(old(entries), entries)
      ensures LowestFirst(old(entries), entries, c) && Inflated(old(entries), old(inflation), entries, inflation)
      ensures enforceAdmission ==> Undercut(State(old(entries), old(inflation)), entries, payloadBytes, estimate)
      ensures rejected ==> enforceAdmission && pool.Largest(c) < pool.Needed(c, payloadBytes)
      ensures rejected ==> Outbid(entries, c, Priority(inflation, estimate, pool.Needed(c, payloadBytes)))
      ensures !rejected ==> pool.Largest(c) >= pool.Needed(c, payloadBytes) || ArenaInUse(entries, c)
      ensures !old(FitsNow(payloadBytes)) && pool.Largest(c) < pool.Needed(c, payloadBytes) ==> !FitsNow(payloadBytes)
      ensures forall i :: 0 <= i < |pool.arenas| && i != c ==> Frees()[i] == old(Frees())[i]
    {
      hide Inv, Counted, Shrunk, LowestFirst, Inflated, Undercut, Priority, FreeBytes, GpuResourcePool.Valid,
           GpuResourcePool.Largest, GpuResourcePool.Needed;
      Apart(loading);
      ShrunkSelf(entries);
      InflatedSelf(entries, inflation);
      LowestNone(entries, c);
      ghost var start := State(entries, inflation);
      NoneUndercut(start, payloadBytes, estimate);
      while pool.Largest(c) < pool.Needed(c, payloadBytes)
        invariant Inv(loading) && pool.Valid() && Shrunk(old(entries), entries) && LowestFirst(old(entries), entries, c)
        invariant Inflated(old(entries), old(inflation), entries, inflation)
        invariant enforceAdmission ==> Undercut(start, entries, payloadBytes, estimate)
        invariant forall i :: 0 <= i < |pool.arenas| && i != c ==>
                    pool.Largest(i) == old(pool.Largest(i)) && FreeBytes(i) == old(FreeBytes(i))
        decreases |entries|
      {
        var victim := Victim(c);
        if victim.None? {
          return false;
        }
        var candidate := Priority(inflation, estimate, pool.Needed(c, payloadBytes));
        if enforceAdmission && candidate <= entries[victim.value].priority {
          return true;
        }
        ghost var before, value := entries, inflation;
        if enforceAdmission {
          UndercutOne(start, State(entries, inflation), c, victim.value, payloadBytes, estimate);
        }
        LowestNext(old(entries), entries, c, victim.value);
        Evict(victim.value, loading);
        Apart(loading);
        ShrunkOne(before, victim.value);
        ShrunkTransitive(old(entries), before, entries);
        InflatedOne(before, value, victim.value, inflation);
        InflatedNext(old(entries), old(inflation), before, value, entries, inflation);
      }
      return false;
    }
  
    /** Some arena has a free run long enough right now. */
    ghost predicate FitsNow(payloadBytes: nat)
      requires pool.Valid()
      reads pool.Allocators()
    {
      exists i :: 0 <= i < |pool.arenas| && pool.Largest(i) >= pool.Needed(i, payloadBytes)
    }

    /** In some arena that could take the payload, each tensor that may go is worth at least the newcomer. */
    ghost predicate OutbidAt(s: State, payloadBytes: nat, estimate: nat) {
      exists c :: 0 <= c < |pool.arenas| && pool.Capable(c, payloadBytes)
        && Outbid(s.entries, c, Priority(s.inflation, estimate, pool.Needed(c, payloadBytes)))
    }

    /** No tensor of any arena that could take the payload may go. */
    ghost predicate BusyFor(entries: Entries, payloadBytes: nat) {
      forall c :: 0 <= c < |pool.arenas| && pool.Capable(c, payloadBytes) ==> ArenaInUse(entries, c)
    }

    /** An arena with a free run long enough right now, the first of those with the most free bytes. */
    method FindArena(payloadBytes: nat) returns (r: Option<nat>)
      requires pool.Valid()
      ensures r.Some? <==> FitsNow(payloadBytes)
      ensures r.Some? ==> r.value < |pool.arenas| && pool.Largest(r.value) >= pool.Needed(r.value, payloadBytes)
      ensures r.Some? ==> forall i :: 0 <= i < |pool.arenas| && pool.Largest(i) >= pool.Needed(i, payloadBytes) ==>
        Ahead(Frees(), r.value, i)
    {
      hide FixedBlockAllocator.Indexed, FixedBlockAllocator.BlocksFor, Partition, FreeBytes, Frees, Ahead;
      var fitting := set i | 0 <= i < |pool.arenas| && pool.Largest(i) >= pool.Needed(i, payloadBytes);
      if fitting == {} {
        assert forall i :: 0 <= i < |pool.arenas| && pool.Largest(i) >= pool.Needed(i, payloadBytes) ==> i in fitting;
        return None;
      }
      var best := MostFree(fitting);
      return Some(best);
    }

    /** Find or make room for a payload (`_allocate` up to the choice of arena). */
    method MakeRoom(payloadBytes: nat, enforceAdmission: bool, estimate: nat, ghost loading: set<Key>) returns (r: Room)
      requires Inv(loading)
      modifies this`entries, this`inflation, pool.Allocators()
      ensures Inv(loading) && Evicting(State(old(entries), old(inflation)), State(entries, inflation))
      ensures Shrunk(old(entries), entries)
      ensures r.At? ==> r.arena < |pool.arenas| && pool.Largest(r.arena) >= pool.Needed(r.arena, payloadBytes)
      ensures r.TooLarge? <==> FitsNowhere(payloadBytes)
      ensures r.Rejected? ==>
        && enforceAdmission && allowEviction && !FitsNow(payloadBytes)
        && OutbidAt(State(entries, inflation), payloadBytes, estimate)
      ensures r.TooLarge? || !allowEviction ==> entries == old(entries) && inflation == old(inflation)
      ensures enforceAdmission ==> Undercut(State(old(entries), old(inflation)), entries, payloadBytes, estimate)
      ensures old(FitsNow(payloadBytes)) ==>
        r.TooLarge? || (r.At? && entries == old(entries) && inflation == old(inflation))
      ensures old(FitsNow(payloadBytes)) && r.At? ==>
                forall i :: 0 <= i < |pool.arenas| && pool.Largest(i) >= pool.Needed(i, payloadBytes) ==>
        Ahead(Frees(), r.arena, i)
      ensures !old(FitsNow(payloadBytes)) && r.At? ==>
                forall i :: 0 <= i < |pool.arenas| && pool.Capable(i, payloadBytes) ==>
        ArenaInUse(entries, i) || Ahead(old(Frees()), r.arena, i)
      ensures r.NoRoom? ==> !FitsNow(payloadBytes) && (allowEviction ==> BusyFor(entries, payloadBytes))
      ensures r.NoRoom? && allowEviction ==> !Idle(old(entries))
    {
      hide Owned, Counted, Loaded, Roomy;
      hide GpuResourcePool.Valid, GpuResourcePool.Taken, GpuResourcePool.Memory, GpuResourcePool.Pages,
           GpuResourcePool.Largest, GpuResourcePool.Needed, GpuResourcePool.Capable, FitsNow, OutbidAt,
           Inflated, ArenaInUse, CheapestFirst, FreeBytes, Frees, Ahead, Undercut;
      InflatedSelf(entries, inflation);
      NoneUndercut(State(entries, inflation), payloadBytes, estimate);
      NoneGone(entries);
      var fitting := FindArena(payloadBytes);
      var capable := set i | 0 <= i < |pool.arenas| && pool.Capable(i, payloadBytes);
      assert forall i :: 0 <= i < |pool.arenas| && pool.Capable(i, payloadBytes) ==> i in capable;
      if capable == {} {
        return TooLarge;
      }
      if fitting.Some? {
        return At(fitting.value);
      }
      if !allowEviction {
        return NoRoom;
      }
      r := EvictForRoom(capable, payloadBytes, enforceAdmission, estimate, loading);
    }

    /** Go through the capable arenas, the one with the most free bytes first, evicting until the payload fits. */
    method EvictForRoom(capable: set<nat>, payloadBytes: nat, enforceAdmission: bool, estimate: nat,
                        ghost loading: set<Key>)
      returns (r: Room)
      requires Inv(loading) && capable != {}
      requires forall i :: i in capable <==> 0 <= i < |pool.arenas| && pool.Capable(i, payloadBytes)
      requires !FitsNow(payloadBytes)
      modifies this`entries, this`inflation, pool.Allocators()
      ensures Inv(loading) && Shrunk(old(entries), entries) && !r.TooLarge?
      ensures Inflated(old(entries), old(inflation), entries, inflation) && CheapestFirst(old(entries), entries)
      ensures enforceAdmission ==> Undercut(State(old(entries), old(inflation)), entries, payloadBytes, estimate)
      ensures r.At? ==> forall i :: i in capable ==>
        ArenaInUse(entries, i) || Ahead(old(Frees()), r.arena, i)
      ensures r.At? ==> r.arena in capable && pool.Largest(r.arena) >= pool.Needed(r.arena, payloadBytes)
      ensures r.Rejected? ==> enforceAdmission && OutbidAt(State(entries, inflation), payloadBytes, estimate)
      ensures !r.At? ==> !FitsNow(payloadBytes)
      ensures r.NoRoom? ==> (forall i :: i in capable ==> ArenaInUse(entries, i)) && !Idle(old(entries))
    {
      hide Inv, Counted, FitsNow, ArenaInUse, Shrunk, Idle, LowestFirst, Outbid, OutbidAt, Priority, Inflated;
      hide CheapestFirst, GoneFrom, FreeBytes, Frees, Undercut;
      hide GpuResourcePool.Valid, GpuResourcePool.Largest, GpuResourcePool.Needed, GpuResourcePool.Capable;
      Apart(loading);
      ShrunkSelf(entries);
      InflatedSelf(entries, inflation);
      assert CheapestFirst(entries, entries) && GoneFrom(entries, entries, {}) by { NoneGone(entries); }
      assert capable - capable == {};
      ghost var start := State(entries, inflation);
      NoneUndercut(start, payloadBytes, estimate);
      var remaining := capable;
      while remaining != {}
        invariant remaining <= capable
        invariant Inv(loading) && pool.Valid() && Shrunk(old(entries), entries)
        invariant Inflated(old(entries), old(inflation), entries, inflation)
        invariant forall i :: i in capable && i !in remaining ==> ArenaInUse(entries, i)
        invariant forall i :: i in remaining ==> Frees()[i] == old(Frees())[i]
        invariant enforceAdmission ==> Undercut(start, entries, payloadBytes, estimate)
        invariant CheapestFirst(old(entries), entries) && GoneFrom(old(entries), entries, capable - remaining)
        invariant !FitsNow(payloadBytes)
      {
        var c := MostFree(remaining);
        assert forall i :: i in remaining ==> Ahead(old(Frees()), c, i);
        ghost var before, value := entries, inflation;
        var rejected := EvictFrom(c, payloadBytes, enforceAdmission, estimate, loading);
        Apart(loading);
        ShrunkTransitive(old(entries), before, entries);
        InflatedNext(old(entries), old(inflation), before, value, entries, inflation);
        GoneNext(old(entries), before, entries, capable - remaining, c);
        if enforceAdmission {
          UndercutGone(start, State(before, value), entries, capable - remaining, c, payloadBytes, estimate);
        }
        InUseShrunk(before, entries);
        assert c in capable && capable - remaining + {c} == capable - (remaining - {c});
        if rejected {
          OutbidNow(c, payloadBytes, estimate);
          return Rejected;
        }
        if pool.Largest(c) >= pool.Needed(c, payloadBytes) {
          return At(c);
        }
        remaining := remaining - {c};
      }
      ghost var c :| c in capable;
      NotFitting(c, payloadBytes);
      NoRoomMeansBusy(c, payloadBytes, old(entries), loading);
      return NoRoom;
    }

    lemma {:induction false} OutbidNow(c: nat, payloadBytes: nat, estimate: nat)
      requires c < |pool.arenas| && pool.Capable(c, payloadBytes)
      requires Outbid(entries, c, Priority(inflation, estimate, pool.Needed(c, payloadBytes)))
      ensures OutbidAt(State(entries, inflation), payloadBytes, estimate)
    {
    }

    lemma {:induction false} NotFitting(c: nat, payloadBytes: nat)
      requires pool.Valid() && c < |pool.arenas| && !FitsNow(payloadBytes)
      ensures pool.Largest(c) < pool.Needed(c, payloadBytes)
    {
    }

    /** Coalescing makes eviction effective: a capable arena out of room still has a tensor in use. */
    lemma {:induction false} NoRoomMeansBusy(c: nat, payloadBytes: nat, before: Entries, loading: set<Key>)
      requires Inv(loading) && c < |pool.arenas| && pool.Capable(c, payloadBytes)
      requires pool.Largest(c) < pool.Needed(c, payloadBytes) && ArenaInUse(entries, c) && Shrunk(before, entries)
      ensures !Idle(before)
    {
      if Idle(before) {
        UnownedArena(entries, pool.Taken(), owner, c);
        pool.EmptyArena(c);
      }
    }

    /** Bring a tensor that is not resident into arena `a`, with one handle out; its bytes come later. */
    method Admit(a: nat, load: Load, estimate: nat, ghost loading: set<Key>) returns (h: Handle)
      requires Inv(loading) && load.key !in entries && load.payload != []
      requires a < |pool.arenas| && pool.Largest(a) >= pool.Needed(a, |load.payload|)
      modifies this`entries, this`nextId, this`owner, this`held, pool.Allocators()
      ensures Inv(loading + {load.key}) && h == Handle(load.key, old(nextId))
      ensures nextId == old(nextId) + 1 && held == old(held) + multiset{h}
      ensures load.key in entries && entries == old(entries)[load.key := entries[load.key]]
      ensures var e := entries[load.key];
              && e.id == h.id && e.payload == load.payload && e.references == 1 && e.pinned == load.pin
              && e.arena == a && e.count == pool.Needed(a, |load.payload|)
              && e.priority == Priority(inflation, estimate, e.count)
    {
      hide Owned, Counted, Loaded, Roomy;
      hide GpuResourcePool.Valid, GpuResourcePool.Taken, GpuResourcePool.Memory, GpuResourcePool.Pages,
           GpuResourcePool.Allocators, GpuResourcePool.Storages, GpuResourcePool.Largest, GpuResourcePool.Needed;
      ghost var taken, mem := pool.Taken(), pool.Memory();
      var first, count := pool.AllocateRun(a, |load.payload|);
      var e := Entry(nextId, a, first, count, load.payload, 1, load.pin, Priority(inflation, estimate, count));
      InsertOwned(entries, taken, owner, load.key, e);
      InsertCounted(entries, held, nextId, load.key, e);
      InsertLoaded(entries, mem, pool.Pages(), loading, load.key, e);
      h := Handle(load.key, nextId);
      entries, nextId := entries[load.key := e], nextId + 1;
      owner, held := owner[(a, first) := load.key], held + multiset{h};
    }

    /** Another handle for a resident tensor. */
    method Touch(k: Key, pin: bool, frequency: nat, ghost loading: set<Key>) returns (h: Handle)
      requires Inv(loading) && k in entries
      modifies this`entries, this`held
      ensures Inv(loading) && h == Handle(k, old(entries)[k].id)
      ensures held == old(held) + multiset{h}
      ensures k in entries && entries == old(entries)[k := entries[k]]
      ensures var e, e0 := entries[k], old(entries)[k];
              && e.SamePlace(e0) && e.references == e0.references + 1 && e.pinned == (e0.pinned || pin)
              && e.priority == Priority(inflation, frequency, e.count)
    {
      hide Owned, Counted, Loaded, Roomy;
      hide GpuResourcePool.Valid, GpuResourcePool.Taken, GpuResourcePool.Memory, GpuResourcePool.Pages,
           GpuResourcePool.Allocators, GpuResourcePool.Storages;
      var e0 := entries[k];
      var e := e0.(references := e0.references + 1, pinned := e0.pinned || pin,
                   priority := Priority(inflation, frequency, e0.count));
      UpdateOwned(entries, pool.Taken(), owner, k, e);
      AddCounted(entries, held, nextId, k, e);
      UpdateLoaded(entries, pool.Memory(), pool.Pages(), loading, k, e);
      h := Handle(k, e0.id);
      entries, held := entries[k := e], held + multiset{h};
    }
  
    /** Remove a tensor that never became ready, with every handle given out for it. */
    method Purge(k: Key, ghost loading: set<Key>)
      requires Inv(loading) && k in entries
      modifies this`entries, this`held, pool.Allocators()
      ensures Inv(loading) && entries == old(entries) - {k}
      ensures held == old(held)[Handle(k, old(entries)[k].id) := 0]
    {
      hide Owned, Counted, Loaded, Roomy;
      hide GpuResourcePool.Valid, GpuResourcePool.Taken, GpuResourcePool.Memory, GpuResourcePool.Pages,
           GpuResourcePool.Allocators, GpuResourcePool.Storages, GpuResourcePool.Largest;
      var e := entries[k];
      EntryRun(entries, pool.Taken(), owner, k);
      RemoveLoaded(entries, pool.Memory(), pool.Pages(), loading, k);
      RemoveOwned(entries, pool.Taken(), owner, k);
      PurgeCounted(entries, held, nextId, k);
      pool.ReleaseRun(e.arena, e.first, e.count);
      entries, held := entries - {k}, held[Handle(k, e.id) := 0];
    }

    /** Give one handle back. */
    method Unref(h: Handle, ghost loading: set<Key>)
      requires Inv(loading) && h in held
      modifies this`entries, this`held
      ensures Inv(loading) && held == old(held) - multiset{h}
      ensures h.key in old(entries) && old(entries)[h.key].id == h.id && old(entries)[h.key].references > 0
      ensures entries == old(entries)[h.key := Unreferenced(old(entries)[h.key])]
    {
      hide Owned, Counted, Loaded, Roomy;
      hide GpuResourcePool.Valid, GpuResourcePool.Taken, GpuResourcePool.Memory, GpuResourcePool.Pages,
           GpuResourcePool.Allocators, GpuResourcePool.Storages;
      HeldEntry(entries, held, nextId, h);
      var e := Unreferenced(entries[h.key]);
      UpdateOwned(entries, pool.Taken(), owner, h.key, e);
      DropCounted(entries, held, nextId, h.key, e);
      UpdateLoaded(entries, pool.Memory(), pool.Pages(), loading, h.key, e);
      entries, held := entries[h.key := e], held - multiset{h};
    }

    /** Release (`release`): refused exactly when the handle is not out. */
    method Release(h: Handle) returns (ok: bool)
      requires Valid()
      modifies this`entries, this`held
      ensures Valid() && ok == (h in old(held))
      ensures ok ==> held == old(held) - multiset{h}
      ensures !ok ==> entries == old(entries) && held == old(held)
      ensures ok ==> h.key in old(entries) && old(entries)[h.key].id == h.id && old(entries)[h.key].references > 0
      ensures ok ==> entries == old(entries)[h.key := Unreferenced(old(entries)[h.key])]
    {
      hide Owned, Counted, Loaded, Roomy;
      hide GpuResourcePool.Valid, GpuResourcePool.Taken, GpuResourcePool.Memory, GpuResourcePool.Pages,
           GpuResourcePool.Allocators, GpuResourcePool.Storages;
      ok := h.key in entries && entries[h.key].id == h.id && entries[h.key].references > 0;
      HandleIsHeld(entries, held, nextId, h);
      if ok {
        Unref(h, {});
      }
    }
  
    /** Copy the new tensors of arena `a` to the device, or only the first `limit` of them. */
    method UploadArena(a: nat, order: seq<Key>, limit: Option<nat>, ghost loading: set<Key>)
      requires Inv(loading) && a < |pool.arenas| && Distinct(order)
      requires forall k :: k in order ==> k in entries && (entries[k].arena == a ==> k in loading)
      modifies pool.Storages(), pool.Stagings()
      ensures Inv(loading)
      ensures limit.None? ==> Inv(loading - (set k | k in order && entries[k].arena == a))
    {
      hide Owned, Counted, Loaded, Roomy;
      hide GpuResourcePool.Valid, GpuResourcePool.Taken, GpuResourcePool.Memory, GpuResourcePool.Pages,
           GpuResourcePool.Allocators, GpuResourcePool.Storages, GpuResourcePool.Stagings;
      var items := ItemsFor(entries, order, a);
      pool.RunsInside(a);
      ItemsApart(entries, pool.Taken(), owner, pool.Pages(), order, a);
      ItemsUploadable(entries, pool.Taken(), owner, pool.Pages(), order, a, pool.arenas[a].allocator.blockCount);
      if limit.Some? && limit.value < |items| {
        assert ToRuns(items[..limit.value]) == ToRuns(items)[..limit.value];
        items := items[..limit.value];
      }
      ghost var before := pool.Memory();
      assert LoadingItems(entries, loading, a, items);
      hide LoadingItems;
      pool.Upload(a, items);
      UploadLoaded(entries, pool.Taken(), owner, before, pool.Memory(), pool.Pages(), loading, {}, a, items);
      assert loading - {} == loading;
      if limit.None? {
        ghost var ready := set k | k in order && entries[k].arena == a;
        UploadLoaded(entries, pool.Taken(), owner, before, pool.Memory(), pool.Pages(), loading, ready, a, items);
      }
    }
  
    /** Copy all new tensors to their arenas; a fault stops after some uploads of one arena. */
    method UploadNew(order: seq<Key>, fault: Option<Fault>, ghost loading: set<Key>) returns (ok: bool)
      requires Inv(loading) && Distinct(order) && loading == KeySet(order)
      requires forall k :: k in order ==> k in entries
      modifies pool.Storages(), pool.Stagings()
      ensures Inv(loading)
      ensures ok ==> Valid()
      ensures ok <==> fault.None? || fault.value.arena >= |pool.arenas|
    {
      hide Owned, Counted, Loaded, Roomy;
      hide GpuResourcePool.Valid, GpuResourcePool.Taken, GpuResourcePool.Memory, GpuResourcePool.Pages,
           GpuResourcePool.Allocators, GpuResourcePool.Storages, GpuResourcePool.Stagings;
      ghost var rest := loading;
      for a := 0 to |pool.arenas|
        invariant Inv(rest) && entries == old(entries)
        invariant rest == set k | k in order && entries[k].arena >= a
        invariant fault.Some? ==> fault.value.arena >= a
      {
        if fault.Some? && fault.value.arena == a {
          UploadArena(a, order, Some(fault.value.uploads), rest);
          LoadedMore(entries, pool.Memory(), pool.Pages(), rest, loading);
          return false;
        }
        UploadArena(a, order, None, rest);
        rest := rest - (set k | k in order && entries[k].arena == a);
      }
      LoadedMore(entries, pool.Memory(), pool.Pages(), rest, loading);
      assert rest == {} by {
        forall k | k in order ensures entries[k].arena < |pool.arenas| { EntryRun(entries, pool.Taken(), owner, k); }
      }
      return true;
    }
  
    lemma {:induction false} UndercutKept(start: State, mid: Entries, after: Entries, k: Key, payloadBytes: nat,
                                          estimate: nat)
      requires Undercut(start, mid, payloadBytes, estimate) && after - {k} == mid && k !in start.entries
      ensures Undercut(start, after, payloadBytes, estimate)
    {
      hide Priority, GpuResourcePool.Needed;
      assert forall j :: j in start.entries ==> (j in after <==> j in mid);
      forall j | j in start.entries && j !in after ensures Beaten(start, after, j, payloadBytes, estimate) {
        assert Beaten(start, mid, j, payloadBytes, estimate);
      }
    }

    lemma {:induction false} DecidedGot(start: State, mid: State, h: Handle, end: State, load: Load,
                                        enforceAdmission: bool, estimate: nat)
      requires load.key !in start.entries && load.key in end.entries && !FitsNowhere(|load.payload|)
      requires enforceAdmission && !load.pin ==> Undercut(start, end.entries, |load.payload|, estimate)
      requires Evicting(start, mid) && (RoomIn(start.entries, |load.payload|) || !allowEviction ==> mid == start)
      requires end.entries - {load.key} == mid.entries && end.inflation == mid.inflation
      requires var e := end.entries[load.key];
               && h == Handle(load.key, e.id) && e.payload == load.payload && e.references == 1 && e.pinned == load.pin
               && e.arena < |pool.arenas| && e.count == pool.Needed(e.arena, |load.payload|)
               && e.priority == Priority(end.inflation, estimate, e.count)
      ensures Decided(Decision(start, Got(h), end), load, enforceAdmission, 0, estimate)
    {
      hide Evicting, RoomIn, FitsNowhere, Priority, Undercut;
      assert State(end.entries - {load.key}, end.inflation) == mid;
    }

    /** Admit one load of a batch. */
    method AdmitLoad(a: nat, load: Load, enforceAdmission: bool, estimate: nat, ghost start: State,
                     ghost loading: set<Key>, ghost before: Entries, ghost mark: nat, ghost pins: set<Key>)
      returns (h: Handle)
      requires Inv(loading) && load.payload != [] && load.key !in entries
      requires a < |pool.arenas| && pool.Largest(a) >= pool.Needed(a, |load.payload|)
      requires load.key !in start.entries && !FitsNowhere(|load.payload|) && Evicting(start, State(entries, inflation))
      requires RoomIn(start.entries, |load.payload|) || !allowEviction ==> State(entries, inflation) == start
      requires enforceAdmission && !load.pin ==> Undercut(start, entries, |load.payload|, estimate)
      requires Grown(before, entries, mark, pins) && Fresh(entries, loading, mark) && mark <= nextId
      modifies this`entries, this`nextId, this`owner, this`held, pool.Allocators()
      ensures Inv(loading + {load.key}) && Fresh(entries, loading + {load.key}, mark) && load.key !in loading
      ensures mark <= nextId && Grown(before, entries, mark, pins + {load.key}) && Grown(before, entries, mark, pins)
      ensures held == old(held) + multiset{h}
      ensures Decided(Decision(start, Got(h), State(entries, inflation)), load, enforceAdmission, 0, estimate)
    {
      hide *;
      Apart(loading);
      ghost var mid, end := entries, State(entries, inflation);
      h := Admit(a, load, estimate, loading);
      FreshInsert(mid, loading, mark, load.key, entries[load.key]);
      GrownInsert(before, mid, mark, pins, load.key, entries[load.key]);
      GrownAbsent(before, entries, mark, pins, load.key);
      assert entries - {load.key} == mid;
      if enforceAdmission && !load.pin { UndercutKept(start, mid, entries, load.key, |load.payload|, estimate); }
      DecidedGot(start, end, h, State(entries, inflation), load, enforceAdmission, estimate);
    }

    lemma {:induction false} DecidedNot(start: State, slot: Slot, end: State, load: Load, enforceAdmission: bool,
                                        estimate: nat)
      requires load.key !in start.entries && !slot.Got? && Evicting(start, end)
      requires enforceAdmission && !load.pin ==> Undercut(start, end.entries, |load.payload|, estimate)
      requires FitsNowhere(|load.payload|) ==> slot.Bypassed? && end == start
      requires !FitsNowhere(|load.payload|) ==> !RoomIn(end.entries, |load.payload|)
      requires slot.Bypassed? && !FitsNowhere(|load.payload|) ==>
        enforceAdmission && !load.pin && allowEviction && OutbidAt(end, |load.payload|, estimate)
      requires slot.Deferred? ==> if allowEviction then BusyFor(end.entries, |load.payload|) else end == start
      ensures Decided(Decision(start, slot, end), load, enforceAdmission, 0, estimate)
    {
      hide Evicting, RoomIn, FitsNowhere, OutbidAt, BusyFor, Undercut;
    }

    /** A load whose tensor is not resident: admission, bypass or deferral. */
    method AcquireMissing(load: Load, enforceAdmission: bool, estimate: nat,
                          ghost loading: set<Key>, ghost before: Entries, ghost mark: nat, ghost pins: set<Key>)
      returns (slot: Slot)
      requires Inv(loading) && load.payload != [] && load.key !in entries
      requires Grown(before, entries, mark, pins) && Fresh(entries, loading, mark) && mark <= nextId
      modifies this`entries, this`nextId, this`inflation, this`owner, this`held, pool.Allocators()
      ensures slot.Got? ==> load.key !in loading
      ensures Inv(if slot.Got? then loading + {load.key} else loading)
      ensures Fresh(entries, if slot.Got? then loading + {load.key} else loading, mark) && mark <= nextId
      ensures Grown(before, entries, mark, if load.pin then pins + {load.key} else pins)
      ensures held == if slot.Got? then old(held) + multiset{slot.handle} else old(held)
      ensures slot.Deferred? && allowEviction ==> !Idle(old(entries))
      ensures Decided(Decision(State(old(entries), old(inflation)), slot, State(entries, inflation)), load,
                      enforceAdmission, 0, estimate)
    {
      hide *;
      Apart(loading);
      ghost var mid, start := entries, State(entries, inflation);
      FitsIff(|load.payload|, loading);
      var room := MakeRoom(|load.payload|, enforceAdmission && !load.pin, estimate, loading);
      FitsIff(|load.payload|, loading);
      assert load.key !in entries by { ShrunkAbsent(mid, entries, load.key); }
      GrownShrink(before, mid, entries, mark, pins);
      FreshShrink(mid, entries, loading, mark);
      ghost var end := State(entries, inflation);
      if room.At? {
        var h := AdmitLoad(room.arena, load, enforceAdmission, estimate, start, loading, before, mark, pins);
        return Got(h);
      }
      GrownAbsent(before, entries, mark, pins, load.key);
      slot := if room.NoRoom? then Deferred else Bypassed;
      DecidedNot(start, slot, end, load, enforceAdmission, estimate);
    }
  
    /** Handle one load of a batch: a hit takes another handle, a miss is admitted, bypassed or deferred. */
    method AcquireOne(load: Load, enforceAdmission: bool, frequency: nat, estimate: nat,
                      ghost loading: set<Key>, ghost before: Entries, ghost mark: nat, ghost pins: set<Key>)
      returns (slot: Slot, isNew: bool)
      requires Inv(loading) && load.payload != []
      requires Grown(before, entries, mark, pins) && Fresh(entries, loading, mark) && mark <= nextId
      modifies this`entries, this`nextId, this`inflation, this`owner, this`held, pool.Allocators()
      ensures isNew ==> load.key !in loading
      ensures Inv(if isNew then loading + {load.key} else loading)
      ensures Fresh(entries, if isNew then loading + {load.key} else loading, mark) && mark <= nextId
      ensures Grown(before, entries, mark, if load.pin then pins + {load.key} else pins)
      ensures isNew <==> slot.Got? && load.key !in old(entries)
      ensures held == if slot.Got? then old(held) + multiset{slot.handle} else old(held)
      ensures slot.Deferred? && allowEviction ==> !Idle(old(entries))
      ensures Decided(Decision(State(old(entries), old(inflation)), slot, State(entries, inflation)), load,
                      enforceAdmission, frequency, estimate)
    {
      hide Inv, Grown, Fresh, Idle, Admitted, Evicting, RoomIn, FitsNowhere, OutbidAt, BusyFor, Priority, Undercut;
      if load.key in entries {
        ghost var mid := entries;
        var h := Touch(load.key, load.pin, frequency, loading);
        GrownTouch(before, mid, mark, pins, load.key, entries[load.key], load.pin);
        FreshTouch(mid, loading, mark, load.key, entries[load.key]);
        return Got(h), false;
      }
      slot := AcquireMissing(load, enforceAdmission, estimate, loading, before, mark, pins);
      isNew := slot.Got?;
    }
  
    /** The pages from `p` of arena `a` have room for the payload, and no tensor is there. */
    ghost predicate RoomAt(entries: Entries, a: nat, p: nat, payloadBytes: nat) {
      && a < |pool.arenas| && p + pool.Needed(a, payloadBytes) <= pool.arenas[a].allocator.blockCount
      && VacantIn(entries, a, p, pool.Needed(a, payloadBytes))
    }

    ghost predicate RoomIn(entries: Entries, payloadBytes: nat) {
      exists a, p :: RoomAt(entries, a, p, payloadBytes)
    }

    /** The free runs offer what the resident tensors leave. */
    lemma {:induction false} FitsIff(payloadBytes: nat, loading: set<Key>)
      requires Inv(loading) && payloadBytes > 0
      ensures FitsNow(payloadBytes) <==> RoomIn(entries, payloadBytes)
    {
      hide Owned, Counted, Loaded, Roomy, Vacant, VacantIn;
      forall i | 0 <= i < |pool.arenas|
        ensures pool.Largest(i) >= pool.Needed(i, payloadBytes) <==> exists p :: RoomAt(entries, i, p, payloadBytes)
      {
        FitsArena(i, payloadBytes, loading);
      }
      if a, p :| RoomAt(entries, a, p, payloadBytes) {
        assert pool.Largest(a) >= pool.Needed(a, payloadBytes);
      }
    }

    lemma {:induction false} FitsArena(i: nat, payloadBytes: nat, loading: set<Key>)
      requires Inv(loading) && payloadBytes > 0 && i < |pool.arenas|
      ensures pool.Largest(i) >= pool.Needed(i, payloadBytes) <==> exists p :: RoomAt(entries, i, p, payloadBytes)
    {
      hide Owned, Counted, Loaded, Roomy, Vacant, VacantIn, GpuResourcePool.Largest;
      var n := pool.Needed(i, payloadBytes);
      pool.LargestIff(i, n);
      forall p: nat ensures VacantIn(entries, i, p, n) <==> Vacant(pool.Taken()[i], p, n) {
        VacantRuns(entries, pool.Taken(), owner, i, p, n);
      }
      if pool.Largest(i) >= n {
        var p: nat :| p + n <= pool.arenas[i].allocator.blockCount && Vacant(pool.Taken()[i], p, n);
        assert RoomAt(entries, i, p, payloadBytes);
      }
    }

    lemma {:induction false} RoomCapable(entries: Entries, payloadBytes: nat)
      requires RoomIn(entries, payloadBytes)
      ensures !FitsNowhere(payloadBytes)
    {
      var a, p :| RoomAt(entries, a, p, payloadBytes);
      assert pool.Capable(a, payloadBytes);
    }

    lemma {:induction false} RoomShrunk(before: Entries, after: Entries, payloadBytes: nat)
      requires Shrunk(before, after) && RoomIn(before, payloadBytes)
      ensures RoomIn(after, payloadBytes)
    {
      var a, p :| RoomAt(before, a, p, payloadBytes);
      assert RoomAt(after, a, p, payloadBytes);
    }

    /** A resident tensor gets one more handle, and nothing else moves. */
    ghost predicate Hit(before: State, h: Handle, after: State, load: Load, frequency: nat) {
      var k := load.key;
      && k in before.entries && k in after.entries && after.inflation == before.inflation
      && after.entries == before.entries[k := after.entries[k]]
      && var e, e0 := after.entries[k], before.entries[k];
         && h == Handle(k, e0.id) && e.SamePlace(e0) && e.references == e0.references + 1
         && e.pinned == (e0.pinned || load.pin) && e.priority == Priority(after.inflation, frequency, e.count)
    }

    /** A missing tensor becomes resident with one handle; nothing is evicted for it when there is room as it is. */
    ghost predicate Admitted(before: State, h: Handle, after: State, load: Load, estimate: nat) {
      var k := load.key;
      && k in after.entries && !FitsNowhere(|load.payload|)
      && Evicting(before, State(after.entries - {k}, after.inflation))
      && (RoomIn(before.entries, |load.payload|) || !allowEviction ==>
           State(after.entries - {k}, after.inflation) == before)
      && var e := after.entries[k];
         && h == Handle(k, e.id) && e.payload == load.payload && e.references == 1 && e.pinned == load.pin
         && e.arena < |pool.arenas| && e.count == pool.Needed(e.arena, |load.payload|)
         && e.priority == Priority(after.inflation, estimate, e.count)
    }

    /** What each load meets at its turn. A resident tensor is handed out and a missing one with room is admitted. It is
        bypassed only if it is larger than every arena, or is outbid with no room left; it is deferred only if there is
        no room left, and then every tensor of every arena that could take it is in use, or eviction is off. */
    ghost predicate Decided(t: Decision, load: Load, enforceAdmission: bool, frequency: nat, estimate: nat) {
      var n := |load.payload|;
      if load.key in t.before.entries then t.slot.Got? && Hit(t.before, t.slot.handle, t.after, load, frequency)
      else
        && (enforceAdmission && !load.pin ==> Undercut(t.before, t.after.entries, n, estimate))
        && match t.slot
        case Got(h) => Admitted(t.before, h, t.after, load, estimate)
        case Bypassed =>
          if FitsNowhere(n) then t.after == t.before
          else
            && enforceAdmission && !load.pin && allowEviction && Evicting(t.before, t.after)
            && !RoomIn(t.after.entries, n) && OutbidAt(t.after, n, estimate)
        case Deferred =>
          && !FitsNowhere(n) && Evicting(t.before, t.after) && !RoomIn(t.after.entries, n)
          && if allowEviction then BusyFor(t.after.entries, n) else t.after == t.before
    }

    /** What a decision means for the entries. */
    lemma {:induction false} DecidedMeans(t: Decision, load: Load, enforceAdmission: bool, frequency: nat,
                                          estimate: nat)
      requires Decided(t, load, enforceAdmission, frequency, estimate)
      ensures t.slot.Got? ==>
        && load.key in t.after.entries && t.slot.handle == Handle(load.key, t.after.entries[load.key].id)
        && var e := t.after.entries[load.key];
           if load.key in t.before.entries then
             && e.SamePlace(t.before.entries[load.key]) && t.after.entries == t.before.entries[load.key := e]
             && e.pinned == (t.before.entries[load.key].pinned || load.pin)
           else
             && e.payload == load.payload && e.pinned == load.pin
             && Shrunk(t.before.entries, t.after.entries - {load.key})
      ensures !t.slot.Got? ==> Shrunk(t.before.entries, t.after.entries)
      ensures t.slot.Bypassed? && (!enforceAdmission || load.pin) ==> FitsNowhere(|load.payload|)
      ensures t.slot.Deferred? ==> !FitsNowhere(|load.payload|)
    {
      hide RoomIn, OutbidAt, BusyFor, FitsNowhere, Inflated, CheapestFirst, Undercut;
      ShrunkSelf(t.before.entries);
    }

    /** Every load of the batch is decided in turn, from one state to the next. */
    ghost predicate Traced(turns: seq<Decision>, loads: seq<Load>, enforceAdmission: bool, sketch: Sketch,
                           start: State, end: State) {
      && |turns| <= |loads|
      && (forall i :: 0 <= i < |turns| ==>
           Decided(turns[i], loads[i], enforceAdmission, sketch.frequency(i), sketch.estimate(i)))
      && (forall i, j :: 0 <= i && j == i + 1 < |turns| ==> turns[j].before == turns[i].after)
      && if turns == [] then end == start else turns[0].before == start && turns[|turns| - 1].after == end
    }

    lemma {:induction false} TracedNone(loads: seq<Load>, enforceAdmission: bool, sketch: Sketch, start: State)
      ensures Traced([], loads, enforceAdmission, sketch, start, start) && Reported([], Batch([], [], []))
    {
    }

    lemma {:induction false} TracedNext(turns: seq<Decision>, loads: seq<Load>, enforceAdmission: bool, sketch: Sketch,
                                        start: State, mid: State, slot: Slot, end: State)
      requires Traced(turns, loads, enforceAdmission, sketch, start, mid) && |turns| < |loads|
      requires var n := |turns|;
               Decided(Decision(mid, slot, end), loads[n], enforceAdmission, sketch.frequency(n), sketch.estimate(n))
      ensures Traced(turns + [Decision(mid, slot, end)], loads, enforceAdmission, sketch, start, end)
    {
      hide Decided;
      var more := turns + [Decision(mid, slot, end)];
      assert forall i :: 0 <= i < |turns| ==> more[i] == turns[i];
    }

    /** A load whose tensor is resident at its turn, or has room then, gets a handle. */
    lemma {:induction false} Served(turns: seq<Decision>, loads: seq<Load>, enforceAdmission: bool, sketch: Sketch,
                                    start: State, end: State, i: nat)
      requires Traced(turns, loads, enforceAdmission, sketch, start, end) && i < |turns|
      requires loads[i].key in turns[i].before.entries || RoomIn(turns[i].before.entries, |loads[i].payload|)
      ensures turns[i].slot.Got?
    {
      hide RoomIn, FitsNowhere, OutbidAt, BusyFor, Undercut;
      var t, n := turns[i], |loads[i].payload|;
      assert Decided(t, loads[i], enforceAdmission, sketch.frequency(i), sketch.estimate(i));
      if loads[i].key !in t.before.entries && !t.slot.Got? {
        RoomCapable(t.before.entries, n);
        RoomShrunk(t.before.entries, t.after.entries, n);
      }
    }

    /** The first load has nothing of its batch before it. */
    lemma {:induction false} FirstServed(turns: seq<Decision>, loads: seq<Load>, enforceAdmission: bool, sketch: Sketch,
                                         start: State, end: State, b: Batch)
      requires Traced(turns, loads, enforceAdmission, sketch, start, end) && Reported(turns, b)
      ensures turns != [] && (loads[0].key in start.entries || RoomIn(start.entries, |loads[0].payload|)) ==>
        b.handles[0].Some?
    {
      hide Decided, RoomIn;
      if turns != [] && (loads[0].key in start.entries || RoomIn(start.entries, |loads[0].payload|)) {
        Served(turns, loads, enforceAdmission, sketch, start, end, 0);
      }
    }

    /** The last load has nothing of its batch after it. */
    lemma {:induction false} LastDeferred(turns: seq<Decision>, loads: seq<Load>, enforceAdmission: bool,
                                          sketch: Sketch, start: State, end: State, b: Batch)
      requires Traced(turns, loads, enforceAdmission, sketch, start, end) && Reported(turns, b)
      requires |turns| == |loads| && |loads| - 1 in b.deferred
      ensures Stuck(end.entries, loads[|loads| - 1])
    {
      hide RoomIn, FitsNowhere, BusyFor, Evicting, Undercut;
      var i := |loads| - 1;
      assert Decided(turns[i], loads[i], enforceAdmission, sketch.frequency(i), sketch.estimate(i));
    }

    /** The load would fit an empty arena, but there is no room and nothing that may be evicted to make some. */
    ghost predicate Stuck(entries: Entries, l: Load) {
      && !FitsNowhere(|l.payload|) && !RoomIn(entries, |l.payload|)
      && (allowEviction ==> BusyFor(entries, |l.payload|))
    }

    /** Why loads were not made resident. */
    ghost predicate Explained(loads: seq<Load>, b: Batch, enforceAdmission: bool) {
      && (forall i :: i in b.bypassed && i < |loads| && (!enforceAdmission || loads[i].pin) ==>
           FitsNowhere(|loads[i].payload|))
      && (forall i :: i in b.deferred && i < |loads| ==> !FitsNowhere(|loads[i].payload|))
    }

    lemma {:induction false} ExtendExplained(loads: seq<Load>, b: Batch, enforceAdmission: bool, slot: Slot)
      requires Explained(loads, b, enforceAdmission) && |b.handles| < |loads|
      requires var l := loads[|b.handles|];
               (slot.Bypassed? && (!enforceAdmission || l.pin) ==> FitsNowhere(|l.payload|)) &&
               (slot.Deferred? ==> !FitsNowhere(|l.payload|))
      ensures Explained(loads, Extend(b, slot), enforceAdmission)
    {
    }

    /** The state of a batch after its first `n` loads, which started from `before`, `held0` and `mark`. */
    ghost predicate Midway(loads: seq<Load>, n: nat, b: Batch, order: seq<Key>, enforceAdmission: bool,
                           before: Entries, held0: multiset<Handle>, mark: nat)
      requires n <= |loads|
      reads this, pool.Allocators(), pool.Storages()
    {
      && Inv(KeySet(order)) && Distinct(order) && Fresh(entries, KeySet(order), mark) && mark <= nextId
      && Classified(loads, b, n) && Explained(loads, b, enforceAdmission)
      && Grown(before, entries, mark, Pins(loads[..n])) && FromLoads(entries, loads, mark)
      && held == held0 + multiset(Given(b.handles))
    }

    method AcquireNext(loads: seq<Load>, n: nat, b: Batch, order: seq<Key>, enforceAdmission: bool, sketch: Sketch,
                       ghost before: Entries, ghost held0: multiset<Handle>, ghost mark: nat)
      returns (b': Batch, order': seq<Key>, ghost slot: Slot)
      requires n < |loads| && loads[n].payload != []
      requires Midway(loads, n, b, order, enforceAdmission, before, held0, mark)
      modifies this`entries, this`nextId, this`inflation, this`owner, this`held, pool.Allocators()
      ensures Midway(loads, n + 1, b', order', enforceAdmission, before, held0, mark)
      ensures 0 in b'.deferred ==> 0 in b.deferred || (n == 0 && (allowEviction ==> !Idle(old(entries))))
      ensures b' == Extend(b, slot)
      ensures Decided(Decision(State(old(entries), old(inflation)), slot, State(entries, inflation)), loads[n],
                      enforceAdmission, sketch.frequency(n), sketch.estimate(n))
    {
      hide Inv, Grown, Fresh, Idle, Shrunk, FitsNowhere, FromLoads, Pins, GpuResourcePool.Allocators,
        GpuResourcePool.Storages;
      hide Explained, Distinct, KeySet, Given, Decided;
      var load := loads[n];
      ghost var loading := KeySet(order);
      assert |b.handles| == n;
      hide Classified;
      ghost var mid, value := entries, inflation;
      var got, isNew := AcquireOne(load, enforceAdmission, sketch.frequency(n), sketch.estimate(n), loading, before,
                                   mark, Pins(loads[..n]));
      slot := got;
      DecidedMeans(Decision(State(mid, value), slot, State(entries, inflation)), load, enforceAdmission,
                   sketch.frequency(n), sketch.estimate(n));
      b' := Extend(b, got);
      order' := if isNew then order + [load.key] else order;
      if isNew { OrderNext(order, load.key); }
      ExtendClassified(loads, b, n, slot);
      ExtendExplained(loads, b, enforceAdmission, slot);
      PinsNext(loads, n);
      GivenNext(b.handles, if slot.Got? then Some(slot.handle) else None);
      if isNew {
        FromLoadsNew(mid, entries, loads, mark, load);
      } else if slot.Got? {
        FromLoadsTouch(mid, loads, mark, load, entries[load.key]);
      } else {
        FromLoadsShrink(mid, entries, loads, mark);
      }
    }
  
    /** What holds while a failed batch is being undone, after the first `i` of its handles. */
    ghost predicate Undoing(got: seq<Handle>, i: nat, loading: set<Key>,
                            before: Entries, held0: multiset<Handle>, mark: nat, pins: set<Key>)
      requires i <= |got|
      reads this, pool.Allocators(), pool.Storages()
    {
      && Inv(loading) && Grown(before, entries, mark, pins) && NewInUse(entries, loading, mark)
      && Rolling(held, held0, got, i, mark) && Counted(before, held0, mark)
    }

    method UndoOne(got: seq<Handle>, i: nat, mark: nat, ghost loading: set<Key>,
                   ghost before: Entries, ghost held0: multiset<Handle>, ghost pins: set<Key>)
      requires i < |got| && Undoing(got, i, loading, before, held0, mark, pins)
      modifies this`entries, this`held, pool.Allocators()
      ensures Undoing(got, i + 1, loading, before, held0, mark, pins)
    {
      hide Inv, Counted, Grown, NewInUse, Rolling, GpuResourcePool.Allocators, GpuResourcePool.Storages,
        GpuResourcePool.Valid;
      Apart(loading);
      var h := got[i];
      if h.id >= mark {
        RollNew(held, held0, got, i, mark);
        HandleIsHeld(entries, held, nextId, h);
        if h.key in entries && entries[h.key].id == h.id {
          GrownRemoveNew(before, entries, mark, pins, h.key);
          NewInUseRemove(entries, loading, mark, h.key);
          Purge(h.key, loading);
        }
      } else {
        RollOld(held, held0, got, i, mark);
        CountsKept(before, held0, entries, held, nextId, mark, pins, h);
        GrownDrop(before, entries, mark, pins, h.key, Unreferenced(entries[h.key]));
        NewInUseDrop(entries, loading, mark, h.key, Unreferenced(entries[h.key]));
        Unref(h, loading);
      }
    }

    /** Undo a batch: new entries are removed and their runs freed, once each; other handles are given back. */
    method Rollback(got: seq<Handle>, mark: nat, ghost loading: set<Key>,
                    ghost before: Entries, ghost held0: multiset<Handle>, ghost pins: set<Key>)
      requires Inv(loading) && Fresh(entries, loading, mark) && Grown(before, entries, mark, pins)
      requires held == held0 + multiset(got) && Counted(before, held0, mark)
      modifies this`entries, this`held, pool.Allocators()
      ensures Valid() && held == held0 && RolledBack(before, entries, pins)
    {
      RollStart(before, held0, got, mark);
      NewInUseStart(entries, loading, mark);
      hide Counted, Grown, NewInUse, Rolling, Owned, Loaded, Roomy;
      hide GpuResourcePool.Valid, GpuResourcePool.Taken, GpuResourcePool.Memory, GpuResourcePool.Pages;
      var i := 0;
      while i < |got|
        invariant i <= |got| && Undoing(got, i, loading, before, held0, mark, pins)
      {
        UndoOne(got, i, mark, loading, before, held0, pins);
        i := i + 1;
      }
      RollEnd(before, held, held0, got, mark);
      NoneNew(entries, held, held0, nextId, mark, before, loading);
      RolledBackFrom(before, entries, held, nextId, mark, pins);
      LoadedOld(entries, pool.Memory(), pool.Pages(), loading);
    }
  
    /** Go through the loads of a batch until one is malformed. */
    method AcquireEach(loads: seq<Load>, enforceAdmission: bool, sketch: Sketch)
        returns (b: Batch, order: seq<Key>, n: nat, ghost turns: seq<Decision>)
      requires Valid()
      modifies this`entries, this`nextId, this`inflation, this`owner, this`held, pool.Allocators()
      ensures n <= |loads| && Midway(loads, n, b, order, enforceAdmission, old(entries), old(held), old(nextId))
      ensures n == |loads| <==> AllWellShaped(loads)
      ensures AllWellShaped(loads[..n]) && (n < |loads| ==> !WellShaped(loads[n]))
      ensures allowEviction && Idle(old(entries)) ==> 0 !in b.deferred
      ensures |turns| == n && Reported(turns, b)
      ensures Traced(turns, loads, enforceAdmission, sketch, State(old(entries), old(inflation)),
                     State(entries, inflation))
    {
      hide Inv, Valid, Midway, Idle, WellShaped, ShapeChecks, AllWellShaped, GpuResourcePool.Allocators,
        GpuResourcePool.Storages, Reported, Traced, Decided;
      b, order, n, turns := Batch([], [], []), [], 0, [];
      ghost var start := State(entries, inflation);
      TracedNone(loads, enforceAdmission, sketch, start);
      BatchStart(loads, enforceAdmission);
      ShapedNone(loads);
      while n < |loads| && ShapeChecks(loads[n])
        invariant n <= |loads| && Midway(loads, n, b, order, enforceAdmission, old(entries), old(held), old(nextId))
        invariant AllWellShaped(loads[..n])
        invariant n == 0 ==> entries == old(entries) && b.deferred == []
        invariant allowEviction && Idle(old(entries)) ==> 0 !in b.deferred
        invariant |turns| == n && Reported(turns, b)
        invariant Traced(turns, loads, enforceAdmission, sketch, start, State(entries, inflation))
      {
        ShapeChecksIff(loads[n]);
        WellShapedNonempty(loads[n]);
        ghost var mid, filed, slot := State(entries, inflation), b, Deferred;
        MidwayClassified(loads, n, b, order, enforceAdmission, old(entries), old(held), old(nextId));
        b, order, slot := AcquireNext(loads, n, b, order, enforceAdmission, sketch, old(entries), old(held),
                                      old(nextId));
        TracedNext(turns, loads, enforceAdmission, sketch, start, mid, slot, State(entries, inflation));
        ReportedNext(loads, turns, filed, Decision(mid, slot, State(entries, inflation)));
        turns := turns + [Decision(mid, slot, State(entries, inflation))];
        ShapedNext(loads, n);
        n := n + 1;
      }
      if n < |loads| { ShapeChecksIff(loads[n]); }
      ShapedAll(loads, n);
    }

    lemma {:induction false} MidwayClassified(loads: seq<Load>, n: nat, b: Batch, order: seq<Key>,
                                              enforceAdmission: bool, before: Entries, held0: multiset<Handle>,
                                              mark: nat)
      requires n <= |loads| && Midway(loads, n, b, order, enforceAdmission, before, held0, mark)
      ensures Classified(loads, b, n)
    {
    }

    lemma {:induction false} BatchStart(loads: seq<Load>, enforceAdmission: bool)
      requires Valid()
      ensures Midway(loads, 0, Batch([], [], []), [], enforceAdmission, entries, held, nextId)
    {
      hide Owned, Counted, Loaded, Roomy, Grown, Fresh, GpuResourcePool.Valid, GpuResourcePool.Taken,
           GpuResourcePool.Memory, GpuResourcePool.Pages;
      GrownStart(entries, held, nextId);
      AllOld(entries, held, nextId);
      assert KeySet([]) == {} && Pins(loads[..0]) == {};
    }

    /** Upload what a batch admitted, or undo the batch if it is incomplete or the device fails. */
    method Settle(loads: seq<Load>, n: nat, b: Batch, order: seq<Key>, enforceAdmission: bool, mark: nat,
                  fault: Option<Fault>,
                  ghost before: Entries, ghost held0: multiset<Handle>)
      returns (ok: bool)
      requires n <= |loads| && Midway(loads, n, b, order, enforceAdmission, before, held0, mark)
               && Counted(before, held0, mark)
      modifies this`entries, this`held, pool.Allocators(), pool.Storages(), pool.Stagings()
      ensures Valid()
      ensures ok <==> n == |loads| && (fault.None? || fault.value.arena >= |pool.arenas|)
      ensures ok ==> entries == old(entries) && held == old(held)
      ensures !ok ==> held == held0 && RolledBack(before, entries, Pins(loads[..n]))
    {
      hide Inv, Counted, Grown, Fresh, Classified, FromLoads, Pins, RolledBack, Explained, Given, Distinct;
      hide GpuResourcePool.Allocators, GpuResourcePool.Storages, GpuResourcePool.Stagings, GpuResourcePool.Valid;
      Apart(KeySet(order));
      ok := n == |loads|;
      if ok {
        FreshPresent(entries, KeySet(order), mark);
        ok := UploadNew(order, fault, KeySet(order));
      }
      if !ok {
        Rollback(Given(b.handles), mark, KeySet(order), before, held0, Pins(loads[..n]));
      }
    }

    /** Acquire a request's working set and upload what is new (`acquire_many`). On failure everything acquired
        is given back and every new run is freed; `processed` is how many loads had been handled. */
    method AcquireMany(loads: seq<Load>, enforceAdmission: bool, sketch: Sketch, fault: Option<Fault>)
      returns (r: Acquired, ghost processed: nat, ghost turns: seq<Decision>)
      requires Valid()
      modifies this`entries, this`nextId, this`inflation, this`owner, this`held
      modifies pool.Allocators(), pool.Storages(), pool.Stagings()
      ensures Valid() && processed <= |loads|
      ensures AllWellShaped(loads[..processed]) && (processed < |loads| ==> !WellShaped(loads[processed]))
      ensures r.Failed? <==> !AllWellShaped(loads) || (fault.Some? && fault.value.arena < |pool.arenas|)
      ensures r.Acquired? ==> Classified(loads, r.batch, |loads|) && Explained(loads, r.batch, enforceAdmission)
      ensures r.Acquired? ==> held == old(held) + multiset(Given(r.batch.handles))
      ensures r.Acquired? ==>
                Grown(old(entries), entries, old(nextId), Pins(loads)) && FromLoads(entries, loads, old(nextId))
      ensures r.Acquired? && allowEviction && Idle(old(entries)) ==> 0 !in r.batch.deferred
      ensures r.Failed? ==> held == old(held) && RolledBack(old(entries), entries, Pins(loads[..processed]))
      ensures r.Failed? ==> r.status == if processed < |loads| then ShapeError(loads[processed]) else ComputeError
      ensures r.Acquired? ==> |turns| == |loads| && Reported(turns, r.batch)
      ensures r.Acquired? ==> Traced(turns, loads, enforceAdmission, sketch, State(old(entries), old(inflation)),
                                     State(entries, inflation))
      ensures r.Acquired? && loads != [] && (loads[0].key in old(entries) || RoomIn(old(entries), |loads[0].payload|))
              ==> r.batch.handles[0].Some?
    {
      hide Inv, Counted, Grown, Fresh, Classified, FromLoads, Pins, RolledBack, Explained, Idle, AllWellShaped, Given,
        Distinct, Reported, Traced, Decided, RoomIn, WellShaped, ShapeChecks, ShapeStatus, ShapeError;
      hide GpuResourcePool.Allocators, GpuResourcePool.Storages, GpuResourcePool.Stagings, GpuResourcePool.Valid;
      Apart({});
      ghost var before, held0 := entries, held;
      var mark := nextId;
      ghost var start := State(entries, inflation);
      var b, order, n, seen := AcquireEach(loads, enforceAdmission, sketch);
      turns := seen;
      FirstServed(turns, loads, enforceAdmission, sketch, start, State(entries, inflation), b);
      assert Midway(loads, n, b, order, enforceAdmission, before, held0, mark);
      assert n == |loads| ==> loads[..n] == loads;
      var ok := Settle(loads, n, b, order, enforceAdmission, mark, fault, before, held0);
      if n < |loads| { ShapeChecksIff(loads[n]); }
      return if ok then Acquired(b) else Failed(if n < |loads| then ShapeStatus(loads[n]) else ComputeError), n, turns;
    }
  
    /** Every entry is where it was, with at least the references it had. */
    ghost predicate OnlyTouched(before: Entries)
      reads this`entries
    {
      entries.Keys == before.Keys &&
      forall k :: k in entries ==> entries[k].SamePlace(before[k]) && entries[k].pinned == before[k].pinned
    }

    /** Take a handle for every key that is resident (`probe_many`). */
    method ProbeMany(keys: seq<Key>, frequency: nat -> nat) returns (handles: seq<Option<Handle>>, missing: seq<nat>)
      requires Valid()
      modifies this`entries, this`held
      ensures Valid() && OnlyTouched(old(entries))
      ensures Probed(keys, old(entries), handles, missing) && |handles| == |keys|
      ensures held == old(held) + multiset(Given(handles))
    {
      hide Inv, Probed, Given;
      handles, missing := [], [];
      ProbedNone(keys, entries);
      for n := 0 to |keys|
        invariant Inv({}) && OnlyTouched(old(entries))
        invariant |handles| == n && Probed(keys, old(entries), handles, missing)
        invariant held == old(held) + multiset(Given(handles))
      {
        ProbedNext(keys, old(entries), handles, missing);
        if keys[n] !in entries {
          GivenNext(handles, None);
          handles, missing := handles + [None], missing + [n];
        } else {
          var h := Touch(keys[n], false, frequency(n), {});
          GivenNext(handles, Some(h));
          handles := handles + [Some(h)];
        }
      }
    }

    /** What a handle is good for: while it is out, the device holds the payload its entry was loaded with. */
    lemma {:induction false} HeldBytes(h: Handle)
      requires Valid() && h in held
      ensures h.key in entries && entries[h.key].id == h.id && Resident(entries[h.key], pool.Memory(), pool.Pages())
    {
    }

    lemma {:induction false} EntryInPool(k: Key)
      requires Valid() && k in entries
      ensures var e := entries[k];
              && e.arena < |pool.arenas| && pool.Pages()[e.arena] == pool.arenas[e.arena].allocator.blockBytes
              && pool.Memory()[e.arena] == pool.arenas[e.arena].storage[..]
    {
      EntryRun(entries, pool.Taken(), owner, k);
    }

    /** A resident tensor fits the arena it lives in. */
    lemma {:induction false} ResidentFits(h: Handle)
      requires Valid() && h in held
      ensures h.key in entries && !FitsNowhere(|entries[h.key].payload|)
    {
      HeldBytes(h);
      var e := entries[h.key];
      EntryRun(entries, pool.Taken(), owner, h.key);
      pool.RunInside(e.arena, e.first);
      assert |e.payload| <= e.count * pool.Pages()[e.arena];
      EntryInPool(h.key);
      hide Inv;
      pool.arenas[e.arena].allocator.BlocksSuffice(|e.payload|, e.count);
      assert pool.Capable(e.arena, |e.payload|);
    }

    /** The pages of a held tensor hold its payload. */
    lemma {:induction false} HeldPages(h: Handle)
      requires Valid() && h in held
      ensures h.key in entries && entries[h.key].arena < |pool.arenas|
      ensures pool.arenas[entries[h.key].arena].HoldsAt(entries[h.key].first, entries[h.key].payload)
    {
      HeldBytes(h);
      EntryInPool(h.key);
      hide Inv;
    }

    /** Another request acquires a batch. */
    method StepAcquire(op: Op, others: multiset<Handle>, ghost mine: multiset<Handle>, ghost content: Key -> seq<Byte>)
        returns (others': multiset<Handle>)
      requires Valid() && held == mine + others && op.Acquire?
      requires Faithful(entries, content) && Genuine(op, content)
      modifies this`entries, this`nextId, this`inflation, this`owner, this`held
      modifies pool.Allocators(), pool.Storages(), pool.Stagings()
      ensures Valid() && held == mine + others' && Stable(old(entries), entries, mine) && Faithful(entries, content)
    {
      hide Inv, Counted, Stable, Grown, RolledBack, FromLoads, Classified, Explained, Pins, AllWellShaped, Idle, Given;
      hide GpuResourcePool.Allocators, GpuResourcePool.Storages, GpuResourcePool.Stagings, GpuResourcePool.Valid;
      hide Reported, Traced, RoomIn;
      Apart({});
      assert mine <= held;
      var r;
      ghost var n, turns;
      r, n, turns := AcquireMany(op.loads, op.enforceAdmission, op.sketch, op.fault);
      if r.Acquired? {
        GrownStable(old(entries), entries, old(held), old(nextId), Pins(op.loads), mine);
        GrownFaithful(old(entries), entries, old(nextId), op.loads, content);
        others' := others + multiset(Given(r.batch.handles));
      } else {
        RolledBackStable(old(entries), entries, old(held), old(nextId), Pins(op.loads[..n]), mine);
        RolledBackFaithful(old(entries), entries, Pins(op.loads[..n]), content);
        others' := others;
      }
    }

    /** Another request gives back a handle of its own. */
    method StepGiveUp(h: Handle, others: multiset<Handle>, ghost mine: multiset<Handle>,
                      ghost content: Key -> seq<Byte>) returns (others': multiset<Handle>)
      requires Valid() && held == mine + others && Faithful(entries, content)
      modifies this`entries, this`held
      ensures Valid() && held == mine + others' && Stable(old(entries), entries, mine) && Faithful(entries, content)
    {
      hide Inv, Counted, Stable, Unreferenced, Faithful, GpuResourcePool.Valid;
      Apart({});
      assert mine <= held;
      if h !in others {
        StableStart(entries, held, nextId, mine);
        return others;
      }
      DropOne(mine, others, h);
      var ok := Release(h);
      others' := others - multiset{h};
      UpdatedStable(old(entries), old(held), old(nextId), mine, h.key, entries[h.key]);
      UpdatedFaithful(old(entries), h.key, entries[h.key], content);
    }

    /** One operation of another request. */
    method Step(op: Op, others: multiset<Handle>, ghost mine: multiset<Handle>, ghost content: Key -> seq<Byte>)
        returns (others': multiset<Handle>)
      requires Valid() && held == mine + others && Faithful(entries, content) && Genuine(op, content)
      modifies this`entries, this`nextId, this`inflation, this`owner, this`held
      modifies pool.Allocators(), pool.Storages(), pool.Stagings()
      ensures Valid() && held == mine + others' && Stable(old(entries), entries, mine) && Faithful(entries, content)
    {
      hide Inv, Counted, Stable, Given, Probed, GpuResourcePool.Valid;
      Apart({});
      assert mine <= held;
      match op
      case Acquire(_, _, _, _) =>
        others' := StepAcquire(op, others, mine, content);
      case Probe(keys, frequency) =>
        var handles, missing := ProbeMany(keys, frequency);
        TouchedStable(old(entries), entries, old(held), old(nextId), mine);
        others' := others + multiset(Given(handles));
      case GiveUp(h) =>
        others' := StepGiveUp(h, others, mine, content);
    }

    /** Other requests run any operations, in any order. Whatever I hold stays where it is, with its bytes. */
    method Interfere(ops: seq<Op>, others: multiset<Handle>, ghost mine: multiset<Handle>,
                     ghost content: Key -> seq<Byte>) returns (others': multiset<Handle>)
      requires Valid() && held == mine + others && Faithful(entries, content)
      requires forall op :: op in ops ==> Genuine(op, content)
      modifies this`entries, this`nextId, this`inflation, this`owner, this`held
      modifies pool.Allocators(), pool.Storages(), pool.Stagings()
      ensures Valid() && held == mine + others' && Stable(old(entries), entries, mine) && Faithful(entries, content)
      ensures ops == [] ==> entries == old(entries) && others' == others
    {
      others' := others;
      StableStart(entries, held, nextId, mine);
      hide Inv, Stable;
      for i := 0 to |ops|
        invariant Valid() && held == mine + others' && Stable(old(entries), entries, mine) && Faithful(entries, content)
        invariant i == 0 ==> entries == old(entries) && others' == others
      {
        ghost var mid := entries;
        others' := Step(ops[i], others', mine, content);
        StableTransitive(old(entries), mid, entries, mine);
      }
    }
  }

  /** For the first keys: a handle where the key is resident, its position among `missing` where it is not. */
  ghost predicate Probed(keys: seq<Key>, entries: Entries, handles: seq<Option<Handle>>, missing: seq<nat>) {
    && |handles| <= |keys| && Increasing(missing)
    && (forall i :: 0 <= i < |handles| ==>
          handles[i] == if keys[i] in entries then Some(Handle(keys[i], entries[keys[i]].id)) else None)
    && (forall i :: i in missing <==> 0 <= i < |handles| && keys[i] !in entries)
  }

  lemma {:induction false} ProbedNone(keys: seq<Key>, entries: Entries)
    ensures Probed(keys, entries, [], []) && Given([]) == []
  {
  }

  lemma {:induction false} ProbedNext(keys: seq<Key>, entries: Entries, handles: seq<Option<Handle>>, missing: seq<nat>)
    requires Probed(keys, entries, handles, missing) && |handles| < |keys|
    ensures var n := |handles|;
            if keys[n] in entries then Probed(keys, entries, handles + [Some(Handle(keys[n], entries[keys[n]].id))],
                                              missing)
            else Probed(keys, entries, handles + [None], missing + [n])
  {
    assert forall i :: 0 <= i < |missing| ==> missing[i] in missing;
  }
}
