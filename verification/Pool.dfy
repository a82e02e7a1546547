/** All configured GPU arenas together (`GpuResourcePool`), seen as one vector of allocated runs
    and one vector of device memories. */
module Pool {
  import opened PageRuns
  import opened Allocator
  import opened Arena

  /** Run vectors after one run is added to or removed from arena `a`. */
  ghost function WithRun(taken: seq<Runs>, a: nat, first: nat, count: nat): seq<Runs>
    requires a < |taken|
  {
    var runs: Runs := taken[a][first := count];
    taken[a := runs]
  }

  ghost function WithoutRun(taken: seq<Runs>, a: nat, first: nat): seq<Runs>
    requires a < |taken|
  {
    taken[a := taken[a] - {first}]
  }

  /** Distinct runs of one arena share no page. */
  ghost predicate RunsApart(runs: Runs) {
    forall s, t :: s in runs && t in runs && s < t ==> s + runs[s] <= t
  }

  /** Memory vectors before and after `items` are uploaded to arena `a`: each payload is in place
      and no byte outside the items' pages has changed. */
  ghost predicate Uploaded(before: seq<seq<Byte>>, after: seq<seq<Byte>>, pages: seq<nat>, a: nat, items: seq<Item>)
    requires a < |before| == |pages|
  {
    && |after| == |before| && (forall i :: 0 <= i < |before| && i != a ==> after[i] == before[i])
    && |after[a]| == |before[a]|
    && (forall it :: it in items ==> Holds(after[a], it.First() * pages[a], it.payload))
    && (forall x :: 0 <= x < |after[a]| && after[a][x] != before[a][x] ==>
         exists it :: it in items && it.Owns(pages[a], x))
  }

  class GpuResourcePool {
    const arenas: seq<GpuArena>

    constructor (arenas: seq<GpuArena>)
      requires arenas != [] && Separate(arenas)
      ensures this.arenas == arenas
    {
      this.arenas := arenas;
    }

    /** No two arenas share an allocator or a buffer. */
    static ghost predicate Separate(arenas: seq<GpuArena>) {
      && (forall i :: 0 <= i < |arenas| ==> arenas[i].Sized())
      && (forall i, j :: 0 <= i < |arenas| && 0 <= j < |arenas| && i != j ==>
            && arenas[i].allocator != arenas[j].allocator
            && arenas[i].storage != arenas[j].storage)
      && (forall i, j :: 0 <= i < |arenas| && 0 <= j < |arenas| ==> arenas[i].storage != arenas[j].staging)
    }

    ghost function Allocators(): set<object> {
      set i | 0 <= i < |arenas| :: arenas[i].allocator
    }

    ghost function Storages(): set<object> {
      set i | 0 <= i < |arenas| :: arenas[i].storage
    }

    ghost function Stagings(): set<object> {
      set i | 0 <= i < |arenas| :: arenas[i].staging
    }

    ghost predicate Valid()
      reads Allocators()
    {
      Separate(arenas) && forall i :: 0 <= i < |arenas| ==> arenas[i].allocator.Valid()
    }

    /** The allocated runs of every arena. */
    ghost function Taken(): (t: seq<Runs>)
      reads Allocators()
      ensures |t| == |arenas|
    {
      seq(|arenas|, i requires 0 <= i < |arenas| reads Allocators() => arenas[i].allocator.taken)
    }

    /** The device bytes of every arena. */
    ghost function Memory(): (m: seq<seq<Byte>>)
      reads Storages()
      ensures |m| == |arenas|
    {
      seq(|arenas|, i requires 0 <= i < |arenas| reads Storages() => arenas[i].storage[..])
    }

    /** Page size of every arena. */
    ghost function Pages(): (p: seq<nat>)
      ensures |p| == |arenas|
    {
      seq(|arenas|, i requires 0 <= i < |arenas| => arenas[i].allocator.blockBytes)
    }

    /** Longest free run of arena `i`, in pages. */
    function Largest(i: nat): nat
      requires Valid() && i < |arenas|
      reads Allocators()
    {
      arenas[i].allocator.LargestFree()
    }

    /** Pages a payload needs in arena `i`. */
    function Needed(i: nat, payloadBytes: nat): nat
      requires i < |arenas|
    {
      if arenas[i].allocator.blockBytes == 0 then 0 else arenas[i].allocator.BlocksFor(payloadBytes)
    }

    /** Arena `i`, when empty, has room for the payload. */
    predicate Capable(i: nat, payloadBytes: nat)
      requires i < |arenas|
    {
      arenas[i].allocator.blockCount >= Needed(i, payloadBytes)
    }

    /** A free run is long enough if and only if so many pages in a row are in no allocated run. */
    lemma {:induction false} LargestIff(i: nat, need: nat)
      requires Valid() && i < |arenas| && need > 0
      ensures Largest(i) >= need <==>
              exists p: nat :: p + need <= arenas[i].allocator.blockCount && Vacant(Taken()[i], p, need)
    {
      var al := arenas[i].allocator;
      hide FixedBlockAllocator.Indexed, Partition;
      if Largest(i) >= need {
        var s :| s in al.freeByStart && al.freeByStart[s] == al.LargestFree();
        RunIsVacant(al.blockCount, al.freeByStart, al.taken, s);
        assert Vacant(Taken()[i], s, need);
      }
      if p: nat :| p + need <= al.blockCount && Vacant(Taken()[i], p, need) {
        var s := VacantInRun(al.blockCount, al.freeByStart, al.taken, p, need);
      }
    }

    /** An arena without allocated runs offers all its pages as one run. */
    lemma {:induction false} EmptyArena(i: nat)
      requires Valid() && i < |arenas| && Taken()[i] == map[]
      ensures Largest(i) == arenas[i].allocator.blockCount
    {
      AllReleased(arenas[i].allocator);
      assert 0 in arenas[i].allocator.freeByStart;
    }

    method ReleaseRun(a: nat, first: nat, count: nat)
      requires Valid() && a < |arenas|
      requires first in Taken()[a] && Taken()[a][first] == count
      modifies Allocators()
      ensures Valid()
      ensures Taken() == WithoutRun(old(Taken()), a, first) && Memory() == old(Memory())
      ensures forall i :: 0 <= i < |arenas| && i != a ==> Largest(i) == old(Largest(i))
      ensures forall i :: 0 <= i < |arenas| && i != a ==> unchanged(arenas[i].allocator)
    {
      assert count > 0 by { RunInside(a, first); }
      var outcome := arenas[a].allocator.Release(Range(first, count));
    }

    /** The first pages of a best-fitting free run of arena `a`; there must be one long enough. */
    method AllocateRun(a: nat, payloadBytes: nat) returns (first: nat, count: nat)
      requires Valid() && a < |arenas| && payloadBytes > 0
      requires Largest(a) >= Needed(a, payloadBytes)
      modifies Allocators()
      ensures Valid()
      ensures count == Needed(a, payloadBytes) && count * Pages()[a] >= payloadBytes
      ensures first !in old(Taken())[a]
      ensures Taken() == WithRun(old(Taken()), a, first, count) && Memory() == old(Memory())
    {
      hide FixedBlockAllocator.BlocksFor, FixedBlockAllocator.BestFit, FixedBlockAllocator.Indexed, Partition;
      var al := arenas[a].allocator;
      count := al.BlocksFor(payloadBytes);
      var blocks := al.Allocate(payloadBytes);
      assert blocks.Some?;
      first := blocks.value;
    }

    method Upload(a: nat, items: seq<Item>)
      requires Valid() && a < |arenas|
      requires forall it :: it in items ==>
                 Uploadable(it, Pages()[a]) && it.First() + |it.blocks| <= arenas[a].allocator.blockCount
      requires Apart(ToRuns(items))
      modifies Storages(), Stagings()
      ensures Valid() && Taken() == old(Taken())
      ensures Uploaded(old(Memory()), Memory(), Pages(), a, items)
    {
      hide FixedBlockAllocator.Valid;
      var ok := arenas[a].CopyMany(items);
      assert ok;
    }

    lemma {:induction false} RunInside(a: nat, first: nat)
      requires Valid() && a < |arenas| && first in Taken()[a]
      ensures Taken()[a][first] > 0 && first + Taken()[a][first] <= arenas[a].allocator.blockCount
    {
      var al := arenas[a].allocator;
      PartDisjoint(al.blockCount, al.freeByStart, al.taken);
    }

    /** Allocated runs are nonempty, inside their arena and apart from each other. */
    lemma {:induction false} RunsInside(a: nat)
      requires Valid() && a < |arenas|
      ensures forall s :: s in Taken()[a] ==> Taken()[a][s] > 0 && s + Taken()[a][s] <= arenas[a].allocator.blockCount
      ensures RunsApart(Taken()[a])
    {
      var al := arenas[a].allocator;
      PartDisjoint(al.blockCount, al.freeByStart, al.taken);
    }
  }
}
