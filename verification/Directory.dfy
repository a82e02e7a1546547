/** The tensor directory of the GPU cache as a value: entries, the runs they own, the handles
    that are out, and how each kind of change keeps them consistent. */
module Directory {
  import opened PageRuns
  import opened Allocator
  import opened Arena
  import opened Pool

  /** Model contract, content digest and shape: the cache key of a tensor. */
  datatype Key = Key(contract: string, digest: string, rows: nat, dimension: nat, dtype: nat)

  /** A resident tensor. `id` stands for the identity of the entry object. */
  datatype Entry = Entry(
    id: nat, arena: nat, first: nat, count: nat, payload: seq<Byte>,
    references: nat, pinned: bool, priority: real)
  {
    /** The same tensor at the same place. */
    ghost predicate SamePlace(e: Entry) {
      id == e.id && arena == e.arena && first == e.first && count == e.count && payload == e.payload
    }

    predicate Evictable() { references == 0 && !pinned }
  }

  /** What an acquirer holds: it names one entry object. */
  datatype Handle = Handle(key: Key, id: nat)

  type Entries = map<Key, Entry>

  /** The allocated runs are exactly the runs of the entries; `owner` maps each run to its entry. */
  ghost predicate Owned(entries: Entries, taken: seq<Runs>, owner: map<(nat, nat), Key>) {
    && (forall k :: k in entries ==>
          var e := entries[k];
          && e.arena < |taken| && e.first in taken[e.arena] && taken[e.arena][e.first] == e.count
          && (e.arena, e.first) in owner && owner[(e.arena, e.first)] == k)
    && (forall i, s :: 0 <= i < |taken| && s in taken[i] ==>
          && (i, s) in owner && owner[(i, s)] in entries
          && entries[owner[(i, s)]].arena == i && entries[owner[(i, s)]].first == s)
  }

  /** Every reference count is the number of handles that are out for that entry. */
  ghost predicate Counted(entries: Entries, held: multiset<Handle>, nextId: nat) {
    && (forall k :: k in entries ==> entries[k].id < nextId && entries[k].references == held[Handle(k, entries[k].id)])
    && (forall h :: h in held ==> h.key in entries && entries[h.key].id == h.id)
  }

  /** The device holds the entry's payload in the entry's pages. */
  ghost predicate Resident(e: Entry, memory: seq<seq<Byte>>, pages: seq<nat>)
    requires |memory| == |pages|
  {
    e.arena < |memory| && Holds(memory[e.arena], e.first * pages[e.arena], e.payload)
  }

  /** The device bytes of every entry outside `loading` are its payload. */
  ghost predicate Loaded(entries: Entries, memory: seq<seq<Byte>>, pages: seq<nat>, loading: set<Key>)
    requires |memory| == |pages|
  {
    forall k :: k in entries && k !in loading ==> Resident(entries[k], memory, pages)
  }

  /** Every payload fits its pages. */
  ghost predicate Roomy(entries: Entries, pages: seq<nat>) {
    forall k :: k in entries ==>
      entries[k].arena < |pages| && 0 < |entries[k].payload| <= entries[k].count * pages[entries[k].arena]
  }

  lemma {:induction false} EntryRun(entries: Entries, taken: seq<Runs>, owner: map<(nat, nat), Key>, k: Key)
    requires Owned(entries, taken, owner) && k in entries
    ensures var e := entries[k]; e.arena < |taken| && e.first in taken[e.arena] && taken[e.arena][e.first] == e.count
  {
  }

  lemma {:induction false} RemoveLoaded(entries: Entries, memory: seq<seq<Byte>>, pages: seq<nat>, loading: set<Key>,
                                        k: Key)
    requires |memory| == |pages| && Loaded(entries, memory, pages, loading) && Roomy(entries, pages)
    ensures Loaded(entries - {k}, memory, pages, loading) && Roomy(entries - {k}, pages)
  {
  }

  lemma {:induction false} InsertLoaded(entries: Entries, memory: seq<seq<Byte>>, pages: seq<nat>, loading: set<Key>,
                                        k: Key, e: Entry)
    requires |memory| == |pages| && Loaded(entries, memory, pages, loading) && Roomy(entries, pages)
    requires e.arena < |pages| && 0 < |e.payload| <= e.count * pages[e.arena]
    ensures Loaded(entries[k := e], memory, pages, loading + {k}) && Roomy(entries[k := e], pages)
  {
  }

  lemma {:induction false} UpdateLoaded(entries: Entries, memory: seq<seq<Byte>>, pages: seq<nat>, loading: set<Key>,
                                        k: Key, e: Entry)
    requires |memory| == |pages| && Loaded(entries, memory, pages, loading) && Roomy(entries, pages)
    requires k in entries && e.SamePlace(entries[k])
    ensures Loaded(entries[k := e], memory, pages, loading) && Roomy(entries[k := e], pages)
  {
  }

  // An arena that no entry lives in has no allocated run.
  lemma {:induction false} UnownedArena(entries: Entries, taken: seq<Runs>, owner: map<(nat, nat), Key>, c: nat)
    requires Owned(entries, taken, owner) && c < |taken|
    requires forall k :: k in entries ==> entries[k].arena != c
    ensures taken[c] == map[]
  {
    assert forall s :: s !in taken[c];
  }

  lemma {:induction false} InsertOwned(entries: Entries, taken: seq<Runs>, owner: map<(nat, nat), Key>, k: Key,
                                       e: Entry)
    requires Owned(entries, taken, owner) && k !in entries
    requires e.arena < |taken| && e.first !in taken[e.arena]
    ensures Owned(entries[k := e], WithRun(taken, e.arena, e.first, e.count), owner[(e.arena, e.first) := k])
  {
  }

  lemma {:induction false} RemoveOwned(entries: Entries, taken: seq<Runs>, owner: map<(nat, nat), Key>, k: Key)
    requires Owned(entries, taken, owner) && k in entries
    ensures Owned(entries - {k}, WithoutRun(taken, entries[k].arena, entries[k].first), owner)
  {
  }

  // Changing counts, pins and priorities moves no tensor.
  lemma {:induction false} UpdateOwned(entries: Entries, taken: seq<Runs>, owner: map<(nat, nat), Key>, k: Key,
                                       e: Entry)
    requires Owned(entries, taken, owner) && k in entries && e.SamePlace(entries[k])
    ensures Owned(entries[k := e], taken, owner)
  {
  }

  lemma {:induction false} InsertCounted(entries: Entries, held: multiset<Handle>, nextId: nat, k: Key, e: Entry)
    requires Counted(entries, held, nextId) && k !in entries
    requires e.id == nextId && e.references == 1
    ensures Counted(entries[k := e], held + multiset{Handle(k, e.id)}, nextId + 1)
  {
  }

  // An entry nobody holds can go.
  lemma {:induction false} RemoveCounted(entries: Entries, held: multiset<Handle>, nextId: nat, k: Key)
    requires Counted(entries, held, nextId) && k in entries && entries[k].references == 0
    ensures Counted(entries - {k}, held, nextId)
  {
    assert Handle(k, entries[k].id) !in held;
  }

  lemma {:induction false} AddCounted(entries: Entries, held: multiset<Handle>, nextId: nat, k: Key, e: Entry)
    requires Counted(entries, held, nextId) && k in entries
    requires e.id == entries[k].id && e.references == entries[k].references + 1
    ensures Counted(entries[k := e], held + multiset{Handle(k, e.id)}, nextId)
  {
  }

  lemma {:induction false} DropCounted(entries: Entries, held: multiset<Handle>, nextId: nat, k: Key, e: Entry)
    requires Counted(entries, held, nextId) && k in entries && entries[k].references > 0
    requires e.id == entries[k].id && e.references == entries[k].references - 1
    ensures Handle(k, e.id) in held
    ensures Counted(entries[k := e], held - multiset{Handle(k, e.id)}, nextId)
  {
    var h := Handle(k, e.id);
    assert forall j :: j in entries && j != k ==> Handle(j, entries[j].id) != h;
  }

  // A whole entry goes, with every handle for it.
  lemma {:induction false} PurgeCounted(entries: Entries, held: multiset<Handle>, nextId: nat, k: Key)
    requires Counted(entries, held, nextId) && k in entries
    ensures Counted(entries - {k}, held[Handle(k, entries[k].id) := 0], nextId)
  {
  }

  lemma {:induction false} HeldEntry(entries: Entries, held: multiset<Handle>, nextId: nat, h: Handle)
    requires Counted(entries, held, nextId) && h in held
    ensures h.key in entries && entries[h.key].id == h.id && entries[h.key].references == held[h] > 0
  {
  }

  // A handle is out exactly when its entry is the current one and is referenced.
  lemma {:induction false} HandleIsHeld(entries: Entries, held: multiset<Handle>, nextId: nat, h: Handle)
    requires Counted(entries, held, nextId)
    ensures h in held <==> h.key in entries && entries[h.key].id == h.id && entries[h.key].references > 0
  {
  }

  lemma {:induction false} LoadedMore(entries: Entries, memory: seq<seq<Byte>>, pages: seq<nat>, few: set<Key>,
                                      many: set<Key>)
    requires |memory| == |pages| && Loaded(entries, memory, pages, few) && few <= many
    ensures Loaded(entries, memory, pages, many)
  {
  }

  /** What eviction may do: entries disappear only when nobody holds or pins them, and the rest is untouched. */
  ghost predicate Shrunk(before: Entries, after: Entries) {
    && (forall k :: k in after ==> k in before && after[k] == before[k])
    && (forall k :: k in before && k !in after ==> before[k].Evictable())
  }

  lemma {:induction false} ShrunkAbsent(before: Entries, after: Entries, k: Key)
    requires Shrunk(before, after) && k !in before
    ensures k !in after
  {
  }

  lemma {:induction false} ShrunkTransitive(a: Entries, b: Entries, c: Entries)
    requires Shrunk(a, b) && Shrunk(b, c)
    ensures Shrunk(a, c)
  {
  }

  /** The upload of one entry. */
  function ItemOf(e: Entry): Item {
    Item(Range(e.first, e.count), e.payload)
  }

  lemma {:induction false} ScaleRun(a: nat, b: nat, page: nat)
    requires a <= b
    ensures a * page <= b * page
  {
  }

  lemma {:induction false} HoldsKept(before: seq<Byte>, after: seq<Byte>, at: nat, data: seq<Byte>)
    requires |after| == |before| && Holds(before, at, data)
    requires forall x :: at <= x < at + |data| ==> after[x] == before[x]
    ensures Holds(after, at, data)
  {
    assert after[at..at + |data|] == before[at..at + |data|];
  }

  // Uploading one entry's pages leaves another entry's bytes alone.
  lemma {:induction false} OtherPages(e: Entry, f: Entry, page: nat, x: nat)
    requires e.first + e.count <= f.first || f.first + f.count <= e.first
    requires |e.payload| <= e.count * page && f.count > 0
    requires ItemOf(f).Owns(page, x)
    ensures !(e.first * page <= x < e.first * page + |e.payload|)
  {
    assert ItemOf(f).First() == f.first;
    assert (e.first + e.count) * page == e.first * page + e.count * page;
    if e.first + e.count <= f.first {
      ScaleRun(e.first + e.count, f.first, page);
    } else {
      ScaleRun(f.first + f.count, e.first, page);
    }
  }

  /** `items` are the uploads of entries of arena `a` that are still loading. */
  ghost predicate LoadingItems(entries: Entries, loading: set<Key>, a: nat, items: seq<Item>) {
    forall it :: it in items ==>
      exists k :: k in loading && k in entries && entries[k].arena == a && it == ItemOf(entries[k])
  }

  lemma {:induction false} PositiveCount(bytes: nat, count: nat, page: nat)
    requires 0 < bytes <= count * page
    ensures count > 0
  {
  }

  lemma {:induction false} EntriesApart(entries: Entries, taken: seq<Runs>, owner: map<(nat, nat), Key>,
                                        pages: seq<nat>, j: Key, k: Key)
    requires Owned(entries, taken, owner) && Roomy(entries, pages)
    requires j in entries && k in entries && j != k && entries[j].arena == entries[k].arena < |taken|
    requires RunsApart(taken[entries[j].arena])
    ensures var e, f := entries[k], entries[j];
            f.count > 0 && (e.first + e.count <= f.first || f.first + f.count <= e.first)
  {
    var e, f := entries[k], entries[j];
    EntryRun(entries, taken, owner, j);
    EntryRun(entries, taken, owner, k);
    assert owner[(f.arena, f.first)] == j && owner[(e.arena, e.first)] == k;
    assert 0 < |f.payload| <= f.count * pages[f.arena];
    PositiveCount(|f.payload|, f.count, pages[f.arena]);
    hide Owned, Roomy;
    assert e.first != f.first;
  }

  // An entry that is not loading keeps its bytes while others are uploaded.
  lemma {:induction false} UploadKeeps(entries: Entries, taken: seq<Runs>, owner: map<(nat, nat), Key>,
                                       before: seq<seq<Byte>>,
                    after: seq<seq<Byte>>, pages: seq<nat>, loading: set<Key>, a: nat, items: seq<Item>, k: Key)
    requires Owned(entries, taken, owner) && a < |before| == |pages| == |taken| && RunsApart(taken[a])
    requires Loaded(entries, before, pages, loading) && Roomy(entries, pages)
    requires Uploaded(before, after, pages, a, items) && LoadingItems(entries, loading, a, items)
    requires k in entries && k !in loading
    ensures |after| == |pages| && Resident(entries[k], after, pages)
  {
    hide Owned, RunsApart;
    var e := entries[k];
    if e.arena == a {
      var at := e.first * pages[a];
      forall x | at <= x < at + |e.payload| ensures after[a][x] == before[a][x] {
        if after[a][x] != before[a][x] {
          var it :| it in items && it.Owns(pages[a], x);
          var j :| j in loading && j in entries && entries[j].arena == a && it == ItemOf(entries[j]);
          EntriesApart(entries, taken, owner, pages, j, k);
          OtherPages(e, entries[j], pages[a], x);
        }
      }
      HoldsKept(before[a], after[a], at, e.payload);
    }
  }

  // Uploading every loading entry of arena `a` makes those entries ready.
  lemma {:induction false} UploadLoaded(entries: Entries, taken: seq<Runs>, owner: map<(nat, nat), Key>,
                                        before: seq<seq<Byte>>,
                     after: seq<seq<Byte>>, pages: seq<nat>, loading: set<Key>, ready: set<Key>, a: nat,
                       items: seq<Item>)
    requires Owned(entries, taken, owner) && a < |before| == |pages| == |taken| && RunsApart(taken[a])
    requires Loaded(entries, before, pages, loading) && Roomy(entries, pages)
    requires Uploaded(before, after, pages, a, items) && LoadingItems(entries, loading, a, items)
    requires forall k :: k in ready && k in entries ==> entries[k].arena == a && ItemOf(entries[k]) in items
    ensures |after| == |pages| && Loaded(entries, after, pages, loading - ready)
  {
    hide Owned, RunsApart, LoadingItems;
    forall k | k in entries && k !in loading - ready
      ensures Resident(entries[k], after, pages)
    {
      if k in ready {
        PositiveCount(|entries[k].payload|, entries[k].count, pages[a]);
        assert ItemOf(entries[k]).First() == entries[k].first;
      } else {
        UploadKeeps(entries, taken, owner, before, after, pages, loading, a, items, k);
      }
    }
  }

  /** Uploads of the entries of `order` that live in arena `a`. */
  function ItemsFor(entries: Entries, order: seq<Key>, a: nat): (items: seq<Item>)
    requires forall k :: k in order ==> k in entries
    ensures forall it :: it in items ==> exists k :: k in order && entries[k].arena == a && it == ItemOf(entries[k])
    ensures forall k :: k in order && entries[k].arena == a ==> ItemOf(entries[k]) in items
  {
    if order == [] then [] else
      var n := |order| - 1;
      assert order == order[..n] + [order[n]];
      var init := ItemsFor(entries, order[..n], a);
      if entries[order[n]].arena == a then init + [ItemOf(entries[order[n]])] else init
  }

  ghost predicate Distinct<T>(s: seq<T>) {
    forall i, j :: 0 <= i < j < |s| ==> s[i] != s[j]
  }

  lemma {:induction false} ItemsApart(entries: Entries, taken: seq<Runs>, owner: map<(nat, nat), Key>, pages: seq<nat>,
                                      order: seq<Key>, a: nat)
    requires Owned(entries, taken, owner) && Roomy(entries, pages) && a < |taken| && RunsApart(taken[a])
    requires Distinct(order) && forall k :: k in order ==> k in entries
    ensures Apart(ToRuns(ItemsFor(entries, order, a)))
  {
    hide Owned, Roomy, RunsApart;
    if order == [] {
    } else {
      var n := |order| - 1;
      var k := order[n];
      var init := ItemsFor(entries, order[..n], a);
      assert ItemsFor(entries, order, a) == if entries[k].arena == a then init + [ItemOf(entries[k])] else init;
      assert k !in order[..n] && forall j :: j in order[..n] ==> j in order;
      ItemsApart(entries, taken, owner, pages, order[..n], a);
      if entries[k].arena == a {
        forall it | it in init ensures Clear(ToRun(it), ToRun(ItemOf(entries[k])))
          && Clear(ToRun(ItemOf(entries[k])), ToRun(it)) {
          var j :| j in order[..n] && entries[j].arena == a && it == ItemOf(entries[j]);
          EntriesClear(entries, taken, owner, pages, j, k);
        }
        hide ItemsFor;
        ApartNext(init, ItemOf(entries[k]));
      }
    }
  }

  lemma {:induction false} EntriesClear(entries: Entries, taken: seq<Runs>, owner: map<(nat, nat), Key>,
                                        pages: seq<nat>, j: Key, k: Key)
    requires Owned(entries, taken, owner) && Roomy(entries, pages)
    requires j in entries && k in entries && j != k && entries[j].arena == entries[k].arena < |taken|
    requires RunsApart(taken[entries[j].arena])
    ensures var a, b := ToRun(ItemOf(entries[j])), ToRun(ItemOf(entries[k])); Clear(a, b) && Clear(b, a)
  {
    hide Owned, Roomy, RunsApart;
    EntriesApart(entries, taken, owner, pages, j, k);
    EntriesApart(entries, taken, owner, pages, k, j);
  }

  lemma {:induction false} ApartNext(items: seq<Item>, item: Item)
    requires Apart(ToRuns(items))
    requires forall it :: it in items ==> Clear(ToRun(it), ToRun(item)) && Clear(ToRun(item), ToRun(it))
    ensures Apart(ToRuns(items + [item]))
  {
    hide Clear, ToRun;
    var runs, all := ToRuns(items), items + [item];
    assert forall i :: 0 <= i < |items| ==> items[i] in items && all[i] == items[i] && runs[i] == ToRun(items[i]);
  }

  // Every upload is a valid page run inside the arena.
  lemma {:induction false} ItemsUploadable(entries: Entries, taken: seq<Runs>, owner: map<(nat, nat), Key>,
                                           pages: seq<nat>, order: seq<Key>, a: nat, total: nat)
    requires Owned(entries, taken, owner) && Roomy(entries, pages) && a < |taken| == |pages|
    requires forall s :: s in taken[a] ==> taken[a][s] > 0 && s + taken[a][s] <= total
    requires forall k :: k in order ==> k in entries
    ensures forall it :: it in ItemsFor(entries, order, a) ==>
              Uploadable(it, pages[a]) && it.First() + |it.blocks| <= total
  {
    forall it | it in ItemsFor(entries, order, a) ensures Uploadable(it, pages[a])
      && it.First() + |it.blocks| <= total {
      var k :| k in order && entries[k].arena == a && it == ItemOf(entries[k]);
      assert entries[k].first in taken[a];
    }
  }

  // ---- What a batch of acquisitions does to the directory ----

  /** From `before` to `after`, in a batch that started at identity `mark` and asked to pin `pins`:
      old entries stay where they are, unless nobody was using them; pins and counts only grow. */
  ghost predicate Grown(before: Entries, after: Entries, mark: nat, pins: set<Key>) {
    && (forall k :: k in after && after[k].id < mark ==> k in before && after[k].id == before[k].id)
    && (forall k :: k in before ==> before[k].id < mark)
    && (forall k :: k in before && !(k in after && after[k].id == before[k].id) ==> before[k].Evictable())
    && (forall k :: k in before && k in after && after[k].id == before[k].id ==>
          && after[k].SamePlace(before[k]) && before[k].references <= after[k].references
          && after[k].pinned == (before[k].pinned || k in pins))
  }

  lemma {:induction false} GrownStart(before: Entries, held: multiset<Handle>, mark: nat)
    requires Counted(before, held, mark)
    ensures Grown(before, before, mark, {})
  {
  }

  lemma {:induction false} GrownShrink(before: Entries, mid: Entries, after: Entries, mark: nat, pins: set<Key>)
    requires Grown(before, mid, mark, pins) && Shrunk(mid, after)
    ensures Grown(before, after, mark, pins)
  {
  }

  // A request to pin a tensor that is not resident, or is new, leaves the old entries alone.
  lemma {:induction false} GrownAbsent(before: Entries, after: Entries, mark: nat, pins: set<Key>, k: Key)
    requires Grown(before, after, mark, pins) && (k in after ==> after[k].id >= mark)
    ensures Grown(before, after, mark, pins + {k})
  {
  }

  lemma {:induction false} GrownTouch(before: Entries, mid: Entries, mark: nat, pins: set<Key>, k: Key, e: Entry,
                                      pin: bool)
    requires Grown(before, mid, mark, pins) && k in mid && e.SamePlace(mid[k])
    requires e.references == mid[k].references + 1 && e.pinned == (mid[k].pinned || pin)
    ensures Grown(before, mid[k := e], mark, if pin then pins + {k} else pins)
  {
  }

  lemma {:induction false} GrownInsert(before: Entries, mid: Entries, mark: nat, pins: set<Key>, k: Key, e: Entry)
    requires Grown(before, mid, mark, pins) && k !in mid && e.id >= mark
    ensures Grown(before, mid[k := e], mark, pins)
  {
  }

  lemma {:induction false} GrownRemoveNew(before: Entries, mid: Entries, mark: nat, pins: set<Key>, k: Key)
    requires Grown(before, mid, mark, pins) && k in mid && mid[k].id >= mark
    ensures Grown(before, mid - {k}, mark, pins)
  {
  }

  /** `loading` are the entries made since `mark`; each of them is referenced. */
  ghost predicate Fresh(entries: Entries, loading: set<Key>, mark: nat) {
    && (forall k :: k in loading ==> k in entries && entries[k].id >= mark && entries[k].references > 0)
    && (forall k :: k in entries && entries[k].id >= mark ==> k in loading)
  }

  lemma {:induction false} FreshPresent(entries: Entries, loading: set<Key>, mark: nat)
    requires Fresh(entries, loading, mark)
    ensures forall k :: k in loading ==> k in entries
  {
  }

  lemma {:induction false} FreshShrink(mid: Entries, after: Entries, loading: set<Key>, mark: nat)
    requires Fresh(mid, loading, mark) && Shrunk(mid, after)
    ensures Fresh(after, loading, mark)
  {
  }

  lemma {:induction false} FreshTouch(mid: Entries, loading: set<Key>, mark: nat, k: Key, e: Entry)
    requires Fresh(mid, loading, mark) && k in mid && e.id == mid[k].id && e.references > 0
    ensures Fresh(mid[k := e], loading, mark)
  {
  }

  lemma {:induction false} FreshInsert(mid: Entries, loading: set<Key>, mark: nat, k: Key, e: Entry)
    requires Fresh(mid, loading, mark) && k !in mid && e.id >= mark && e.references > 0
    ensures k !in loading && Fresh(mid[k := e], loading + {k}, mark)
  {
  }

  lemma {:induction false} AllOld(entries: Entries, held: multiset<Handle>, mark: nat)
    requires Counted(entries, held, mark)
    ensures Fresh(entries, {}, mark) && forall k :: k in entries ==> entries[k].id < mark
  {
  }

  // ---- Undoing a batch ----

  /** Handles out after the first `i` of `got` have been undone: a new entry goes with all its handles at once. */
  ghost predicate Rolling(held: multiset<Handle>, held0: multiset<Handle>, got: seq<Handle>, i: nat, mark: nat)
    requires i <= |got|
  {
    forall h :: held[h] ==
      if h.id < mark then held0[h] + multiset(got[i..])[h]
      else if h in got[..i] then 0 else multiset(got[i..])[h]
  }

  lemma {:induction false} RollStart(entries: Entries, held0: multiset<Handle>, got: seq<Handle>, mark: nat)
    requires Counted(entries, held0, mark)
    ensures Rolling(held0 + multiset(got), held0, got, 0, mark)
  {
    assert got[0..] == got;
    assert forall h: Handle :: h.id >= mark ==> h !in held0;
  }

  lemma {:induction false} RollEnd(entries: Entries, held: multiset<Handle>, held0: multiset<Handle>, got: seq<Handle>,
                                   mark: nat)
    requires Counted(entries, held0, mark) && Rolling(held, held0, got, |got|, mark)
    ensures held == held0
  {
    assert got[|got|..] == [];
    assert forall h: Handle :: h.id >= mark ==> h !in held0;
  }

  lemma {:induction false} RestSplit(got: seq<Handle>, i: nat)
    requires i < |got|
    ensures multiset(got[i..]) == multiset{got[i]} + multiset(got[i + 1..])
    ensures multiset(got[i..]) - multiset{got[i]} == multiset(got[i + 1..]) && got[i] in multiset(got[i..])
    ensures forall h :: h in got[..i + 1] <==> h in got[..i] || h == got[i]
  {
    assert got[i..] == [got[i]] + got[i + 1..];
    assert got[..i + 1] == got[..i] + [got[i]];
  }

  lemma {:induction false} RollNew(held: multiset<Handle>, held0: multiset<Handle>, got: seq<Handle>, i: nat, mark: nat)
    requires i < |got| && Rolling(held, held0, got, i, mark) && got[i].id >= mark
    ensures Rolling(held[got[i] := 0], held0, got, i + 1, mark)
    ensures held[got[i]] == 0 ==> Rolling(held, held0, got, i + 1, mark)
    ensures held[got[i]] > 0 <==> got[i] !in got[..i]
  {
    RestSplit(got, i);
  }

  lemma {:induction false} RollOld(held: multiset<Handle>, held0: multiset<Handle>, got: seq<Handle>, i: nat, mark: nat)
    requires i < |got| && Rolling(held, held0, got, i, mark) && got[i].id < mark
    ensures got[i] in held && held[got[i]] > held0[got[i]]
    ensures Rolling(held - multiset{got[i]}, held0, got, i + 1, mark)
  {
    RestSplit(got, i);
  }

  // An old entry still has the handles it had before the batch.
  lemma {:induction false} CountsKept(before: Entries, held0: multiset<Handle>, mid: Entries, held: multiset<Handle>,
                                      nextId: nat, mark: nat, pins: set<Key>, h: Handle)
    requires Grown(before, mid, mark, pins) && Counted(before, held0, mark) && Counted(mid, held, nextId)
    requires h in held && h.id < mark && held[h] > held0[h]
    ensures h.key in mid && mid[h.key].id == h.id && mid[h.key].references > 0
    ensures h.key in before && before[h.key].references <= mid[h.key].references - 1
  {
  }

  lemma {:induction false} GrownDrop(before: Entries, mid: Entries, mark: nat, pins: set<Key>, k: Key, e: Entry)
    requires Grown(before, mid, mark, pins) && k in mid && mid[k].id < mark
    requires e.SamePlace(mid[k]) && e.pinned == mid[k].pinned
    requires k in before ==> before[k].references <= e.references
    ensures Grown(before, mid[k := e], mark, pins)
  {
  }

  /** Entries made since `mark` are those in `loading`, and they are referenced. */
  ghost predicate NewInUse(entries: Entries, loading: set<Key>, mark: nat) {
    forall k :: k in entries ==> (entries[k].id >= mark <==> k in loading) && (k in loading ==>
      entries[k].references > 0)
  }

  lemma {:induction false} NewInUseStart(entries: Entries, loading: set<Key>, mark: nat)
    requires Fresh(entries, loading, mark)
    ensures NewInUse(entries, loading, mark)
  {
  }

  lemma {:induction false} NewInUseRemove(entries: Entries, loading: set<Key>, mark: nat, k: Key)
    requires NewInUse(entries, loading, mark)
    ensures NewInUse(entries - {k}, loading, mark)
  {
  }

  lemma {:induction false} NewInUseDrop(entries: Entries, loading: set<Key>, mark: nat, k: Key, e: Entry)
    requires NewInUse(entries, loading, mark) && k in entries && e.id == entries[k].id < mark
    ensures NewInUse(entries[k := e], loading, mark)
  {
  }

  // With no handle left for it, a new entry cannot remain.
  lemma {:induction false} NoneNew(entries: Entries, held: multiset<Handle>, held0: multiset<Handle>, nextId: nat,
                                   mark: nat, before: Entries, loading: set<Key>)
    requires Counted(entries, held, nextId) && Counted(before, held0, mark) && held == held0
    requires NewInUse(entries, loading, mark)
    ensures forall k :: k in entries ==> entries[k].id < mark && k !in loading
  {
  }

  /** After a failed batch: no new entry; what is left has its old place and count, and is pinned only as before
      or as the batch asked; what is gone was not in use. */
  ghost predicate RolledBack(before: Entries, after: Entries, pins: set<Key>) {
    && (forall k :: k in after ==>
          && k in before && after[k].SamePlace(before[k]) && after[k].references == before[k].references
          && after[k].pinned == (before[k].pinned || k in pins))
    && (forall k :: k in before && k !in after ==> before[k].Evictable())
  }

  lemma {:induction false} RolledBackFrom(before: Entries, after: Entries, held: multiset<Handle>, nextId: nat,
                                          mark: nat, pins: set<Key>)
    requires Grown(before, after, mark, pins) && Counted(after, held, nextId) && Counted(before, held, mark)
    requires forall k :: k in after ==> after[k].id < mark
    ensures RolledBack(before, after, pins)
  {
  }

  lemma {:induction false} LoadedOld(entries: Entries, memory: seq<seq<Byte>>, pages: seq<nat>, loading: set<Key>)
    requires |memory| == |pages| && Loaded(entries, memory, pages, loading)
    requires forall k :: k in entries ==> k !in loading
    ensures Loaded(entries, memory, pages, {})
  {
  }

  // ---- What a holder relies on ----

  /** Every tensor named by `mine` is the same tensor at the same place before and after. */
  ghost predicate Stable(before: Entries, after: Entries, mine: multiset<Handle>) {
    forall h :: h in mine ==>
      && h.key in before && before[h.key].id == h.id
      && h.key in after && after[h.key].SamePlace(before[h.key])
  }

  lemma {:induction false} StableTransitive(a: Entries, b: Entries, c: Entries, mine: multiset<Handle>)
    requires Stable(a, b, mine) && Stable(b, c, mine)
    ensures Stable(a, c, mine)
  {
  }

  lemma {:induction false} StableStart(entries: Entries, held: multiset<Handle>, nextId: nat, mine: multiset<Handle>)
    requires Counted(entries, held, nextId) && mine <= held
    ensures Stable(entries, entries, mine)
  {
    forall h | h in mine ensures h in held { assert mine[h] <= held[h]; }
  }

  lemma {:induction false} TouchedStable(before: Entries, after: Entries, held: multiset<Handle>, nextId: nat,
                                         mine: multiset<Handle>)
    requires Counted(before, held, nextId) && mine <= held && before.Keys == after.Keys
    requires forall k :: k in after ==> after[k].SamePlace(before[k])
    ensures Stable(before, after, mine)
  {
    forall h | h in mine ensures h in held { assert mine[h] <= held[h]; }
  }

  lemma {:induction false} UpdatedStable(before: Entries, held: multiset<Handle>, nextId: nat, mine: multiset<Handle>,
                                         k: Key, e: Entry)
    requires Counted(before, held, nextId) && mine <= held && k in before && e.SamePlace(before[k])
    ensures Stable(before, before[k := e], mine)
  {
    TouchedStable(before, before[k := e], held, nextId, mine);
  }

  /** A batch of acquisitions moves no tensor that is held. */
  lemma {:induction false} GrownStable(before: Entries, after: Entries, held: multiset<Handle>, mark: nat,
                                       pins: set<Key>, mine: multiset<Handle>)
    requires Counted(before, held, mark) && Grown(before, after, mark, pins) && mine <= held
    ensures Stable(before, after, mine)
  {
    forall h | h in mine ensures h in held { assert mine[h] <= held[h]; }
  }

  /** Nor does a batch that failed. */
  lemma {:induction false} RolledBackStable(before: Entries, after: Entries, held: multiset<Handle>, mark: nat,
                                            pins: set<Key>, mine: multiset<Handle>)
    requires Counted(before, held, mark) && RolledBack(before, after, pins) && mine <= held
    ensures Stable(before, after, mine)
  {
    forall h | h in mine ensures h in held { assert mine[h] <= held[h]; }
  }

  /** Content addressing: every resident payload is the content its key names. */
  ghost predicate Faithful(entries: Entries, content: Key -> seq<Byte>) {
    forall k :: k in entries ==> entries[k].payload == content(k)
  }

  lemma {:induction false} RolledBackFaithful(before: Entries, after: Entries, pins: set<Key>,
                                              content: Key -> seq<Byte>)
    requires RolledBack(before, after, pins) && Faithful(before, content)
    ensures Faithful(after, content)
  {
  }

  lemma {:induction false} UpdatedFaithful(before: Entries, k: Key, e: Entry, content: Key -> seq<Byte>)
    requires Faithful(before, content) && k in before && e.SamePlace(before[k])
    ensures Faithful(before[k := e], content)
  {
  }

  lemma {:induction false} TouchedFaithful(before: Entries, after: Entries, content: Key -> seq<Byte>)
    requires Faithful(before, content) && before.Keys == after.Keys
    requires forall k :: k in after ==> after[k].SamePlace(before[k])
    ensures Faithful(after, content)
  {
  }
}
