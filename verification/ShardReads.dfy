/** Batched reads: entries of one shard coalesced into ranges, and every tensor sliced out of its range. */
module ShardReads {
  import opened Shards
  import opened ShardIndex

  datatype Item = Item(key: string, entry: Entry)

  /** One read: the byte range and the items it serves. */
  datatype Run = Run(start: int, end: int, items: seq<Item>)

  function End(e: Entry): int {
    e.offset + e.length
  }

  predicate Usable(items: seq<Item>) {
    forall k :: 0 <= k < |items| ==> items[k].entry.offset >= 0 && items[k].entry.length > 0
  }

  /** The furthest end among the items. */
  function Reach(items: seq<Item>): int
    requires items != []
  {
    if |items| == 1 then End(items[0].entry)
    else
      var n := |items| - 1;
      var r, e := Reach(items[..n]), End(items[n].entry);
      if r >= e then r else e
  }

  ghost predicate ByOffset(items: seq<Item>) {
    forall a, b :: 0 <= a < b < |items| ==> items[a].entry.offset <= items[b].entry.offset
  }

  /** No two items' byte ranges overlap. */
  ghost predicate Disjoint(items: seq<Item>) {
    forall a, b :: 0 <= a < b < |items| ==>
      End(items[a].entry) <= items[b].entry.offset || End(items[b].entry) <= items[a].entry.offset
  }

  method SortItems(items: seq<Item>) returns (sorted: seq<Item>)
    requires Usable(items)
    ensures ByOffset(sorted) && Usable(sorted) && multiset(sorted) == multiset(items)
  {
    sorted := [];
    for k := 0 to |items|
      invariant ByOffset(sorted) && Usable(sorted) && multiset(sorted) == multiset(items[..k])
    {
      var x := items[k];
      var at := |sorted|;
      while at > 0 && sorted[at - 1].entry.offset > x.entry.offset
        invariant 0 <= at <= |sorted| && forall j :: at <= j < |sorted| ==> sorted[j].entry.offset > x.entry.offset
      {
        at := at - 1;
      }
      assert items[..k + 1] == items[..k] + [x];
      InsertItem(sorted, x, at);
      hide ByOffset, Usable;
      sorted := sorted[..at] + [x] + sorted[at..];
    }
    assert items[..|items|] == items;
  }

  lemma {:induction false} InsertItem(sorted: seq<Item>, x: Item, at: nat)
    requires at <= |sorted| && ByOffset(sorted) && Usable(sorted) && Usable([x])
    requires at > 0 ==> sorted[at - 1].entry.offset <= x.entry.offset
    requires forall j :: at <= j < |sorted| ==> sorted[j].entry.offset > x.entry.offset
    ensures var s := sorted[..at] + [x] + sorted[at..];
            ByOffset(s) && Usable(s) && multiset(s) == multiset(sorted) + multiset{x}
  {
    hide *;
    InsertOrdered(sorted, x, at);
    InsertCount(sorted, x, at);
  }

  lemma {:induction false} InsertCount(sorted: seq<Item>, x: Item, at: nat)
    requires at <= |sorted|
    ensures multiset(sorted[..at] + [x] + sorted[at..]) == multiset(sorted) + multiset{x}
  {
    assert sorted == sorted[..at] + sorted[at..];
  }

  lemma {:induction false} InsertOrdered(sorted: seq<Item>, x: Item, at: nat)
    requires at <= |sorted| && ByOffset(sorted) && Usable(sorted) && Usable([x])
    requires at > 0 ==> sorted[at - 1].entry.offset <= x.entry.offset
    requires forall j :: at <= j < |sorted| ==> sorted[j].entry.offset > x.entry.offset
    ensures ByOffset(sorted[..at] + [x] + sorted[at..]) && Usable(sorted[..at] + [x] + sorted[at..])
  {
    var s := sorted[..at] + [x] + sorted[at..];
    assert [x][0] == x;
    forall k | 0 <= k < |s| ensures s[k] == if k < at then sorted[k] else if k == at then x else sorted[k - 1] {
    }
  }

  function Flatten(runs: seq<Run>): seq<Item> {
    if runs == [] then [] else Flatten(runs[..|runs| - 1]) + runs[|runs| - 1].items
  }

  /** A read starts at its first item, ends at the furthest, and follows gaps and spans within the limits. */
  ghost predicate Tight(r: Run, gap: int, span: int) {
    && r.items != [] && ByOffset(r.items)
    && r.start == r.items[0].entry.offset && r.end == Reach(r.items)
    && forall k :: 1 <= k < |r.items| ==>
         r.items[k].entry.offset <= Reach(r.items[..k]) + gap && End(r.items[k].entry) - r.start <= span
  }

  /** The next read starts anew only because of the gap or the span. */
  ghost predicate Forced(r: Run, next: Run, gap: int, span: int) {
    next.items != [] && (next.items[0].entry.offset - r.end > gap || End(next.items[0].entry) - r.start > span)
  }

  /** The finished reads: each tight, each next one forced. */
  ghost predicate Runs(runs: seq<Run>, gap: int, span: int) {
    && (forall k :: 0 <= k < |runs| ==> Tight(runs[k], gap, span))
    && forall k, l :: 0 <= k < |runs| && l == k + 1 < |runs| ==> Forced(runs[k], runs[l], gap, span)
  }

  // The finished reads and the current one hold the first `i` items in order.
  ghost predicate Progress(sorted: seq<Item>, i: nat, runs: seq<Run>, current: Run, gap: int, span: int) {
    && i <= |sorted| && Flatten(runs) + current.items == sorted[..i]
    && if current.items == [] then runs == [] else Runs(runs + [current], gap, span)
  }

  /** The ranges the reader fetches for the items of one shard. */
  method CoalescedRanges(items: seq<Item>, gap: int, span: int) returns (runs: seq<Run>)
    requires Usable(items)
    ensures multiset(Flatten(runs)) == multiset(items) && Runs(runs, gap, span)
    ensures Disjoint(items) ==> WithinSpan(runs, span)
  {
    runs := Coalesce(items, gap, span);
    hide Runs, Flatten, Disjoint, Usable;
    if Disjoint(items) { SpanLimit(items, runs, gap, span); }
  }

  // The loop over the sorted items.
  method Coalesce(items: seq<Item>, gap: int, span: int) returns (runs: seq<Run>)
    requires Usable(items)
    ensures multiset(Flatten(runs)) == multiset(items) && Runs(runs, gap, span)
  {
    var sorted := SortItems(items);
    runs := [];
    var current: seq<Item> := [];
    var start, end := 0, 0;
    assert Flatten([]) + [] == sorted[..0];
    for i := 0 to |sorted|
      invariant Progress(sorted, i, runs, Run(start, end, current), gap, span)
      invariant i > 0 ==> current != []
    {
      hide Progress, ByOffset;
      var item := sorted[i];
      var e := item.entry;
      ghost var before := Run(start, end, current);
      if current != [] && (e.offset - end > gap || End(e) - start > span) {
        ProgressNew(sorted, i, runs, before, gap, span);
        runs := runs + [Run(start, end, current)];
        current := [];
      } else if current == [] {
        ProgressFirst(sorted, i, runs, before, gap, span);
      } else {
        ProgressExtend(sorted, i, runs, before, gap, span);
      }
      if current == [] {
        start, end := e.offset, End(e);
      } else {
        end := if end >= End(e) then end else End(e);
      }
      current := current + [item];
    }
    assert sorted[..|sorted|] == sorted;
    if current != [] {
      FlattenNext(runs, Run(start, end, current));
      runs := runs + [Run(start, end, current)];
    } else {
      assert Flatten(runs) + [] == Flatten(runs);
    }
  }

  lemma {:induction false} ProgressFirst(sorted: seq<Item>, i: nat, runs: seq<Run>, current: Run, gap: int, span: int)
    requires Progress(sorted, i, runs, current, gap, span) && i < |sorted| && current.items == []
    ensures var x := sorted[i]; Progress(sorted, i + 1, runs, Run(x.entry.offset, End(x.entry), [] + [x]), gap, span)
  {
    assert sorted[..i + 1] == sorted[..i] + [sorted[i]];
    assert [] + [sorted[i]] == [sorted[i]];
  }

  lemma {:induction false} ProgressNew(sorted: seq<Item>, i: nat, runs: seq<Run>, current: Run, gap: int, span: int)
    requires Progress(sorted, i, runs, current, gap, span) && i < |sorted| && current.items != []
    requires var e := sorted[i].entry; e.offset - current.end > gap || End(e) - current.start > span
    ensures var x := sorted[i]; Progress(sorted, i + 1, runs + [current], Run(x.entry.offset, End(x.entry), [] + [x]),
                                         gap, span)
  {
    var x := sorted[i];
    var next, done := Run(x.entry.offset, End(x.entry), [x]), runs + [current];
    assert [] + [x] == [x];
    assert sorted[..i + 1] == sorted[..i] + [x];
    FlattenNext(runs, current);
    assert Tight(next, gap, span);
    assert Forced(current, next, gap, span);
    hide Tight, Forced, Flatten;
    RunsNext(done, next, gap, span);
  }

  lemma {:induction false} RunsNext(runs: seq<Run>, r: Run, gap: int, span: int)
    requires Runs(runs, gap, span) && Tight(r, gap, span) && runs != [] && Forced(runs[|runs| - 1], r, gap, span)
    ensures Runs(runs + [r], gap, span)
  {
    hide Tight, Forced;
  }

  lemma {:induction false} ProgressExtend(sorted: seq<Item>, i: nat, runs: seq<Run>, current: Run, gap: int, span: int)
    requires Progress(sorted, i, runs, current, gap, span) && i < |sorted| && current.items != [] && ByOffset(sorted)
    requires var e := sorted[i].entry; e.offset - current.end <= gap && End(e) - current.start <= span
    ensures var x := sorted[i];
            var end := if current.end >= End(x.entry) then current.end else End(x.entry);
            Progress(sorted, i + 1, runs, Run(current.start, end, current.items + [x]), gap, span)
  {
    var x := sorted[i];
    var end := if current.end >= End(x.entry) then current.end else End(x.entry);
    var next, last := Run(current.start, end, current.items + [x]), runs + [current];
    assert sorted[..i + 1] == sorted[..i] + [x];
    assert Flatten(runs) + (current.items + [x]) == sorted[..i + 1];
    assert last[|runs|] == current && Tight(current, gap, span);
    SuffixOrdered(sorted, i, Flatten(runs), current.items, x);
    TightNext(current, x, gap, span);
    assert |runs| > 0 ==> Forced(runs[|runs| - 1], current, gap, span) by {
      if |runs| > 0 { assert last[|runs| - 1] == runs[|runs| - 1]; }
    }
    assert next.items[0] == current.items[0];
    hide Tight, Flatten, Reach;
    assert forall k :: 0 <= k < |runs| ==> last[k] == runs[k];
  }

  lemma {:induction false} SuffixOrdered(sorted: seq<Item>, i: nat, done: seq<Item>, current: seq<Item>, x: Item)
    requires ByOffset(sorted) && i < |sorted| && done + current == sorted[..i] && x == sorted[i]
    ensures ByOffset(current + [x])
  {
    var s := current + [x];
    forall k | 0 <= k < |s| ensures s[k] == sorted[|done| + k] {
      if k < |current| { assert (done + current)[|done| + k] == current[k]; }
    }
  }

  lemma {:induction false} FlattenNext(runs: seq<Run>, r: Run)
    ensures Flatten(runs + [r]) == Flatten(runs) + r.items
  {
    assert (runs + [r])[..|runs|] == runs;
  }

  lemma {:induction false} ReachNext(items: seq<Item>, item: Item)
    requires items != []
    ensures Reach(items + [item]) == if Reach(items) >= End(item.entry) then Reach(items) else End(item.entry)
  {
    assert (items + [item])[..|items|] == items;
  }

  lemma {:induction false} TightNext(r: Run, item: Item, gap: int, span: int)
    requires Tight(r, gap, span) && ByOffset(r.items + [item])
    requires item.entry.offset - r.end <= gap && End(item.entry) - r.start <= span
    ensures Tight(Run(r.start, if r.end >= End(item.entry) then r.end else End(item.entry), r.items + [item]), gap,
                  span)
  {
    var items, n := r.items + [item], |r.items|;
    assert items[..n] == r.items;
    ReachNext(r.items, item);
    hide Reach, ByOffset;
    forall k | 1 <= k < |items|
      ensures items[k].entry.offset <= Reach(items[..k]) + gap && End(items[k].entry) - r.start <= span
    {
      if k < n { assert items[..k] == r.items[..k] && items[k] == r.items[k]; }
    }
  }

  // ---- What a read covers ----

  lemma {:induction false} ReachCovers(items: seq<Item>, k: nat)
    requires k < |items|
    ensures End(items[k].entry) <= Reach(items)
    decreases |items|
  {
    if |items| > 1 && k < |items| - 1 { ReachCovers(items[..|items| - 1], k); }
  }

  lemma {:induction false} ReachAttained(items: seq<Item>) returns (k: nat)
    requires items != []
    ensures k < |items| && End(items[k].entry) == Reach(items)
    decreases |items|
  {
    var n := |items| - 1;
    if n == 0 || End(items[n].entry) >= Reach(items[..n]) {
      k := n;
    } else {
      k := ReachAttained(items[..n]);
    }
  }

  /** Every item lies inside its read; a read of several disjoint items spans no more than the limit. */
  lemma {:induction false} RunCovers(r: Run, gap: int, span: int)
    requires Tight(r, gap, span)
    ensures forall k :: 0 <= k < |r.items| ==> r.start <= r.items[k].entry.offset && End(r.items[k].entry) <= r.end
    ensures |r.items| > 1 && Usable(r.items) && Disjoint(r.items) ==> r.end - r.start <= span
  {
    forall k | 0 <= k < |r.items| ensures End(r.items[k].entry) <= r.end { ReachCovers(r.items, k); }
    if |r.items| > 1 && Usable(r.items) && Disjoint(r.items) {
      var k := ReachAttained(r.items);
      assert r.items[0].entry.offset <= r.items[1].entry.offset;
      assert End(r.items[0].entry) <= r.items[1].entry.offset < End(r.items[1].entry) <= r.end;
    }
  }

  /** Items of one shard of an accepted index are disjoint. */
  lemma {:induction false} AcceptedDisjoint(items: seq<Item>, d: Document, shard: string)
    requires WellFormed(d) && (forall k :: 0 <= k < |items| ==>
               items[k].entry in d.entries && items[k].entry.shard == shard)
    requires forall a, b :: 0 <= a < b < |items| ==> items[a].entry != items[b].entry
    ensures Usable(items) && Disjoint(items)
  {
    EntriesInShards(d.entries, d.alignment, FilesByName(d.shards));
    forall a, b | 0 <= a < b < |items|
      ensures End(items[a].entry) <= items[b].entry.offset || End(items[b].entry) <= items[a].entry.offset
    {
      var i :| 0 <= i < |d.entries| && d.entries[i] == items[a].entry;
      var j :| 0 <= j < |d.entries| && d.entries[j] == items[b].entry;
      hide EntriesOk, FilesOk, FilesByName, PowerOfTwo;
      assert i < j ==> Apart(RangeOf(d.entries[i], d.alignment), RangeOf(d.entries[j], d.alignment));
      assert j < i ==> Apart(RangeOf(d.entries[j], d.alignment), RangeOf(d.entries[i], d.alignment));
    }
  }

  /** Every read of several items is within the span limit. */
  ghost predicate WithinSpan(runs: seq<Run>, span: int) {
    forall k :: 0 <= k < |runs| && |runs[k].items| > 1 ==> runs[k].end - runs[k].start <= span
  }

  lemma {:induction false} DisjointPart(p: seq<Item>, q: seq<Item>, r: seq<Item>)
    requires Disjoint(p + q + r)
    ensures Disjoint(q)
  {
    assert forall k :: 0 <= k < |q| ==> q[k] == (p + q + r)[|p| + k];
  }

  /** Items stay disjoint whatever the order. */
  lemma {:induction false} DisjointPermuted(p: seq<Item>, q: seq<Item>)
    requires multiset(p) == multiset(q) && Usable(p) && Disjoint(p)
    ensures Disjoint(q)
  {
    forall a, b | 0 <= a < b < |q|
      ensures End(q[a].entry) <= q[b].entry.offset || End(q[b].entry) <= q[a].entry.offset
    {
      PairDisjoint(p, q, a, b);
    }
  }

  lemma {:induction false} PairDisjoint(p: seq<Item>, q: seq<Item>, a: nat, b: nat)
    requires multiset(p) == multiset(q) && Usable(p) && Disjoint(p) && a < b < |q|
    ensures End(q[a].entry) <= q[b].entry.offset || End(q[b].entry) <= q[a].entry.offset
  {
    SameItems(p, q, a);
    SameItems(p, q, b);
    var i :| 0 <= i < |p| && p[i] == q[a];
    var j :| 0 <= j < |p| && p[j] == q[b];
    TwiceMeansTwo(q, a, b);
    DisjointOnce(p, i);
    assert i != j;
  }

  lemma {:induction false} DisjointOnce(p: seq<Item>, i: nat)
    requires Usable(p) && Disjoint(p) && i < |p|
    ensures multiset(p)[p[i]] == 1
  {
    var a, b := p[..i], p[i + 1..];
    assert p == a + [p[i]] + b;
    assert multiset(p) == multiset(a) + multiset([p[i]]) + multiset(b);
    assert p[i] !in a by { assert forall k :: 0 <= k < i ==> a[k] == p[k]; }
    assert p[i] !in b by { assert forall k :: 0 <= k < |b| ==> b[k] == p[i + 1 + k]; }
  }

  /** Disjoint items are read within the span limit. */
  lemma {:induction false} SpanLimit(items: seq<Item>, runs: seq<Run>, gap: int, span: int)
    requires Usable(items) && Disjoint(items) && multiset(Flatten(runs)) == multiset(items) && Runs(runs, gap, span)
    ensures WithinSpan(runs, span)
  {
    DisjointPermuted(items, Flatten(runs));
    UsablePermuted(items, Flatten(runs));
    forall k | 0 <= k < |runs| && |runs[k].items| > 1 ensures runs[k].end - runs[k].start <= span {
      hide Flatten, Disjoint, Usable, Tight;
      var rest := FlattenSplit(runs, k);
      DisjointPart(Flatten(runs[..k]), runs[k].items, rest);
      UsablePart(Flatten(runs[..k]), runs[k].items, rest);
      RunCovers(runs[k], gap, span);
    }
  }

  /** The reads of any items of one shard of an accepted index: every item once, every larger read within the span. */
  method ShardRuns(d: Document, shard: string, items: seq<Item>, gap: int, span: int) returns (runs: seq<Run>)
    requires WellFormed(d) && (forall k :: 0 <= k < |items| ==>
               items[k].entry in d.entries && items[k].entry.shard == shard)
    requires forall a, b :: 0 <= a < b < |items| ==> items[a].entry != items[b].entry
    ensures multiset(Flatten(runs)) == multiset(items) && Runs(runs, gap, span) && WithinSpan(runs, span)
  {
    hide WellFormed, Runs, Flatten, Disjoint, Usable, WithinSpan;
    AcceptedDisjoint(items, d, shard);
    runs := CoalescedRanges(items, gap, span);
  }

  // ---- Reading ----

  datatype Read = Payloads(payloads: map<string, seq<Byte>>) | EndedEarly | ChecksumMismatch | NonFinite

  /** The two checks of a tensor that was read: its checksum, and that its numbers are finite. */
  datatype Checks = Checks(hash: seq<Byte> -> string, finite: (seq<Byte>, Entry) -> bool) {
    predicate Pass(e: Entry, tensor: seq<Byte>) {
      hash(tensor) == e.digest && finite(tensor, e)
    }
  }

  predicate Inside(e: Entry, file: seq<Byte>) {
    0 <= e.offset && 0 <= e.length && End(e) <= |file|
  }

  function BytesOf(e: Entry, file: seq<Byte>): seq<Byte>
    requires Inside(e, file)
  {
    file[e.offset..End(e)]
  }

  predicate Sound(e: Entry, file: seq<Byte>, checks: Checks) {
    Inside(e, file) && checks.Pass(e, BytesOf(e, file))
  }

  /** Every item of the list is served with its exact bytes, and nothing else is. */
  ghost predicate Serves(payloads: map<string, seq<Byte>>, items: seq<Item>, file: seq<Byte>) {
    && (forall k :: 0 <= k < |items| ==> ServesOne(payloads, items[k], file))
    && forall key :: key in payloads ==> exists k :: 0 <= k < |items| && items[k].key == key
  }

  ghost predicate ServesOne(payloads: map<string, seq<Byte>>, item: Item, file: seq<Byte>) {
    Inside(item.entry, file) && item.key in payloads && payloads[item.key] == BytesOf(item.entry, file)
  }

  ghost predicate DistinctKeys(items: seq<Item>) {
    forall a, b :: 0 <= a < b < |items| ==> items[a].key != items[b].key
  }

  lemma {:induction false} ServesNext(payloads: map<string, seq<Byte>>, items: seq<Item>, item: Item, file: seq<Byte>)
    requires Serves(payloads, items, file) && Inside(item.entry, file) && DistinctKeys(items + [item])
    ensures Serves(payloads[item.key := BytesOf(item.entry, file)], items + [item], file)
  {
    var next, all := payloads[item.key := BytesOf(item.entry, file)], items + [item];
    hide BytesOf, Inside;
    forall k | 0 <= k < |all| ensures ServesOne(next, all[k], file) {
      if k < |items| {
        assert ServesOne(payloads, items[k], file);
        assert all[k].key != all[|items|].key;
      }
    }
    forall key | key in next ensures exists k :: 0 <= k < |all| && all[k].key == key {
      if key == item.key { assert all[|items|].key == key; }
      else {
        var k :| 0 <= k < |items| && items[k].key == key;
        assert all[k].key == key;
      }
    }
  }

  /** One range read and cut up: fails exactly when the file is too short or some tensor fails a check. */
  method ReadRange(file: seq<Byte>, r: Run, checks: Checks, ghost gap: int, ghost span: int)
      returns (out: Read)
    requires Tight(r, gap, span) && Usable(r.items) && DistinctKeys(r.items)
    ensures out.Payloads? <==> AllSound(r.items, file, checks)
    ensures out.Payloads? ==> Serves(out.payloads, r.items, file)
    ensures out.EndedEarly? <==> r.end > |file|
  {
    RunCovers(r, gap, span);
    ghost var furthest := ReachAttained(r.items);
    assert End(r.items[furthest].entry) == r.end && 0 <= r.start <= r.end;
    hide Tight, Reach;
    var payload := if r.end <= |file| then file[r.start..r.end] else if r.start <= |file| then file[r.start..] else [];
    if |payload| != r.end - r.start {
      assert !Sound(r.items[furthest].entry, file, checks);
      return EndedEarly;
    }
    out := CutUp(file, r, payload, checks);
  }

  method CutUp(ghost file: seq<Byte>, r: Run, payload: seq<Byte>, checks: Checks) returns (out: Read)
    requires Usable(r.items) && DistinctKeys(r.items) && 0 <= r.start <= r.end <= |file|
             && payload == file[r.start..r.end]
    requires forall k :: 0 <= k < |r.items| ==> r.start <= r.items[k].entry.offset && End(r.items[k].entry) <= r.end
    ensures out.Payloads? <==> AllSound(r.items, file, checks)
    ensures out.Payloads? ==> Serves(out.payloads, r.items, file)
    ensures !out.EndedEarly?
  {
    var result: map<string, seq<Byte>> := map[];
    assert Serves(result, r.items[..0], file);
    hide Serves, BytesOf, Sound, DistinctKeys;
    for k := 0 to |r.items|
      invariant Serves(result, r.items[..k], file)
      invariant forall j :: 0 <= j < k ==> Sound(r.items[j].entry, file, checks)
    {
      var key, e := r.items[k].key, r.items[k].entry;
      var tensor := payload[e.offset - r.start..e.offset - r.start + e.length];
      SliceIs(file, r.start, r.end, payload, e, checks);
      if checks.hash(tensor) != e.digest { return ChecksumMismatch; }
      if !checks.finite(tensor, e) { return NonFinite; }
      PrefixDistinct(r.items, k);
      ServesNext(result, r.items[..k], r.items[k], file);
      result := result[key := tensor];
    }
    assert r.items[..|r.items|] == r.items;
    out := Payloads(result);
  }

  lemma {:induction false} PrefixDistinct(items: seq<Item>, k: nat)
    requires DistinctKeys(items) && k < |items|
    ensures items[..k + 1] == items[..k] + [items[k]] && DistinctKeys(items[..k] + [items[k]])
  {
    assert items[..k + 1] == items[..k] + [items[k]];
  }

  lemma {:induction false} SliceIs(file: seq<Byte>, start: int, end: int, payload: seq<Byte>, e: Entry,
                                   checks: Checks)
    requires 0 <= start <= end <= |file| && payload == file[start..end] && e.length >= 0
    requires start <= e.offset && End(e) <= end
    ensures Inside(e, file) && payload[e.offset - start..e.offset - start + e.length] == BytesOf(e, file)
    ensures Sound(e, file, checks) <==> checks.Pass(e, BytesOf(e, file))
  {
    var a, b := payload[e.offset - start..e.offset - start + e.length], file[e.offset..End(e)];
    forall k | 0 <= k < |b| ensures a[k] == b[k] {
      assert a[k] == payload[e.offset - start + k];
    }
  }

  // ---- All the reads of a shard ----

  lemma {:induction false} ServesUnion(a: map<string, seq<Byte>>, p: seq<Item>, b: map<string, seq<Byte>>,
                                       q: seq<Item>, file: seq<Byte>)
    requires Serves(a, p, file) && Serves(b, q, file) && DistinctKeys(p + q)
    ensures Serves(a + b, p + q, file)
  {
    var all := p + q;
    hide Inside, BytesOf;
    forall k | 0 <= k < |all| ensures ServesOne(a + b, all[k], file) {
      if k < |p| {
        assert ServesOne(a, p[k], file);
        forall j | 0 <= j < |q| ensures q[j].key != p[k].key { assert all[k].key != all[|p| + j].key; }
        assert p[k].key !in b;
      } else {
        assert ServesOne(b, q[k - |p|], file);
      }
    }
    forall key | key in a + b ensures exists k :: 0 <= k < |all| && all[k].key == key {
      if key in b {
        var k :| 0 <= k < |q| && q[k].key == key;
        assert all[|p| + k].key == key;
      } else {
        var k :| 0 <= k < |p| && p[k].key == key;
        assert all[k].key == key;
      }
    }
  }

  /** Keys stay distinct whatever the order. */
  lemma {:induction false} DistinctKeysPermuted(p: seq<Item>, q: seq<Item>)
    requires multiset(p) == multiset(q) && DistinctKeys(p)
    ensures DistinctKeys(q)
  {
    forall a, b | 0 <= a < b < |q| ensures q[a].key != q[b].key { KeysDiffer(p, q, a, b); }
  }

  lemma {:induction false} KeysDiffer(p: seq<Item>, q: seq<Item>, a: nat, b: nat)
    requires multiset(p) == multiset(q) && DistinctKeys(p) && a < b < |q|
    ensures q[a].key != q[b].key
  {
    assert q[a] in multiset(q) && q[b] in multiset(q);
    assert q[a] in p && q[b] in p;
    var i :| 0 <= i < |p| && p[i] == q[a];
    var j :| 0 <= j < |p| && p[j] == q[b];
    TwiceMeansTwo(q, a, b);
    OnceMeansOne(p, i);
    assert i != j;
    assert i < j ==> p[i].key != p[j].key;
    assert j < i ==> p[j].key != p[i].key;
  }

  lemma {:induction false} TwiceMeansTwo(q: seq<Item>, a: nat, b: nat)
    requires a < b < |q|
    ensures q[a] == q[b] ==> multiset(q)[q[a]] >= 2
  {
    var p := q[..b];
    assert p[a] == q[a] && q[a] in p && multiset(p)[q[a]] >= 1;
    assert q == p + [q[b]] + q[b + 1..];
    assert multiset(q) == multiset(p) + multiset([q[b]]) + multiset(q[b + 1..]);
  }

  lemma {:induction false} OnceMeansOne(p: seq<Item>, i: nat)
    requires DistinctKeys(p) && i < |p|
    ensures multiset(p)[p[i]] == 1
  {
    var a, b := p[..i], p[i + 1..];
    assert p == a + [p[i]] + b;
    assert multiset(p) == multiset(a) + multiset([p[i]]) + multiset(b);
    assert p[i] !in a by { assert forall k :: 0 <= k < i ==> a[k] == p[k]; }
    assert p[i] !in b by { assert forall k :: 0 <= k < |b| ==> b[k] == p[i + 1 + k]; }
  }

  lemma {:induction false} DistinctPart(p: seq<Item>, q: seq<Item>, r: seq<Item>)
    requires DistinctKeys(p + q + r)
    ensures DistinctKeys(p + q) && DistinctKeys(q)
  {
    var all := p + q + r;
    assert forall k :: 0 <= k < |p + q| ==> (p + q)[k] == all[k];
    assert forall k :: 0 <= k < |q| ==> q[k] == all[|p| + k];
  }

  lemma {:induction false} FlattenSplit(runs: seq<Run>, k: nat) returns (rest: seq<Item>)
    requires k < |runs|
    ensures Flatten(runs[..k + 1]) == Flatten(runs[..k]) + runs[k].items
    ensures Flatten(runs) == Flatten(runs[..k]) + runs[k].items + rest
    decreases |runs|
  {
    var n := |runs| - 1;
    assert runs[..k + 1][..k] == runs[..k];
    if k == n {
      rest := [];
      assert runs[..k + 1] == runs;
    } else {
      rest := FlattenSplit(runs[..n], k);
      assert runs[..n][..k] == runs[..k] && runs[..n][..k + 1] == runs[..k + 1] && runs[..n][k] == runs[k];
      assert Flatten(runs) == Flatten(runs[..n]) + runs[n].items;
      rest := rest + runs[n].items;
    }
  }

  /**
   * All tensors of a shard through coalesced reads: exactly the requested keys, each with its exact bytes. The reads it
   * made are returned too.
   */
  method ReadShard(file: seq<Byte>, items: seq<Item>, checks: Checks, gap: int, span: int)
      returns (out: Read, runs: seq<Run>)
    requires Usable(items) && DistinctKeys(items)
    ensures out.Payloads? <==> AllSound(items, file, checks)
    ensures out.Payloads? ==> Serves(out.payloads, items, file)
    ensures multiset(Flatten(runs)) == multiset(items) && (Disjoint(items) ==> WithinSpan(runs, span))
  {
    runs := CoalescedRanges(items, gap, span);
    ghost var all := Flatten(runs);
    DistinctKeysPermuted(items, all);
    UsablePermuted(items, all);
    SoundPermuted(items, all, file, checks);
    var payloads: map<string, seq<Byte>> := map[];
    assert Serves(payloads, Flatten(runs[..0]), file);
    assert AllSound(Flatten(runs[..0]), file, checks);
    hide Serves, Flatten, Sound, DistinctKeys, Usable, Tight, Forced, AllSound, Disjoint, WithinSpan;
    for k := 0 to |runs|
      invariant Serves(payloads, Flatten(runs[..k]), file)
      invariant AllSound(Flatten(runs[..k]), file, checks)
    {
      ghost var rest := FlattenSplit(runs, k);
      DistinctPart(Flatten(runs[..k]), runs[k].items, rest);
      UsablePart(Flatten(runs[..k]), runs[k].items, rest);
      SoundPart(Flatten(runs[..k]), runs[k].items, rest, file, checks);
      var one := ReadRange(file, runs[k], checks, gap, span);
      if !one.Payloads? { return one, runs; }
      ServesUnion(payloads, Flatten(runs[..k]), one.payloads, runs[k].items, file);
      payloads := payloads + one.payloads;
    }
    assert runs[..|runs|] == runs;
    ServesPermuted(payloads, all, items, file);
    out := Payloads(payloads);
  }

  lemma {:induction false} UsablePart(p: seq<Item>, q: seq<Item>, r: seq<Item>)
    requires Usable(p + q + r)
    ensures Usable(q)
  {
    assert forall k :: 0 <= k < |q| ==> q[k] == (p + q + r)[|p| + k];
  }

  ghost predicate AllSound(items: seq<Item>, file: seq<Byte>, checks: Checks) {
    forall k :: 0 <= k < |items| ==> Sound(items[k].entry, file, checks)
  }

  lemma {:induction false} SoundPart(p: seq<Item>, q: seq<Item>, r: seq<Item>, file: seq<Byte>,
                                     checks: Checks)
    ensures AllSound(p + q + r, file, checks) ==> AllSound(q, file, checks)
    ensures AllSound(p, file, checks) && AllSound(q, file, checks) ==> AllSound(p + q, file, checks)
  {
    hide Sound;
    if AllSound(p + q + r, file, checks) {
      forall k | 0 <= k < |q| ensures Sound(q[k].entry, file, checks) { assert q[k] == (p + q + r)[|p| + k]; }
    }
  }

  lemma {:induction false} SameItems(p: seq<Item>, q: seq<Item>, k: nat)
    requires multiset(p) == multiset(q) && k < |q|
    ensures q[k] in p
  {
    assert q[k] in multiset(q);
  }

  lemma {:induction false} UsablePermuted(p: seq<Item>, q: seq<Item>)
    requires multiset(p) == multiset(q) && Usable(p)
    ensures Usable(q)
  {
    forall k | 0 <= k < |q| ensures q[k].entry.offset >= 0 && q[k].entry.length > 0 { SameItems(p, q, k); }
  }

  lemma {:induction false} SoundPermuted(p: seq<Item>, q: seq<Item>, file: seq<Byte>, checks: Checks)
    requires multiset(p) == multiset(q)
    ensures AllSound(p, file, checks) <==> AllSound(q, file, checks)
  {
    hide Sound;
    if AllSound(p, file, checks) {
      forall k | 0 <= k < |q| ensures Sound(q[k].entry, file, checks) { SameItems(p, q, k); }
    }
    if AllSound(q, file, checks) {
      forall k | 0 <= k < |p| ensures Sound(p[k].entry, file, checks) { SameItems(q, p, k); }
    }
  }

  lemma {:induction false} ServesPermuted(payloads: map<string, seq<Byte>>, p: seq<Item>, q: seq<Item>, file: seq<Byte>)
    requires multiset(p) == multiset(q) && Serves(payloads, p, file)
    ensures Serves(payloads, q, file)
  {
    hide ServesOne;
    forall k | 0 <= k < |q| ensures ServesOne(payloads, q[k], file) { SameItems(p, q, k); }
    forall key | key in payloads ensures exists k :: 0 <= k < |q| && q[k].key == key {
      var k :| 0 <= k < |p| && p[k].key == key;
      SameItems(q, p, k);
    }
  }
}
