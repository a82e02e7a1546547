/** The three prefetchers: plain, windowed and read-stream, and that a caller cannot tell them apart. */
module Prefetch {
  datatype Option<T> = None | Some(value: T)

  /** An element of the search queue and the pages it will read. */
  datatype Item = Item(id: nat, pages: seq<nat>)

  const WINDOW_SIZE: nat := 32

  // ---- What a caller sees ----

  datatype Op = Next | NextIf(accepts: Item -> bool)

  /** The item an operation yields from the items still to come, and what is left. */
  function Step(op: Op, items: seq<Item>): (Option<Item>, seq<Item>) {
    if items == [] || (op.NextIf? && !op.accepts(items[0])) then (None, items) else (Some(items[0]), items[1..])
  }

  function Run(ops: seq<Op>, items: seq<Item>): (r: (seq<Option<Item>>, seq<Item>))
    ensures |r.0| == |ops|
  {
    if ops == [] then ([], items) else
      var first := Step(ops[0], items);
      var rest := Run(ops[1..], first.1);
      ([first.0] + rest.0, rest.1)
  }

  lemma {:induction false} RunAppend(ops: seq<Op>, op: Op, items: seq<Item>)
    ensures var r := Run(ops, items);
            var last := Step(op, r.1);
            Run(ops + [op], items) == (r.0 + [last.0], last.1)
    decreases |ops|
  {
    if ops == [] {
      assert ops + [op] == [op] && [op][1..] == [];
      assert Run([op][1..], Step(op, items).1) == ([], Step(op, items).1);
      assert [Step(op, items).0] + [] == [] + [Step(op, items).0];
    } else {
      assert (ops + [op])[0] == ops[0] && (ops + [op])[1..] == ops[1..] + [op];
      var first := Step(ops[0], items);
      RunAppend(ops[1..], op, first.1);
      var rest := Run(ops[1..], first.1);
      var last := Step(op, rest.1);
      assert [first.0] + (rest.0 + [last.0]) == ([first.0] + rest.0) + [last.0];
    }
  }

  /** The items an operation sequence yielded, in order. */
  function Yielded(outs: seq<Option<Item>>): seq<Item> {
    if outs == [] then [] else (if outs[0].Some? then [outs[0].value] else []) + Yielded(outs[1..])
  }

  /** What was yielded, followed by what is left, is the whole queue: nothing is lost, repeated or reordered. */
  lemma {:induction false} NothingLost(ops: seq<Op>, items: seq<Item>)
    ensures var r := Run(ops, items); Yielded(r.0) + r.1 == items
    decreases |ops|
  {
    if ops == [] {
    } else {
      var first := Step(ops[0], items);
      NothingLost(ops[1..], first.1);
      var rest, r := Run(ops[1..], first.1), Run(ops, items);
      assert r.0[1..] == rest.0 && r.0[0] == first.0;
    }
  }

  // ---- Plain ----

  class PlainPrefetcher {
    var sequence: seq<Item>

    constructor (sequence: seq<Item>)
      ensures this.sequence == sequence
    {
      this.sequence := sequence;
    }

    method Apply(op: Op) returns (r: Option<Item>)
      modifies this
      ensures (r, sequence) == Step(op, old(sequence))
    {
      if sequence == [] { return None; }
      if op.NextIf? && !op.accepts(sequence[0]) { return None; }
      r := Some(sequence[0]);
      sequence := sequence[1..];
    }

    method Drive(ops: seq<Op>) returns (outs: seq<Option<Item>>)
      modifies this
      ensures (outs, sequence) == Run(ops, old(sequence))
    {
      outs := [];
      for k := 0 to |ops|
        invariant (outs, sequence) == Run(ops[..k], old(sequence))
      {
        RunAppend(ops[..k], ops[k], old(sequence));
        assert ops[..k + 1] == ops[..k] + [ops[k]];
        hide Run;
        var r := Apply(ops[k]);
        outs := outs + [r];
      }
      assert ops[..|ops|] == ops;
    }
  }

  // ---- Windowed ----

  function Pages(items: seq<Item>): seq<nat> {
    if items == [] then [] else Pages(items[..|items| - 1]) + items[|items| - 1].pages
  }

  lemma {:induction false} PagesAppend(items: seq<Item>, e: Item)
    ensures Pages(items + [e]) == Pages(items) + e.pages
  {
    assert (items + [e])[..|items|] == items;
  }

  class SimplePrefetcher {
    var window: seq<Item>
    var sequence: seq<Item>
    /** The pages asked for so far. */
    var prefetched: seq<nat>
    ghost var taken: seq<Item>

    ghost predicate Valid()
      reads this
    {
      |window| <= WINDOW_SIZE && prefetched == Pages(taken + window)
    }

    /** What is still to come, as `into_iter` would give it. */
    ghost function Remaining(): seq<Item>
      reads this
    {
      window + sequence
    }

    constructor (sequence: seq<Item>)
      ensures Valid() && Remaining() == sequence && taken == []
    {
      this.window, this.sequence, this.prefetched, this.taken := [], sequence, [], [];
    }

    // Fills the window from the sequence, asking for each item's pages.
    method Fill()
      requires Valid()
      modifies this`window, this`sequence, this`prefetched
      ensures Valid() && Remaining() == old(Remaining())
      ensures window == [] ==> sequence == []
    {
      while |window| < WINDOW_SIZE && sequence != []
        invariant Valid() && Remaining() == old(Remaining())
        decreases |sequence|
      {
        var e := sequence[0];
        PagesAppend(taken + window, e);
        assert taken + (window + [e]) == (taken + window) + [e];
        prefetched := prefetched + e.pages;
        window, sequence := window + [e], sequence[1..];
      }
    }

    method Apply(op: Op) returns (r: Option<Item>)
      requires Valid()
      modifies this
      ensures Valid() && (r, Remaining()) == Step(op, old(Remaining()))
      ensures taken == old(taken) + if r.Some? then [r.value] else []
    {
      Fill();
      assert taken + [] == taken;
      if window == [] || (op.NextIf? && !op.accepts(window[0])) { return None; }
      r := Some(window[0]);
      assert (taken + [window[0]]) + window[1..] == taken + window;
      assert Remaining()[0] == window[0] && Remaining()[1..] == window[1..] + sequence;
      taken := taken + [window[0]];
      window := window[1..];
    }

    /** Every page of an item was asked for before the item is yielded, each in order. */
    lemma Prefetched()
      requires Valid()
      ensures |Pages(taken)| <= |prefetched| && prefetched[..|Pages(taken)|] == Pages(taken)
    {
      PagesPrefix(taken, window);
    }

    method Drive(ops: seq<Op>) returns (outs: seq<Option<Item>>)
      requires Valid()
      modifies this
      ensures Valid() && (outs, Remaining()) == Run(ops, old(Remaining()))
    {
      outs := [];
      for k := 0 to |ops|
        invariant Valid() && (outs, Remaining()) == Run(ops[..k], old(Remaining()))
      {
        RunAppend(ops[..k], ops[k], old(Remaining()));
        assert ops[..k + 1] == ops[..k] + [ops[k]];
        hide Run;
        var r := Apply(ops[k]);
        outs := outs + [r];
      }
      assert ops[..|ops|] == ops;
    }
  }

  lemma {:induction false} PagesPrefix(a: seq<Item>, b: seq<Item>)
    ensures |Pages(a)| <= |Pages(a + b)| && Pages(a + b)[..|Pages(a)|] == Pages(a)
    decreases |b|
  {
    if b == [] {
      assert a + b == a;
    } else {
      var n := |b| - 1;
      PagesPrefix(a, b[..n]);
      assert (a + b)[..|a| + n] == a + b[..n];
    }
  }

  // ---- Read stream ----

  class ReadStream {
    var window: seq<Item>
    var tail: seq<nat>
    var iter: seq<Item>
    /** Pages the stream has pulled, and how many of their buffers were handed out. */
    var pulled: seq<nat>
    var consumed: nat
    ghost var taken: seq<Item>

    ghost predicate Valid()
      reads this
    {
      pulled + tail == Pages(taken + window) && consumed <= |pulled|
    }

    ghost function Remaining(): seq<Item>
      reads this
    {
      window + iter
    }

    /** Every item there ever was. */
    ghost function Everything(): seq<Item>
      reads this
    {
      taken + window + iter
    }

    /** The guards of every item yielded so far were read to their end. */
    ghost predicate Aligned()
      reads this
    {
      consumed == |Pages(taken)|
    }

    constructor (sequence: seq<Item>)
      ensures Valid() && Remaining() == sequence && taken == [] && Everything() == sequence
      ensures Aligned() && consumed == 0
    {
      window, tail, iter, pulled, consumed, taken := [], [], sequence, [], 0, [];
    }

    // The next item moves from the iterator to the window, its pages to the tail.
    method Advance()
      requires Valid() && iter != []
      modifies this`window, this`tail, this`iter
      ensures Valid() && Remaining() == old(Remaining()) && Everything() == old(Everything())
      ensures |iter| + 1 == old(|iter|) && window == old(window) + [old(iter[0])]
              && tail == old(tail) + old(iter[0]).pages
    {
      hide Pages;
      var e := iter[0];
      PagesAppend(taken + window, e);
      assert taken + (window + [e]) == (taken + window) + [e];
      assert pulled + (tail + e.pages) == (pulled + tail) + e.pages;
      tail := tail + e.pages;
      window, iter := window + [e], iter[1..];
    }

    /** The stream's callback: the next page to read ahead. */
    method PopId() returns (id: Option<nat>)
      requires Valid()
      modifies this`window, this`tail, this`iter, this`pulled
      ensures Valid() && Remaining() == old(Remaining()) && Everything() == old(Everything())
      ensures id.None? ==> pulled == old(pulled) && pulled == Pages(Everything())
      ensures id.Some? ==> pulled == old(pulled) + [id.value]
    {
      while tail == [] && iter != []
        invariant pulled == old(pulled)
        invariant Valid() && Remaining() == old(Remaining()) && Everything() == old(Everything())
        decreases |iter|
      {
        Advance();
      }
      if tail == [] {
        assert taken + window + [] == taken + window && pulled + [] == pulled;
        return None;
      }
      id := Some(tail[0]);
      assert (pulled + [tail[0]]) + tail[1..] == pulled + tail;
      pulled, tail := pulled + [tail[0]], tail[1..];
    }

    method Apply(op: Op) returns (r: Option<Item>)
      requires Valid()
      modifies this`window, this`tail, this`iter, this`taken
      ensures Valid() && (r, Remaining()) == Step(op, old(Remaining())) && Everything() == old(Everything())
      ensures taken == old(taken) + if r.Some? then [r.value] else []
    {
      while window == [] && iter != []
        invariant taken == old(taken)
        invariant Valid() && Remaining() == old(Remaining()) && Everything() == old(Everything())
        decreases |iter|
      {
        Advance();
      }
      assert taken + [] == taken;
      if window == [] || (op.NextIf? && !op.accepts(window[0])) { return None; }
      r := Some(window[0]);
      assert (taken + [window[0]]) + window[1..] == taken + window;
      assert Remaining()[0] == window[0] && Remaining()[1..] == window[1..] + iter;
      taken := taken + [window[0]];
      window := window[1..];
    }

    /** The stream returns the buffers of the pages it pulled, in order, after reading ahead by any amount. */
    method NextBuffer(ahead: nat) returns (id: Option<nat>)
      requires Valid()
      modifies this`window, this`tail, this`iter, this`pulled, this`consumed
      ensures Valid() && Remaining() == old(Remaining()) && Everything() == old(Everything())
      ensures if old(consumed) < |Pages(Everything())|
              then id == Some(Pages(Everything())[old(consumed)]) && consumed == old(consumed) + 1
              else id.None? && consumed == old(consumed)
    {
      var more := true;
      var k := 0;
      while more && (k < ahead || consumed == |pulled|)
        invariant consumed == old(consumed)
        invariant Valid() && Remaining() == old(Remaining()) && Everything() == old(Everything())
        invariant !more ==> pulled == Pages(Everything())
        decreases more, |Pages(Everything())| - |pulled|
      {
        PulledPrefix();
        var page := PopId();
        PulledPrefix();
        more := page.Some?;
        k := k + 1;
      }
      PulledPrefix();
      if consumed == |pulled| { return None; }
      id := Some(pulled[consumed]);
      consumed := consumed + 1;
    }

    /** Whatever the look-ahead, the pages pulled are the first pages of all the items. */
    lemma PulledPrefix()
      requires Valid()
      ensures |pulled| <= |Pages(Everything())| && pulled == Pages(Everything())[..|pulled|]
    {
      PagesPrefix(taken + window, iter);
      assert pulled == Pages(taken + window)[..|pulled|];
    }

    /** Reads `count` buffers: whatever they were meant for, they are the next pages of the concatenated fetch lists. */
    method ReadGuards(count: nat, ahead: nat -> nat) returns (blocks: seq<nat>)
      requires Valid() && consumed + count <= |Pages(Everything())|
      modifies this`window, this`tail, this`iter, this`pulled, this`consumed
      ensures Valid() && Remaining() == old(Remaining()) && Everything() == old(Everything())
      ensures consumed == old(consumed) + count && blocks == Pages(Everything())[old(consumed)..consumed]
    {
      blocks := [];
      ghost var all := Pages(Everything());
      var j := 0;
      while j < count
        invariant 0 <= j <= count && Valid() && Remaining() == old(Remaining()) && Everything() == old(Everything())
        invariant consumed == old(consumed) + j && blocks == all[old(consumed)..consumed]
      {
        var b := NextBuffer(ahead(j));
        blocks := blocks + [b.value];
        j := j + 1;
      }
    }

    /** One operation, of whose item's guards any number is read. */
    method Turn(op: Op, k: nat, ahead: (nat, nat) -> nat, reading: (nat, Item) -> nat)
      returns (r: Option<Item>, blocks: seq<nat>)
      requires Valid() && consumed <= |Pages(taken)|
      modifies this
      ensures Valid() && (r, Remaining()) == Step(op, old(Remaining())) && Everything() == old(Everything())
      ensures taken == old(taken) + (if r.Some? then [r.value] else []) && consumed <= |Pages(taken)|
      ensures |blocks| == Count(r, k, reading) && consumed == old(consumed) + |blocks|
      ensures From(Pages(Everything()), old(consumed), blocks)
    {
      hide Pages;
      r := Apply(op);
      PagesStep(old(taken), r, window + iter);
      assert taken == old(taken) + (if r.Some? then [r.value] else []);
      assert taken + (window + iter) == Everything();
      blocks := ReadGuards(Count(r, k, reading), j => ahead(k, j));
    }

    lemma {:induction false} NothingRead(ops: seq<Op>, reading: (nat, Item) -> nat)
      requires consumed <= |Pages(taken)|
      ensures From(Pages(Everything()), consumed, Joined([])) && Joined([]) == []
      ensures Run(ops[..0], Remaining()) == ([], Remaining()) && Yielded([]) == [] && Chosen([], [], reading)
    {
      PagesPrefix(taken, window + iter);
      assert taken + (window + iter) == Everything();
    }

    /** Any sequence of operations with any look-ahead; of each yielded item's guards, any number is read. */
    method DrivePartly(ops: seq<Op>, ahead: (nat, nat) -> nat, reading: (nat, Item) -> nat)
      returns (outs: seq<Option<Item>>, blocksRead: seq<seq<nat>>)
      requires Valid() && consumed <= |Pages(taken)|
      modifies this
      ensures Valid() && (outs, Remaining()) == Run(ops, old(Remaining())) && Everything() == old(Everything())
      ensures taken == old(taken) + Yielded(outs) && Chosen(outs, blocksRead, reading)
      ensures From(Pages(Everything()), old(consumed), Joined(blocksRead))
      ensures consumed == old(consumed) + |Joined(blocksRead)|
    {
      hide *;
      outs, blocksRead := [], [];
      ghost var all := Pages(Everything());
      NothingRead(ops, reading);
      assert taken + [] == taken;
      for k := 0 to |ops|
        invariant Valid() && (outs, Remaining()) == Run(ops[..k], old(Remaining())) && Everything() == old(Everything())
        invariant taken == old(taken) + Yielded(outs) && consumed <= |Pages(taken)|
        invariant Chosen(outs, blocksRead, reading) && |outs| == k
        invariant From(all, old(consumed), Joined(blocksRead)) && consumed == old(consumed) + |Joined(blocksRead)|
      {
        RunAppend(ops[..k], ops[k], old(Remaining()));
        assert ops[..k + 1] == ops[..k] + [ops[k]];
        var r, blocks := Turn(ops[k], k, ahead, reading);
        ghost var more := if r.Some? then [r.value] else [];
        assert old(taken) + (Yielded(outs) + more) == old(taken) + Yielded(outs) + more;
        YieldedAppend(outs, r);
        JoinedAppend(blocksRead, blocks);
        ChosenAppend(outs, blocksRead, reading, r, blocks);
        FromAppend(all, old(consumed), Joined(blocksRead), blocks);
        outs, blocksRead := outs + [r], blocksRead + [blocks];
      }
      assert ops[..|ops|] == ops;
    }

    /** Any sequence of operations with any look-ahead between them, every guard read to its end. */
    method Drive(ops: seq<Op>, ahead: (nat, nat) -> nat) returns (outs: seq<Option<Item>>, blocksRead: seq<seq<nat>>)
      requires Valid() && Aligned()
      modifies this
      ensures Valid() && Aligned() && (outs, Remaining()) == Run(ops, old(Remaining()))
      ensures |blocksRead| == |outs| && forall k :: 0 <= k < |outs| ==>
                blocksRead[k] == if outs[k].Some? then outs[k].value.pages else []
    {
      outs, blocksRead := DrivePartly(ops, ahead, ToTheEnd);
      ghost var rest := window + iter;
      assert Everything() == old(taken) + (Yielded(outs) + rest);
      hide Pages, Run, Joined, Yielded, Chosen, From;
      PagesConcat(old(taken), Yielded(outs) + rest);
      FromShift(Pages(old(taken)), Pages(Yielded(outs) + rest), Joined(blocksRead));
      AllGuardsOwn(outs, blocksRead, rest);
      PagesConcat(old(taken), Yielded(outs));
    }
  }

  // ---- What guards deliver ----

  /** How many buffers are read of the guards of an output. */
  function Count(r: Option<Item>, k: nat, reading: (nat, Item) -> nat): nat {
    if r.None? then 0 else if reading(k, r.value) <= |r.value.pages| then reading(k, r.value) else |r.value.pages|
  }

  function ToTheEnd(k: nat, e: Item): nat {
    |e.pages|
  }

  ghost predicate Chosen(outs: seq<Option<Item>>, blocksRead: seq<seq<nat>>, reading: (nat, Item) -> nat) {
    |blocksRead| == |outs| && forall k :: 0 <= k < |outs| ==> |blocksRead[k]| == Count(outs[k], k, reading)
  }

  lemma {:induction false} ChosenAppend(outs: seq<Option<Item>>, blocksRead: seq<seq<nat>>, reading: (nat, Item) -> nat,
                                        r: Option<Item>, blocks: seq<nat>)
    requires Chosen(outs, blocksRead, reading) && |blocks| == Count(r, |outs|, reading)
    ensures Chosen(outs + [r], blocksRead + [blocks], reading)
  {
  }

  function Joined(blocks: seq<seq<nat>>): seq<nat> {
    if blocks == [] then [] else Joined(blocks[..|blocks| - 1]) + blocks[|blocks| - 1]
  }

  lemma {:induction false} JoinedAppend(blocks: seq<seq<nat>>, more: seq<nat>)
    ensures Joined(blocks + [more]) == Joined(blocks) + more
  {
    assert (blocks + [more])[..|blocks|] == blocks;
  }

  lemma {:induction false} JoinedAt(blocks: seq<seq<nat>>, k: nat)
    requires k < |blocks|
    ensures var at := |Joined(blocks[..k])|;
            at + |blocks[k]| <= |Joined(blocks)| && Joined(blocks)[at..at + |blocks[k]|] == blocks[k]
    decreases |blocks|
  {
    var n := |blocks| - 1;
    if k == n {
    } else {
      JoinedAt(blocks[..n], k);
      assert blocks[..n][..k] == blocks[..k] && blocks[..n][k] == blocks[k];
      var at, before := |Joined(blocks[..k])|, Joined(blocks[..n]);
      assert (before + blocks[n])[at..at + |blocks[k]|] == before[at..at + |blocks[k]|];
    }
  }

  lemma {:induction false} YieldedAppend(outs: seq<Option<Item>>, r: Option<Item>)
    ensures Yielded(outs + [r]) == Yielded(outs) + if r.Some? then [r.value] else []
    decreases |outs|
  {
    if outs == [] {
      assert outs + [r] == [r] && [r][1..] == [];
    } else {
      assert (outs + [r])[0] == outs[0] && (outs + [r])[1..] == outs[1..] + [r];
      YieldedAppend(outs[1..], r);
    }
  }

  lemma {:induction false} PagesConcat(a: seq<Item>, b: seq<Item>)
    ensures Pages(a + b) == Pages(a) + Pages(b)
    decreases |b|
  {
    if b == [] {
      assert a + b == a;
    } else {
      var n := |b| - 1;
      PagesConcat(a, b[..n]);
      assert a + b == (a + b[..n]) + [b[n]] && b == b[..n] + [b[n]];
      hide Pages;
      PagesAppend(a + b[..n], b[n]);
      PagesAppend(b[..n], b[n]);
    }
  }

  lemma {:induction false} PagesStep(earlier: seq<Item>, r: Option<Item>, rest: seq<Item>)
    ensures var taken := earlier + if r.Some? then [r.value] else [];
            && |Pages(taken)| == |Pages(earlier)| + (if r.Some? then |r.value.pages| else 0)
            && |Pages(taken)| <= |Pages(taken + rest)|
  {
    assert earlier + [] == earlier;
    if r.Some? { PagesAppend(earlier, r.value); }
    PagesPrefix(earlier + if r.Some? then [r.value] else [], rest);
  }

  /** `part` is what `all` holds from `start` on. */
  ghost predicate From(all: seq<nat>, start: nat, part: seq<nat>) {
    start + |part| <= |all| && part == all[start..start + |part|]
  }

  lemma {:induction false} FromAppend(all: seq<nat>, start: nat, part: seq<nat>, more: seq<nat>)
    requires From(all, start, part) && From(all, start + |part|, more)
    ensures From(all, start, part + more)
  {
    var m := start + |part|;
    assert all[start..m] + all[m..m + |more|] == all[start..m + |more|];
  }

  lemma {:induction false} FromShift(before: seq<nat>, all: seq<nat>, part: seq<nat>)
    requires From(before + all, |before|, part)
    ensures From(all, 0, part)
  {
    assert (before + all)[|before|..|before| + |part|] == all[..|part|];
  }

  /** No page is fetched twice. */
  ghost predicate DistinctPages(pages: seq<nat>) {
    forall a, b :: 0 <= a < b < |pages| ==> pages[a] != pages[b]
  }

  /** The guards of every item yielded before output `k` were read to their end. */
  ghost predicate AllRead(outs: seq<Option<Item>>, blocksRead: seq<seq<nat>>, k: nat)
    requires k <= |outs| == |blocksRead|
  {
    forall i :: 0 <= i < k && outs[i].Some? ==> |blocksRead[i]| == |outs[i].value.pages|
  }

  /**
   * What buffer `j` of output `k` holds: the page at the number of buffers read before it. It is the item's own page
   * if, and where no page is fetched twice only if, the guards of all earlier items were read to their end.
   */
  ghost predicate GuardHolds(all: seq<nat>, outs: seq<Option<Item>>, blocksRead: seq<seq<nat>>, k: nat, j: nat)
    requires k < |outs| == |blocksRead| && outs[k].Some? && j < |blocksRead[k]| <= |outs[k].value.pages|
  {
    var at, own := |Joined(blocksRead[..k])|, outs[k].value.pages[j];
    && at + j < |all|
    && blocksRead[k][j] == all[at + j]
    && (AllRead(outs, blocksRead, k) ==> blocksRead[k][j] == own)
    && (DistinctPages(all) && blocksRead[k][j] == own ==> AllRead(outs, blocksRead, k))
  }

  ghost predicate GuardsHold(all: seq<nat>, outs: seq<Option<Item>>, blocksRead: seq<seq<nat>>)
    requires |outs| == |blocksRead|
  {
    forall k, j :: 0 <= k < |outs| && outs[k].Some? && 0 <= j < |blocksRead[k]| ==>
      |blocksRead[k]| <= |outs[k].value.pages| && GuardHolds(all, outs, blocksRead, k, j)
  }

  // Buffers are never read past the pages of the items yielded.
  lemma {:induction false} NeverAhead(outs: seq<Option<Item>>, blocksRead: seq<seq<nat>>, reading: (nat, Item) -> nat,
                                      k: nat)
    requires Chosen(outs, blocksRead, reading) && k <= |outs|
    ensures |Joined(blocksRead[..k])| <= |Pages(Yielded(outs[..k]))|
    ensures |Joined(blocksRead[..k])| == |Pages(Yielded(outs[..k]))| <==> AllRead(outs, blocksRead, k)
    decreases k
  {
    if k == 0 {
    } else {
      var r, blocks := outs[k - 1], blocksRead[k - 1];
      assert outs[..k] == outs[..k - 1] + [r] && blocksRead[..k] == blocksRead[..k - 1] + [blocks];
      hide Joined, Pages, Yielded;
      NeverAhead(outs, blocksRead, reading, k - 1);
      YieldedAppend(outs[..k - 1], r);
      JoinedAppend(blocksRead[..k - 1], blocks);
      PagesStep(Yielded(outs[..k - 1]), r, []);
      assert Count(r, k - 1, reading) == |blocks|;
    }
  }

  /** Where a yielded item's own pages are among all pages. */
  lemma {:induction false} OwnPages(outs: seq<Option<Item>>, rest: seq<Item>, k: nat, j: nat)
    requires k < |outs| && outs[k].Some? && j < |outs[k].value.pages|
    ensures var all, at := Pages(Yielded(outs) + rest), |Pages(Yielded(outs[..k]))|;
            at + j < |all| && all[at + j] == outs[k].value.pages[j]
  {
    var e, p := outs[k].value, Yielded(outs[..k]);
    assert outs[..k + 1] == outs[..k] + [outs[k]];
    YieldedAppend(outs[..k], outs[k]);
    var more := YieldedPrefix(outs, k + 1);
    assert Yielded(outs) + rest == (p + [e]) + (more + rest);
    hide Pages, Yielded;
    PagesAppend(p, e);
    PagesConcat(p + [e], more + rest);
  }

  lemma {:induction false} YieldedPrefix(outs: seq<Option<Item>>, k: nat) returns (more: seq<Item>)
    requires k <= |outs|
    ensures Yielded(outs) == Yielded(outs[..k]) + more
    decreases |outs| - k
  {
    if k == |outs| {
      assert outs[..k] == outs;
      more := [];
    } else {
      more := YieldedPrefix(outs, k + 1);
      assert outs[..k + 1] == outs[..k] + [outs[k]];
      YieldedAppend(outs[..k], outs[k]);
      more := (if outs[k].Some? then [outs[k].value] else []) + more;
    }
  }

  lemma {:induction false} GuardOf(outs: seq<Option<Item>>, blocksRead: seq<seq<nat>>, reading: (nat, Item) -> nat,
                                   rest: seq<Item>, k: nat, j: nat)
    requires Chosen(outs, blocksRead, reading) && k < |outs| && outs[k].Some? && j < |blocksRead[k]|
    requires From(Pages(Yielded(outs) + rest), 0, Joined(blocksRead))
    ensures |blocksRead[k]| <= |outs[k].value.pages|
    ensures GuardHolds(Pages(Yielded(outs) + rest), outs, blocksRead, k, j)
  {
    var at := |Joined(blocksRead[..k])|;
    assert |blocksRead[k]| == Count(outs[k], k, reading);
    hide Joined, Pages, Yielded, Chosen;
    JoinedAt(blocksRead, k);
    assert blocksRead[k][j] == Joined(blocksRead)[at..at + |blocksRead[k]|][j] == Joined(blocksRead)[at + j];
    NeverAhead(outs, blocksRead, reading, k);
    OwnPages(outs, rest, k, j);
  }

  lemma {:induction false} AllGuards(outs: seq<Option<Item>>, blocksRead: seq<seq<nat>>, reading: (nat, Item) -> nat,
                                     rest: seq<Item>)
    requires Chosen(outs, blocksRead, reading) && From(Pages(Yielded(outs) + rest), 0, Joined(blocksRead))
    ensures GuardsHold(Pages(Yielded(outs) + rest), outs, blocksRead)
  {
    hide GuardHolds, From, Joined, Pages, Yielded;
    forall k, j | 0 <= k < |outs| && outs[k].Some? && 0 <= j < |blocksRead[k]|
      ensures |blocksRead[k]| <= |outs[k].value.pages|
      ensures GuardHolds(Pages(Yielded(outs) + rest), outs, blocksRead, k, j)
    {
      GuardOf(outs, blocksRead, reading, rest, k, j);
    }
  }

  // When every guard is read to its end, every guard is its item's.
  lemma {:induction false} AllGuardsOwn(outs: seq<Option<Item>>, blocksRead: seq<seq<nat>>, rest: seq<Item>)
    requires Chosen(outs, blocksRead, ToTheEnd) && From(Pages(Yielded(outs) + rest), 0, Joined(blocksRead))
    ensures |blocksRead| == |outs| && forall k :: 0 <= k < |outs| ==>
              blocksRead[k] == if outs[k].Some? then outs[k].value.pages else []
    ensures |Joined(blocksRead)| == |Pages(Yielded(outs))|
  {
    assert AllRead(outs, blocksRead, |outs|) by {
      forall i | 0 <= i < |outs| ensures outs[i].Some? ==> |blocksRead[i]| == |outs[i].value.pages| {
        assert Count(outs[i], i, ToTheEnd) == |blocksRead[i]|;
      }
    }
    hide Joined, Pages, Yielded, From;
    forall k | 0 <= k < |outs| ensures blocksRead[k] == if outs[k].Some? then outs[k].value.pages else [] {
      assert Count(outs[k], k, ToTheEnd) == |blocksRead[k]|;
      if outs[k].Some? {
        forall j | 0 <= j < |blocksRead[k]| ensures blocksRead[k][j] == outs[k].value.pages[j] {
          GuardOf(outs, blocksRead, ToTheEnd, rest, k, j);
        }
      }
    }
    NeverAhead(outs, blocksRead, ToTheEnd, |outs|);
    assert outs[..|outs|] == outs && blocksRead[..|outs|] == blocksRead;
  }

  /**
   * A stream over any items, any operations, any look-ahead, any number of guards read: every buffer is the page at the
   * number of buffers read before it, and, where no page is fetched twice, it is the item's own page if and only if all
   * earlier guards were read to their end.
   */
  method ReadPartly(items: seq<Item>, ops: seq<Op>, ahead: (nat, nat) -> nat, reading: (nat, Item) -> nat)
    returns (outs: seq<Option<Item>>, blocksRead: seq<seq<nat>>)
    ensures outs == Run(ops, items).0 && Chosen(outs, blocksRead, reading)
    ensures |blocksRead| == |outs| && GuardsHold(Pages(items), outs, blocksRead)
  {
    hide Pages, Joined, Yielded, GuardsHold, Run;
    var stream := new ReadStream(items);
    assert stream.consumed == 0;
    outs, blocksRead := stream.DrivePartly(ops, ahead, reading);
    ghost var rest := stream.window + stream.iter;
    assert Yielded(outs) + rest == items;
    AllGuards(outs, blocksRead, reading, rest);
  }

  /** For every interleaving of operations, the three prefetchers yield the same items and keep the same rest. */
  method SameForEveryone(ops: seq<Op>, items: seq<Item>, ahead: (nat, nat) -> nat)
    returns (plain: (seq<Option<Item>>, seq<Item>), simple: (seq<Option<Item>>, seq<Item>),
             stream: (seq<Option<Item>>, seq<Item>))
    ensures plain == simple == stream == Run(ops, items)
  {
    hide Run;
    var a := new PlainPrefetcher(items);
    var outs := a.Drive(ops);
    plain := (outs, a.sequence);
    var b := new SimplePrefetcher(items);
    outs := b.Drive(ops);
    simple := (outs, b.window + b.sequence);
    var c := new ReadStream(items);
    var blocksRead;
    outs, blocksRead := c.Drive(ops, ahead);
    stream := (outs, c.window + c.iter);
  }

  /** Guards that are dropped unread leave their page to the next item's guards. */
  method DroppedGuardsMisread(first: nat, second: nat) returns (item: Item, block: nat)
    requires first != second
    ensures item.pages == [second] && block == first
  {
    hide Pages, Step;
    var a, b := Item(0, [first]), Item(1, [second]);
    TwoItems(a, b);
    var stream := new ReadStream([a, b]);
    var r := stream.Apply(Next);
    r := stream.Apply(Next);
    item := r.value;
    var buffer := stream.NextBuffer(0);
    block := buffer.value;
  }

  lemma {:induction false} TwoItems(a: Item, b: Item)
    requires |a.pages| == 1
    ensures Step(Next, [a, b]) == (Some(a), [b]) && Step(Next, [b]) == (Some(b), [])
    ensures Pages([]) == [] && |Pages([a, b])| >= 1 && Pages([a, b])[0] == a.pages[0]
  {
    assert [a, b][1..] == [b] && [b][1..] == [];
    PagesAppend([a], b);
    PagesAppend([], a);
    assert [a] + [b] == [a, b] && [] + [a] == [a];
  }
}
