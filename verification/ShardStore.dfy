/** The whole life of a generation: adding tensors, publishing, parsing the index and reading the tensors back. */
module ShardStore {
  import opened Shards
  import opened ShardIndex
  import opened ShardRoundTrip
  import opened ShardReads
  import opened ShardLayout

  // ---- The items of a shard ----

  function ItemsOf(entries: seq<Entry>, shard: string): seq<Item> {
    if entries == [] then [] else
      var n := |entries| - 1;
      ItemsOf(entries[..n], shard) + if entries[n].shard == shard then [Item(entries[n].digest, entries[n])] else []
  }

  lemma {:induction false} ItemFrom(entries: seq<Entry>, shard: string, k: nat) returns (i: nat)
    requires k < |ItemsOf(entries, shard)|
    ensures i < |entries| && entries[i].shard == shard
    ensures ItemsOf(entries, shard)[k] == Item(entries[i].digest, entries[i])
    decreases |entries|
  {
    var n := |entries| - 1;
    if k < |ItemsOf(entries[..n], shard)| {
      i := ItemFrom(entries[..n], shard, k);
    } else {
      i := n;
    }
  }

  lemma {:induction false} ItemFor(entries: seq<Entry>, shard: string, i: nat) returns (k: nat)
    requires i < |entries| && entries[i].shard == shard
    ensures k < |ItemsOf(entries, shard)| && ItemsOf(entries, shard)[k] == Item(entries[i].digest, entries[i])
    decreases |entries|
  {
    var n := |entries| - 1;
    if i < n {
      k := ItemFor(entries[..n], shard, i);
    } else {
      k := |ItemsOf(entries[..n], shard)|;
    }
  }

  ghost predicate DistinctDigests(entries: seq<Entry>) {
    forall a, b :: 0 <= a < b < |entries| ==> entries[a].digest != entries[b].digest
  }

  lemma {:induction false} ItemsDistinct(entries: seq<Entry>, shard: string)
    requires DistinctDigests(entries)
    ensures DistinctKeys(ItemsOf(entries, shard))
    decreases |entries|
  {
    if entries == [] {
    } else {
      var n := |entries| - 1;
      var before, items := ItemsOf(entries[..n], shard), ItemsOf(entries, shard);
      assert items == before + if entries[n].shard == shard then [Item(entries[n].digest, entries[n])] else [];
      ItemsDistinct(entries[..n], shard);
      forall k | 0 <= k < |before| ensures before[k].key != entries[n].digest {
        var i := ItemFrom(entries[..n], shard, k);
        assert entries[..n][i] == entries[i];
      }
      hide ItemsOf;
    }
  }

  /** The items are usable and disjoint in an accepted document. */
  lemma {:induction false} ItemsReady(d: Document, shard: string)
    requires WellFormed(d)
    ensures DistinctDigests(d.entries)
    ensures var items := ItemsOf(d.entries, shard); Usable(items) && DistinctKeys(items) && Disjoint(items)
  {
    assert DistinctDigests(d.entries);
    var items := ItemsOf(d.entries, shard);
    ItemsDistinct(d.entries, shard);
    forall k | 0 <= k < |items|
      ensures items[k].entry in d.entries && items[k].entry.shard == shard && items[k].key == items[k].entry.digest
    {
      hide WellFormed;
      var i := ItemFrom(d.entries, shard, k);
    }
    hide ItemsOf, WellFormed;
    assert forall a, b :: 0 <= a < b < |items| ==> items[a].key != items[b].key;
    AcceptedDisjoint(items, d, shard);
  }

  // ---- Reading a generation ----

  datatype Outcome =
    | Loaded(payloads: map<string, seq<Byte>>)
    | NotAdded(added: Shards.Outcome)
    | NotPublished(finished: Finished)
    | NotAccepted
    | NotRead(read: Read)

  /** The entry's file is there, and its range passes the reader's checks. */
  ghost predicate SoundIn(e: Entry, files: map<string, seq<Byte>>, checks: Checks) {
    e.shard in files && Sound(e, files[e.shard], checks)
  }

  ghost predicate AllSoundIn(entries: seq<Entry>, files: map<string, seq<Byte>>, checks: Checks) {
    forall i :: 0 <= i < |entries| ==> SoundIn(entries[i], files, checks)
  }

  /** The entry's range of its file is delivered under its digest. */
  ghost predicate DeliveredOne(payloads: map<string, seq<Byte>>, e: Entry, files: map<string, seq<Byte>>) {
    && e.shard in files && Inside(e, files[e.shard])
    && e.digest in payloads && payloads[e.digest] == BytesOf(e, files[e.shard])
  }

  /** The ranges of the entries of the shards in `names` are delivered, and nothing else. */
  ghost predicate Delivered(payloads: map<string, seq<Byte>>, entries: seq<Entry>, files: map<string, seq<Byte>>,
                            names: set<string>) {
    && (forall i :: 0 <= i < |entries| && entries[i].shard in names ==> DeliveredOne(payloads, entries[i], files))
    && forall key :: key in payloads ==>
      exists i :: 0 <= i < |entries| && entries[i].shard in names && entries[i].digest == key
  }

  ghost predicate SoundUnder(entries: seq<Entry>, files: map<string, seq<Byte>>, checks: Checks, names: set<string>) {
    forall i :: 0 <= i < |entries| && entries[i].shard in names ==> SoundIn(entries[i], files, checks)
  }

  // The items of a shard are its entries.
  lemma {:induction false} ShardSound(entries: seq<Entry>, files: map<string, seq<Byte>>, checks: Checks, shard: string)
    requires shard in files
    ensures AllSound(ItemsOf(entries, shard), files[shard], checks) <==> SoundUnder(entries, files, checks, {shard})
  {
    var items := ItemsOf(entries, shard);
    hide ItemsOf, Sound;
    if SoundUnder(entries, files, checks, {shard}) {
      forall k | 0 <= k < |items| ensures Sound(items[k].entry, files[shard], checks) {
        var i := ItemFrom(entries, shard, k);
        assert SoundIn(entries[i], files, checks);
      }
    }
    if AllSound(items, files[shard], checks) {
      forall i | 0 <= i < |entries| && entries[i].shard == shard ensures SoundIn(entries[i], files, checks) {
        var k := ItemFor(entries, shard, i);
        assert Sound(items[k].entry, files[shard], checks);
      }
    }
  }

  lemma {:induction false} DeliveredNext(payloads: map<string, seq<Byte>>, more: map<string, seq<Byte>>,
                                         entries: seq<Entry>, names: set<string>, files: map<string, seq<Byte>>,
                                         shard: string)
    requires Delivered(payloads, entries, files, names) && shard in files
    requires DistinctDigests(entries) && Serves(more, ItemsOf(entries, shard), files[shard])
    ensures Delivered(payloads + more, entries, files, names + {shard})
  {
    var items := ItemsOf(entries, shard);
    forall i | 0 <= i < |entries| && entries[i].shard == shard ensures DeliveredOne(more, entries[i], files) {
      var k := ItemFor(entries, shard, i);
      assert ServesOne(more, items[k], files[shard]);
    }
    forall key | key in more
      ensures exists i :: 0 <= i < |entries| && entries[i].shard == shard && entries[i].digest == key
    {
      var k :| 0 <= k < |items| && items[k].key == key;
      var i := ItemFrom(entries, shard, k);
      assert entries[i].digest == key;
    }
    hide ItemsOf, Serves, Inside, BytesOf;
    forall i | 0 <= i < |entries| && entries[i].shard in names + {shard}
      ensures DeliveredOne(payloads + more, entries[i], files)
    {
      if entries[i].digest in more {
        var j :| 0 <= j < |entries| && entries[j].shard == shard && entries[j].digest == entries[i].digest;
        assert i == j;
      }
    }
    forall key | key in payloads + more
      ensures exists i :: 0 <= i < |entries| && entries[i].shard in names + {shard} && entries[i].digest == key
    {
      if key in more {
        var i :| 0 <= i < |entries| && entries[i].shard == shard && entries[i].digest == key;
        assert entries[i].shard in names + {shard};
      } else {
        var i :| 0 <= i < |entries| && entries[i].shard in names && entries[i].digest == key;
        assert entries[i].shard in names + {shard};
      }
    }
  }

  ghost function NamesOf(files: seq<File>): set<string> {
    set k | 0 <= k < |files| :: files[k].name
  }

  lemma {:induction false} NamesNext(files: seq<File>, k: nat)
    requires k < |files|
    ensures NamesOf(files[..k + 1]) == NamesOf(files[..k]) + {files[k].name}
  {
    var p, q := files[..k], files[..k + 1];
    assert q == p + [files[k]];
    assert forall j :: 0 <= j < k ==> q[j] == p[j];
    forall name ensures name in NamesOf(q) <==> name in NamesOf(p) + {files[k].name} {
      if name in NamesOf(p) {
        var j :| 0 <= j < |p| && p[j].name == name;
        assert q[j].name == name;
      }
      if name == files[k].name { assert q[k].name == name; }
    }
  }

  // Every entry of an accepted document is in one of its shards.
  lemma {:induction false} ShardsNamed(d: Document)
    requires WellFormed(d)
    ensures forall i :: 0 <= i < |d.entries| ==> d.entries[i].shard in NamesOf(d.shards)
  {
    forall i | 0 <= i < |d.entries| ensures d.entries[i].shard in NamesOf(d.shards) {
      assert EntryOk(d.entries[i], d.alignment, FilesByName(d.shards));
      FilesByNameKeys(d.shards, d.entries[i].shard);
    }
  }

  lemma {:induction false} NothingDelivered(entries: seq<Entry>, files: map<string, seq<Byte>>, checks: Checks,
                                            shards: seq<File>)
    ensures Delivered(map[], entries, files, NamesOf(shards[..0]))
    ensures SoundUnder(entries, files, checks, NamesOf(shards[..0]))
  {
  }

  lemma {:induction false} SoundParts(entries: seq<Entry>, files: map<string, seq<Byte>>, checks: Checks,
                                      names: set<string>, shard: string)
    ensures SoundUnder(entries, files, checks, names + {shard}) <==>
            SoundUnder(entries, files, checks, names) && SoundUnder(entries, files, checks, {shard})
    ensures AllSoundIn(entries, files, checks) ==> SoundUnder(entries, files, checks, {shard})
  {
    hide SoundIn;
  }

  lemma {:induction false} SoundEverywhere(entries: seq<Entry>, files: map<string, seq<Byte>>, checks: Checks,
                                           names: set<string>)
    requires forall i :: 0 <= i < |entries| ==> entries[i].shard in names
    ensures SoundUnder(entries, files, checks, names) <==> AllSoundIn(entries, files, checks)
  {
    hide SoundIn;
  }

  /**
   * Reads every tensor of an accepted document, shard by shard: it succeeds if and only if every entry's range passes
   * the checks, and then delivers exactly the ranges, each under its digest.
   */
  method ReadGeneration(d: Document, files: map<string, seq<Byte>>, checks: Checks, gap: int, span: int)
      returns (r: Outcome)
    requires WellFormed(d) && forall k :: 0 <= k < |d.shards| ==> d.shards[k].name in files
    ensures r.Loaded? || r.NotRead?
    ensures r.Loaded? <==> AllSoundIn(d.entries, files, checks)
    ensures r.Loaded? ==> Delivered(r.payloads, d.entries, files, NamesOf(d.shards))
  {
    var payloads: map<string, seq<Byte>> := map[];
    NothingDelivered(d.entries, files, checks, d.shards);
    hide *;
    for k := 0 to |d.shards|
      invariant Delivered(payloads, d.entries, files, NamesOf(d.shards[..k]))
      invariant SoundUnder(d.entries, files, checks, NamesOf(d.shards[..k]))
    {
      var name := d.shards[k].name;
      ItemsReady(d, name);
      ShardSound(d.entries, files, checks, name);
      SoundParts(d.entries, files, checks, NamesOf(d.shards[..k]), name);
      var out, runs := ReadShard(files[name], ItemsOf(d.entries, name), checks, gap, span);
      if !out.Payloads? { return NotRead(out); }
      NamesNext(d.shards, k);
      DeliveredNext(payloads, out.payloads, d.entries, NamesOf(d.shards[..k]), files, name);
      payloads := payloads + out.payloads;
    }
    assert d.shards[..|d.shards|] == d.shards;
    ShardsNamed(d);
    SoundEverywhere(d.entries, files, checks, NamesOf(d.shards));
    r := Loaded(payloads);
  }

  // ---- Storing and loading ----

  /** Exactly the tensors' payloads, each under its digest. */
  ghost predicate Contents(payloads: map<string, seq<Byte>>, ts: seq<Tensor>) {
    && (forall i :: 0 <= i < |ts| ==> ts[i].digest in payloads && payloads[ts[i].digest] == ts[i].payload)
    && forall key :: key in payloads ==> Carries(ts, key)
  }

  /** Every tensor passes the reader's checks: its digest is its hash and its numbers are finite. */
  ghost predicate Passing(entries: seq<Entry>, ts: seq<Tensor>, checks: Checks) {
    |entries| == |ts| && forall i :: 0 <= i < |entries| ==> checks.Pass(entries[i], ts[i].payload)
  }

  ghost predicate AllIntact(groups: seq<seq<Tensor>>, files: map<string, seq<Byte>>, alignment: nat,
                            hash: seq<Byte> -> string)
    requires alignment > 0
  {
    forall g :: 0 <= g < |groups| ==> Intact(groups[g], files, alignment, hash)
  }

  /** Each entry's range of its file is its tensor's payload. */
  ghost predicate Holding(entries: seq<Entry>, ts: seq<Tensor>, files: map<string, seq<Byte>>) {
    |entries| == |ts| && forall i :: 0 <= i < |entries| ==> HoldingAt(entries[i], ts[i], files)
  }

  ghost predicate HoldingAt(e: Entry, t: Tensor, files: map<string, seq<Byte>>) {
    && e.digest == t.digest && e.shard in files
    && Inside(e, files[e.shard]) && BytesOf(e, files[e.shard]) == t.payload
  }

  lemma {:induction false} WrittenHolds(groups: seq<seq<Tensor>>, files: map<string, seq<Byte>>, target: nat,
                                        alignment: nat, hash: seq<Byte> -> string)
    requires alignment > 0 && Laid(groups, [], target, alignment) && AllIntact(groups, files, alignment, hash)
    ensures Holding(EntriesOf(groups, alignment, hash), Flat(groups), files)
  {
    var entries, ts := EntriesOf(groups, alignment, hash), Flat(groups);
    SameCount(groups, alignment, hash);
    hide EntriesOf, Flat, Intact, Laid;
    forall i | 0 <= i < |entries| ensures HoldingAt(entries[i], ts[i], files) {
      WrittenBytes(groups, files, target, alignment, hash, i);
    }
  }

  // Where the ranges are the payloads, the checks decide, and what is delivered is the payloads.
  lemma {:induction false} HoldingDecides(entries: seq<Entry>, ts: seq<Tensor>, files: map<string, seq<Byte>>,
                                          checks: Checks)
    requires Holding(entries, ts, files)
    ensures AllSoundIn(entries, files, checks) <==> Passing(entries, ts, checks)
  {
    forall i | 0 <= i < |entries| ensures SoundIn(entries[i], files, checks) <==> checks.Pass(entries[i], ts[i].payload)
    {
      assert HoldingAt(entries[i], ts[i], files);
    }
    hide SoundIn, Checks.Pass;
  }

  lemma {:induction false} HoldingDelivers(payloads: map<string, seq<Byte>>, entries: seq<Entry>, ts: seq<Tensor>,
                                           files: map<string, seq<Byte>>, names: set<string>)
    requires Holding(entries, ts, files) && Delivered(payloads, entries, files, names)
    requires forall i :: 0 <= i < |entries| ==> entries[i].shard in names
    ensures Contents(payloads, ts)
  {
    forall i | 0 <= i < |ts| ensures ts[i].digest in payloads && payloads[ts[i].digest] == ts[i].payload {
      assert HoldingAt(entries[i], ts[i], files) && DeliveredOne(payloads, entries[i], files);
    }
    hide DeliveredOne;
    forall key | key in payloads ensures Carries(ts, key) {
      var i :| 0 <= i < |entries| && entries[i].digest == key;
      assert HoldingAt(entries[i], ts[i], files);
      assert ts[i] in ts;
    }
  }

  lemma {:induction false} ShardsFiled(groups: seq<seq<Tensor>>, files: map<string, seq<Byte>>, alignment: nat,
                                       hash: seq<Byte> -> string)
    requires alignment > 0 && Stored(groups, files, alignment, hash)
    ensures forall g :: 0 <= g < |groups| ==> FileOf(groups[g], alignment, hash).name in files
    ensures var shards := FilesOf(groups, alignment, hash);
            forall k :: 0 <= k < |shards| ==> shards[k].name in files
  {
    forall k | 0 <= k < |groups| ensures FileOf(groups[k], alignment, hash).name in files {
      assert StoredAt(groups[k], files, alignment, hash);
      hide FileOf, Bytes;
    }
    hide FileOf, StoredAt;
  }

  lemma {:induction false} AddableThere(ts: seq<Tensor>, k: nat)
    requires k < |ts| && Addable(ts)
    ensures AddableAt(ts, k)
  {
  }

  lemma {:induction false} AllAddable(ts: seq<Tensor>)
    requires forall j :: 0 <= j < |ts| ==> AddableAt(ts, j)
    ensures Addable(ts)
  {
  }

  /** Every shard that is full before the last tensor is added can be filed. */
  ghost predicate Unhindered(writer: ShardWriter, ts: seq<Tensor>, directory: map<string, seq<Byte>>)
    requires writer.alignment > 0
  {
    Smooth(Grouped(Kept(ts), writer.target, writer.alignment).0, directory, writer.alignment, writer.hash)
  }

  /** The writer's state after the tensors: its shards are laid out and filed, none in the way. */
  ghost predicate Progressed(writer: ShardWriter, ts: seq<Tensor>, directory: map<string, seq<Byte>>)
    reads writer
  {
    && writer.alignment > 0
    && (writer.closed, writer.open) == Grouped(Kept(ts), writer.target, writer.alignment)
    && writer.files == FiledAll(writer.closed, directory, writer.alignment, writer.hash)
    && Smooth(writer.closed, directory, writer.alignment, writer.hash)
  }

  lemma {:induction false} IsProgressed(writer: ShardWriter, ts: seq<Tensor>, directory: map<string, seq<Byte>>)
    requires Progressed(writer, ts, directory)
    ensures writer.alignment > 0
    ensures (writer.closed, writer.open) == Grouped(Kept(ts), writer.target, writer.alignment)
    ensures writer.files == FiledAll(writer.closed, directory, writer.alignment, writer.hash)
    ensures Unhindered(writer, ts, directory)
  {
  }

  lemma {:induction false} HinderedIs(writer: ShardWriter, ts: seq<Tensor>, directory: map<string, seq<Byte>>)
    requires writer.alignment > 0
    ensures Unhindered(writer, ts, directory) <==>
            Smooth(Grouped(Kept(ts), writer.target, writer.alignment).0, directory, writer.alignment, writer.hash)
  {
  }

  lemma {:induction false} ValidFacts(writer: ShardWriter)
    requires writer.Valid()
    ensures writer.alignment > 0 && Laid(writer.closed, writer.open, writer.target, writer.alignment)
    ensures Stored(writer.closed, writer.files, writer.alignment, writer.hash)
  {
  }

  lemma {:induction false} NothingYet(writer: ShardWriter, ts: seq<Tensor>)
    requires writer.alignment > 0 && writer.closed == [] && writer.open == []
    ensures Progressed(writer, ts[..0], writer.files)
  {
  }

  lemma {:induction false} IsKept(writer: ShardWriter, ts: seq<Tensor>, k: nat, directory: map<string, seq<Byte>>)
    requires k <= |ts| && Progressed(writer, ts[..k], directory)
    ensures Flat(writer.closed) + writer.open == Kept(ts[..k])
  {
    GroupedFlat(Kept(ts[..k]), writer.target, writer.alignment);
  }

  // The shard that could not be filed is one of the run's.
  lemma {:induction false} RunBlocked(writer: ShardWriter, ts: seq<Tensor>, k: nat, directory: map<string, seq<Byte>>)
    requires k < |ts| && Progressed(writer, ts[..k], directory) && !Carries(Kept(ts[..k]), ts[k].digest)
    requires Full(writer.open, ts[k], writer.target, writer.alignment)
    requires Conflicts(writer.open, writer.files, writer.alignment, writer.hash)
    ensures !Unhindered(writer, ts, directory)
  {
    hide Full, Conflicts, Carries, Grouped, FiledAll, Smooth;
    KeptNext(ts, k);
    GroupedNext(Kept(ts[..k]), ts[k], writer.target, writer.alignment);
    GroupedPrefix(ts, k + 1, writer.target, writer.alignment);
    var all := Grouped(Kept(ts), writer.target, writer.alignment).0;
    FiledNext(writer.closed, writer.open, directory, writer.alignment, writer.hash);
    if Smooth(all, directory, writer.alignment, writer.hash) {
      SmoothPrefix(writer.closed + [writer.open], all, directory, writer.alignment, writer.hash);
    }
  }

  /** Adds one tensor: nothing goes wrong if and only if it may be added and its full shard can be filed. */
  method AddNext(writer: ShardWriter, ts: seq<Tensor>, k: nat, ghost directory: map<string, seq<Byte>>)
      returns (added: Shards.Outcome)
    requires writer.Valid() && k < |ts| && Progressed(writer, ts[..k], directory)
    modifies writer
    ensures writer.Valid() && (added == Done ==> Progressed(writer, ts[..k + 1], directory) && AddableAt(ts, k))
    ensures added != Done ==>
              !AddableAt(ts, k) || !Unhindered(writer, ts, directory)
    ensures added != Done ==> Progressed(writer, ts[..k], directory)
  {
    hide Full, Conflicts, Carries, Grouped, FiledAll, Smooth, Kept, Flat, Filed, Proper, Digest, ShardWriter.Valid;
    KeptNext(ts, k);
    IsKept(writer, ts, k, directory);
    ghost var closed, open := writer.closed, writer.open;
    GroupedNext(Kept(ts[..k]), ts[k], writer.target, writer.alignment);
    FiledNext(closed, open, directory, writer.alignment, writer.hash);
    if Full(open, ts[k], writer.target, writer.alignment) && !Carries(Kept(ts[..k]), ts[k].digest)
       && Conflicts(open, writer.files, writer.alignment, writer.hash) {
      RunBlocked(writer, ts, k, directory);
    }
    assert closed + [open] != closed;
    added := writer.Add(ts[k]);
  }

  /** Adds the tensors one after the other, up to the first failure. */
  method AddAll(writer: ShardWriter, ts: seq<Tensor>, ghost directory: map<string, seq<Byte>>)
      returns (added: Shards.Outcome)
    requires writer.Valid() && writer.closed == [] && writer.open == [] && writer.files == directory
    modifies writer
    ensures writer.Valid() && writer.alignment > 0
    ensures added == Done <==> Addable(ts) && Unhindered(writer, ts, directory)
    ensures added == Done ==> Progressed(writer, ts, directory)
    ensures FiledSome(Grouped(Kept(ts), writer.target, writer.alignment).0, directory, writer.files, writer.alignment,
                      writer.hash)
  {
    hide *;
    ValidFacts(writer);
    NothingYet(writer, ts);
    for k := 0 to |ts|
      invariant writer.Valid() && Progressed(writer, ts[..k], directory)
      invariant forall j :: 0 <= j < k ==> AddableAt(ts, j)
    {
      added := AddNext(writer, ts, k, directory);
      if added != Done {
        SomeFiled(writer, ts, k, directory);
        if Addable(ts) { AddableThere(ts, k); }
        return;
      }
    }
    assert ts[..|ts|] == ts;
    SomeFiled(writer, ts, |ts|, directory);
    IsProgressed(writer, ts, directory);
    AllAddable(ts);
    added := Done;
  }

  /** The directory with the first few of the shards in it. */
  ghost predicate FiledSome(groups: seq<seq<Tensor>>, directory: map<string, seq<Byte>>, files: map<string, seq<Byte>>,
                            alignment: nat, hash: seq<Byte> -> string)
    requires alignment > 0
  {
    exists some :: some <= groups && files == FiledAll(some, directory, alignment, hash)
  }

  lemma {:induction false} SomeFiled(writer: ShardWriter, ts: seq<Tensor>, k: nat, directory: map<string, seq<Byte>>)
    requires k <= |ts| && Progressed(writer, ts[..k], directory)
    ensures FiledSome(Grouped(Kept(ts), writer.target, writer.alignment).0, directory, writer.files, writer.alignment,
                      writer.hash)
  {
    hide Grouped, FiledAll, Kept;
    GroupedPrefix(ts, k, writer.target, writer.alignment);
  }

  /** Adds all tensors and publishes: what becomes of it is decided by the tensors and the directory. */
  method Publish(ts: seq<Tensor>, directory: map<string, seq<Byte>>, target: nat, alignment: nat,
                 hash: seq<Byte> -> string)
    returns (added: Shards.Outcome, finished: Finished, files: map<string, seq<Byte>>)
    requires PowerOfTwo(alignment) && alignment <= target
    ensures alignment > 0
    ensures var groups := ShardsOf(ts, target, alignment);
            && (added == Done && finished.Published? <==>
                  Addable(ts) && ts != [] && !Blocked(groups, directory, alignment, hash))
            && (added == Done && finished.Published? ==>
                  && finished.document == DocumentOf(groups, alignment, hash)
                  && files == FiledAll(groups, directory, alignment, hash)
                  && Laid(groups, [], target, alignment) && Stored(groups, files, alignment, hash))
            && FiledSome(groups, directory, files, alignment, hash)
    ensures added == Done && finished.NothingToPublish? <==> ts == []
  {
    var writer := new ShardWriter(directory, target, alignment, hash);
    ValidFacts(writer);
    hide *;
    added := AddAll(writer, ts, directory);
    ghost var groups := ShardsOf(ts, target, alignment);
    ghost var laid := Grouped(Kept(ts), target, alignment);
    RunEnds(ts, directory, target, alignment, hash);
    assert Unhindered(writer, ts, directory) <==> Smooth(laid.0, directory, alignment, hash) by {
      HinderedIs(writer, ts, directory);
    }
    SmoothUnlessBlocked(groups, directory, alignment, hash);
    finished, files := NothingToPublish, writer.files;
    MoreFiled(laid.0, groups, directory, files, alignment, hash);
    if added != Done {
      return;
    }
    IsProgressed(writer, ts, directory);
    finished := writer.Finish();
    files := writer.files;
    ValidFacts(writer);
    if finished.Published? { SomeAll(groups, directory, alignment, hash); }
  }

  lemma {:induction false} MoreFiled(some: seq<seq<Tensor>>, groups: seq<seq<Tensor>>,
                                     directory: map<string, seq<Byte>>, files: map<string, seq<Byte>>, alignment: nat,
                                     hash: seq<Byte> -> string)
    requires alignment > 0 && some <= groups && FiledSome(some, directory, files, alignment, hash)
    ensures FiledSome(groups, directory, files, alignment, hash)
  {
    hide FiledAll;
  }

  lemma {:induction false} SomeAll(groups: seq<seq<Tensor>>, directory: map<string, seq<Byte>>, alignment: nat,
                                   hash: seq<Byte> -> string)
    requires alignment > 0
    ensures FiledSome(groups, directory, FiledAll(groups, directory, alignment, hash), alignment, hash)
  {
    hide FiledAll;
    assert groups <= groups;
  }

  // Parses the published index and reads everything back.
  method Load(d: Document, files: map<string, seq<Byte>>, target: nat, alignment: nat, checks: Checks, gap: int,
              span: int, ghost groups: seq<seq<Tensor>>, ghost directory: map<string, seq<Byte>>) returns (r: Outcome)
    requires alignment > 0 && PowerOfTwo(alignment) && Hexadecimal(checks.hash)
    requires groups != [] && Laid(groups, [], target, alignment) && Stored(groups, files, alignment, checks.hash)
    requires d == DocumentOf(groups, alignment, checks.hash)
    requires files == FiledAll(groups, directory, alignment, checks.hash)
    ensures Published(r)
    ensures r.NotAccepted? <==> !(DistinctHashes(groups, alignment, checks.hash) && AllShaped(Flat(groups)))
    ensures !r.NotAccepted? ==> (r.Loaded? <==> AllSoundIn(EntriesOf(groups, alignment, checks.hash), files, checks))
    ensures !r.NotAccepted? && Unspoiled(groups, directory, alignment, checks.hash) ==>
              && (r.Loaded? <==> Passing(EntriesOf(groups, alignment, checks.hash), Flat(groups), checks))
              && (r.Loaded? ==> Contents(r.payloads, Flat(groups)))
  {
    hide Laid, Stored, Bytes, DistinctHashes, AllShaped, WellFormed, Contents, EntriesOf, FilesOf, Flat, FiledAll,
      Intact, Passing, PowerOfTwo, Hexadecimal, Unspoiled, AllSoundIn, Delivered, Holding, NamesOf, FileOf;
    WrittenAccepted(groups, target, alignment, checks.hash);
    ShardsFiled(groups, files, alignment, checks.hash);
    var parsed := ParseIndex(d);
    if parsed.Rejected? { return NotAccepted; }
    r := ReadGeneration(d, files, checks, gap, span);
    if Unspoiled(groups, directory, alignment, checks.hash) {
      assert AllIntact(groups, files, alignment, checks.hash) by {
        forall g | 0 <= g < |groups| ensures Intact(groups[g], files, alignment, checks.hash) {
          FiledIntact(groups, directory, alignment, checks.hash, g);
        }
      }
      WrittenHolds(groups, files, target, alignment, checks.hash);
      HoldingDecides(d.entries, Flat(groups), files, checks);
      ShardsNamed(d);
      if r.Loaded? { HoldingDelivers(r.payloads, d.entries, Flat(groups), files, NamesOf(d.shards)); }
    }
  }

  /** The index was published. */
  predicate Published(r: Outcome) {
    r.Loaded? || r.NotAccepted? || r.NotRead?
  }

  /**
   * Any tensors added one after the other, the generation published, its index parsed and every tensor read back.
   * Everything is decided by the tensors, the hash and what the directory held before, with `groups` the shards of the
   * run and `files` the directory after it:
   * - It is published if and only if all tensors may be added, there are some, and no file is in the way.
   * - The index is refused if and only if two shards share a hash or a shape is wrong.
   * - An accepted one is read back if and only if every entry's range passes the checks.
   * - Where no file of the directory stands for a shard without being it, an accepted one is read back if and only if
   *   the tensors pass the checks, and then exactly the first tensor of every digest comes back, byte for byte.
   */
  method StoreAndLoad(ts: seq<Tensor>, directory: map<string, seq<Byte>>, target: nat, alignment: nat, checks: Checks,
                      gap: int, span: int)
    returns (r: Outcome, files: map<string, seq<Byte>>)
    requires PowerOfTwo(alignment) && alignment <= target && Hexadecimal(checks.hash)
    ensures alignment > 0
    ensures FiledSome(ShardsOf(ts, target, alignment), directory, files, alignment, checks.hash)
    ensures Published(r) <==>
              Addable(ts) && ts != [] && !Blocked(ShardsOf(ts, target, alignment), directory, alignment, checks.hash)
    ensures r == NotPublished(NothingToPublish) <==> ts == []
    ensures var groups := ShardsOf(ts, target, alignment);
            Published(r) ==>
              && files == FiledAll(groups, directory, alignment, checks.hash)
              && (r.NotAccepted? <==> !(DistinctHashes(groups, alignment, checks.hash) && AllShaped(Kept(ts))))
    ensures var entries := EntriesOf(ShardsOf(ts, target, alignment), alignment, checks.hash);
            r.Loaded? || r.NotRead? ==> (r.Loaded? <==> AllSoundIn(entries, files, checks))
    ensures var groups := ShardsOf(ts, target, alignment);
            (r.Loaded? || r.NotRead?) && Unspoiled(groups, directory, alignment, checks.hash) ==>
              && (r.Loaded? <==> Passing(EntriesOf(groups, alignment, checks.hash), Kept(ts), checks))
              && (r.Loaded? ==> Contents(r.payloads, Kept(ts)))
  {
    hide Addable, Blocked, ShardsOf, FiledAll, FiledSome, DistinctHashes, AllShaped, Kept, EntriesOf, AllSoundIn,
      Unspoiled, Passing, Contents, Laid, Stored, Flat, PowerOfTwo, Hexadecimal;
    var added, finished;
    added, finished, files := Publish(ts, directory, target, alignment, checks.hash);
    if added != Done { return NotAdded(added), files; }
    if !finished.Published? { return NotPublished(finished), files; }
    ghost var groups := ShardsOf(ts, target, alignment);
    ShardsFlat(ts, target, alignment);
    r := Load(finished.document, files, target, alignment, checks, gap, span, groups, directory);
  }

  /**
   * The whole way for a run whose shards are new to the directory: tensors that may be added, of correct shapes, in
   * shards of distinct hashes, come back byte for byte if they pass the checks, and are refused only by the checks.
   */
  method StoreAndLoadNew(ts: seq<Tensor>, directory: map<string, seq<Byte>>, target: nat, alignment: nat,
                         checks: Checks, gap: int, span: int) returns (r: Outcome)
    requires alignment > 0 && PowerOfTwo(alignment) && alignment <= target && Hexadecimal(checks.hash)
    requires Addable(ts) && ts != [] && AllShaped(Kept(ts))
    requires var groups := ShardsOf(ts, target, alignment);
             && DistinctHashes(groups, alignment, checks.hash)
             && forall g :: 0 <= g < |groups| ==> FileOf(groups[g], alignment, checks.hash).name !in directory
    ensures var entries := EntriesOf(ShardsOf(ts, target, alignment), alignment, checks.hash);
            if Passing(entries, Kept(ts), checks) then r.Loaded? && Contents(r.payloads, Kept(ts)) else r.NotRead?
  {
    hide Addable, Blocked, ShardsOf, FiledAll, FiledSome, DistinctHashes, AllShaped, Kept, EntriesOf, AllSoundIn,
      Unspoiled, Passing, Contents, PowerOfTwo, Hexadecimal, FileOf;
    FreshIsClear(ShardsOf(ts, target, alignment), directory, alignment, checks.hash);
    var files;
    r, files := StoreAndLoad(ts, directory, target, alignment, checks, gap, span);
  }
}
