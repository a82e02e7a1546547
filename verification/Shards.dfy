/**
 * Immutable tensor shards: the writer that packs tensors into bounded content-addressed files, and the document that
 * indexes them.
 */
module Shards {
  import opened Numbers

  type Byte = b: nat | b < 256

  datatype Option<T> = None | Some(value: T)

  predicate PowerOfTwo(n: nat) {
    n == 1 || (n > 1 && n % 2 == 0 && PowerOfTwo(n / 2))
  }

  /** The next multiple of the alignment. */
  function AlignUp(v: nat, alignment: nat): (r: nat)
    requires alignment > 0
    ensures v <= r < v + alignment && r % alignment == 0
  {
    var r := (v + alignment - 1) / alignment * alignment;
    AlignedFacts(v, alignment);
    r
  }

  lemma {:induction false} AlignedFacts(v: nat, a: nat)
    requires a > 0
    ensures var r := (v + a - 1) / a * a; v <= r < v + a && r % a == 0
  {
    var q := (v + a - 1) / a;
    assert v + a - 1 == a * q + (v + a - 1) % a;
    assert q * a == a * q;
    MultipleOf(q, a);
  }

  lemma {:induction false} AlignedSum(x: nat, y: nat, a: nat)
    requires a > 0 && x % a == 0 && y % a == 0
    ensures (x + y) % a == 0
  {
    var p, q := x / a, y / a;
    assert x == a * p && y == a * q;
    assert x + y == a * (p + q);
    RemainderUnique(x + y, a, p + q, 0);
  }

  // The padded end of an aligned entry.
  lemma {:induction false} AlignUpShift(base: nat, v: nat, a: nat)
    requires a > 0 && base % a == 0
    ensures AlignUp(base + v, a) == base + AlignUp(v, a)
  {
    var r := AlignUp(v, a);
    AlignedSum(base, r, a);
    SameMultiple(AlignUp(base + v, a), base + r, base + v, a);
  }

  lemma {:induction false} SameMultiple(x: nat, y: nat, v: nat, a: nat)
    requires a > 0 && x % a == 0 && y % a == 0 && v <= x < v + a && v <= y < v + a
    ensures x == y
  {
    var p, q := x / a, y / a;
    assert x == a * p && y == a * q;
    if p < q { assert a * q == a * p + a * (q - p); AtLeastOnce(a, q - p); }
    if q < p { assert a * p == a * q + a * (p - q); AtLeastOnce(a, p - q); }
  }

  // ---- Layout ----

  datatype Kind = Float16 | Float32 | OtherKind

  /** A tensor as it is added. */
  datatype Tensor = Tensor(digest: string, payload: seq<Byte>, rows: int, dimension: int, kind: Kind)

  datatype Entry = Entry(digest: string, shard: string, offset: int, length: int, rows: int, dimension: int, kind: Kind)

  datatype File = File(name: string, size: int, checksum: string)

  datatype Document = Document(format: string, version: int, alignment: int, shards: seq<File>, entries: seq<Entry>)

  const FORMAT: string := "vectorchord.tilemaxsim.shards"
  const VERSION: int := 1
  const PREFIX: string := "shards/sha256-"
  const SUFFIX: string := ".vts"
  const CHECK_PREFIX: string := "sha256:"

  predicate Hex(c: char) {
    '0' <= c <= '9' || 'a' <= c <= 'f'
  }

  predicate Digest(s: string) {
    |s| == 64 && forall k :: 0 <= k < |s| ==> Hex(s[k])
  }

  function NameOf(checksum: string): string {
    PREFIX + checksum + SUFFIX
  }

  function Padding(n: nat): (z: seq<Byte>)
    ensures |z| == n
  {
    seq(n, _ => 0)
  }

  function Padded(t: Tensor, alignment: nat): (b: seq<Byte>)
    requires alignment > 0
    ensures |b| == AlignUp(|t.payload|, alignment) && b[..|t.payload|] == t.payload
  {
    t.payload + Padding(AlignUp(|t.payload|, alignment) - |t.payload|)
  }

  /** The bytes of a shard: its tensors, each padded to the alignment. */
  function Bytes(group: seq<Tensor>, alignment: nat): (b: seq<Byte>)
    requires alignment > 0
    ensures |b| % alignment == 0
    ensures group != [] && (forall k :: 0 <= k < |group| ==> |group[k].payload| > 0) ==> |b| > 0
  {
    if group == [] then [] else
      var n := |group| - 1;
      AlignedSum(|Bytes(group[..n], alignment)|, |Padded(group[n], alignment)|, alignment);
      Bytes(group[..n], alignment) + Padded(group[n], alignment)
  }

  /** The entry of a tensor at an offset of a shard. */
  function EntryOf(t: Tensor, shard: string, offset: nat): Entry {
    Entry(t.digest, shard, offset, |t.payload|, t.rows, t.dimension, t.kind)
  }

  /** The entries of a shard, in the order in which its tensors were added. */
  function GroupEntries(group: seq<Tensor>, shard: string, alignment: nat): (e: seq<Entry>)
    requires alignment > 0
    ensures |e| == |group|
  {
    if group == [] then [] else
      var n := |group| - 1;
      GroupEntries(group[..n], shard, alignment) + [EntryOf(group[n], shard, |Bytes(group[..n], alignment)|)]
  }

  /** What is recorded for a tensor until its shard is named. */
  datatype Pending = Pending(digest: string, offset: nat, length: nat, rows: int, dimension: int, kind: Kind)

  function GroupPending(group: seq<Tensor>, alignment: nat): (p: seq<Pending>)
    requires alignment > 0
    ensures |p| == |group|
  {
    if group == [] then [] else
      var n := |group| - 1;
      var t := group[n];
      GroupPending(group[..n], alignment)
      + [Pending(t.digest, |Bytes(group[..n], alignment)|, |t.payload|, t.rows, t.dimension, t.kind)]
  }

  function Named(p: Pending, shard: string): Entry {
    Entry(p.digest, shard, p.offset, p.length, p.rows, p.dimension, p.kind)
  }

  lemma {:induction false} PendingNamed(group: seq<Tensor>, shard: string, alignment: nat, k: nat)
    requires alignment > 0 && k < |group|
    ensures Named(GroupPending(group, alignment)[k], shard) == GroupEntries(group, shard, alignment)[k]
    decreases |group|
  {
    var n := |group| - 1;
    if k < n { PendingNamed(group[..n], shard, alignment, k); }
  }

  lemma {:induction false} PendingDigest(group: seq<Tensor>, alignment: nat, k: nat)
    requires alignment > 0 && k < |group|
    ensures GroupPending(group, alignment)[k].digest == group[k].digest
    decreases |group|
  {
    var n := |group| - 1;
    if k < n { PendingDigest(group[..n], alignment, k); }
  }

  function FileOf(group: seq<Tensor>, alignment: nat, hash: seq<Byte> -> string): File
    requires alignment > 0
  {
    var b := Bytes(group, alignment);
    File(NameOf(hash(b)), |b|, CHECK_PREFIX + hash(b))
  }

  function FilesOf(groups: seq<seq<Tensor>>, alignment: nat, hash: seq<Byte> -> string): (f: seq<File>)
    requires alignment > 0
    ensures |f| == |groups| && forall g :: 0 <= g < |groups| ==> f[g] == FileOf(groups[g], alignment, hash)
  {
    seq(|groups|, g requires 0 <= g < |groups| => FileOf(groups[g], alignment, hash))
  }

  function EntriesOf(groups: seq<seq<Tensor>>, alignment: nat, hash: seq<Byte> -> string): seq<Entry>
    requires alignment > 0
  {
    if groups == [] then [] else
      var n := |groups| - 1;
      EntriesOf(groups[..n], alignment, hash)
      + GroupEntries(groups[n], FileOf(groups[n], alignment, hash).name, alignment)
  }

  function Flat(groups: seq<seq<Tensor>>): seq<Tensor> {
    if groups == [] then [] else Flat(groups[..|groups| - 1]) + groups[|groups| - 1]
  }

  ghost predicate Distinct(ts: seq<Tensor>) {
    forall a, b :: 0 <= a < b < |ts| ==> ts[a].digest != ts[b].digest
  }

  /** What the writer accepts of a tensor. */
  predicate Proper(t: Tensor) {
    Digest(t.digest) && t.payload != [] && t.rows > 0 && t.dimension > 0 && t.kind != OtherKind
  }

  /** Within the target size, or a single tensor. */
  ghost predicate Bounded(group: seq<Tensor>, target: nat, alignment: nat)
    requires alignment > 0
  {
    group != [] && (|group| == 1 || |Bytes(group, alignment)| <= target)
  }

  /** The tensor would take the open shard past the target size. */
  predicate Full(open: seq<Tensor>, t: Tensor, target: nat, alignment: nat)
    requires alignment > 0
  {
    open != [] && |Bytes(open, alignment)| + |Padded(t, alignment)| > target
  }

  lemma {:induction false} BytesNext(group: seq<Tensor>, t: Tensor, alignment: nat)
    requires alignment > 0
    ensures Bytes(group + [t], alignment) == Bytes(group, alignment) + Padded(t, alignment)
    ensures GroupPending(group + [t], alignment) == GroupPending(group, alignment) +
              [Pending(t.digest, |Bytes(group, alignment)|, |t.payload|, t.rows, t.dimension, t.kind)]
  {
    assert (group + [t])[..|group|] == group;
  }

  lemma {:induction false} FilesNext(groups: seq<seq<Tensor>>, group: seq<Tensor>, alignment: nat,
                                     hash: seq<Byte> -> string)
    requires alignment > 0
    ensures EntriesOf(groups + [group], alignment, hash) ==
            EntriesOf(groups, alignment, hash) + GroupEntries(group, FileOf(group, alignment, hash).name, alignment)
    ensures Flat(groups + [group]) == Flat(groups) + group
  {
    assert (groups + [group])[..|groups|] == groups;
  }

  // ---- The writer ----

  datatype Outcome = Done | BadDigest | EmptyPayload | BadMetadata | CorruptShard

  datatype Finished = Published(document: Document) | NothingToPublish | Corrupt

  class ShardWriter {
    const hash: seq<Byte> -> string
    const target: nat
    const alignment: nat
    /** The shard directory: file name to contents. */
    var files: map<string, seq<Byte>>
    var entries: seq<Entry>
    var shards: seq<File>
    var stream: Option<seq<Byte>>
    var pending: seq<Pending>
    /** The tensors of the finished shards and of the open one. */
    ghost var closed: seq<seq<Tensor>>
    ghost var open: seq<Tensor>

    ghost predicate Valid()
      reads this
    {
      && alignment > 0 && PowerOfTwo(alignment) && alignment <= target
      && (stream.None? <==> open == []) && (stream.Some? ==> stream.value == Bytes(open, alignment))
      && pending == GroupPending(open, alignment)
      && shards == FilesOf(closed, alignment, hash)
      && entries == EntriesOf(closed, alignment, hash)
      && Laid(closed, open, target, alignment)
      && Stored(closed, files, alignment, hash)
    }

    constructor (files: map<string, seq<Byte>>, target: nat, alignment: nat, hash: seq<Byte> -> string)
      requires PowerOfTwo(alignment) && alignment <= target
      ensures Valid() && closed == [] && open == []
      ensures this.files == files && this.target == target && this.alignment == alignment && this.hash == hash
    {
      this.files, this.target, this.alignment, this.hash := files, target, alignment, hash;
      entries, shards, stream, pending := [], [], None, [];
      closed, open := [], [];
    }

    /**
     * Closes the open shard under the hash of its contents. A file already there is kept: the shard is refused if the
     * file's length or hash differs, and taken for that file otherwise, whatever the file holds.
     */
    method FinishShard() returns (outcome: Outcome)
      requires Valid()
      modifies this
      ensures Valid() && (forall name :: name in old(files) ==> name in files && files[name] == old(files)[name])
      ensures outcome == Done || outcome == CorruptShard
      ensures outcome == CorruptShard <==> old(open) != [] && Conflicts(old(open), old(files), alignment, hash)
      ensures files == if outcome == Done && old(open) != [] then Filed(old(open), old(files), alignment, hash)
                       else old(files)
      ensures outcome == CorruptShard ==> closed == old(closed) && open == old(open)
      ensures outcome == Done ==> open == [] && closed == old(closed) + if old(open) == [] then [] else [old(open)]
    {
      hide Laid, Bytes, GroupPending, EntriesOf, GroupEntries, StoredAt, Stored, FilesOf, PowerOfTwo, Flat;
      if stream.None? {
        assert closed + [] == closed;
        return Done;
      }
      var bytes := stream.value;
      var digest := hash(bytes);
      var name, size := NameOf(digest), |bytes|;
      ghost var group := open;
      assert FileOf(group, alignment, hash) == File(name, size, CHECK_PREFIX + digest);
      if name in files {
        if |files[name]| != size || hash(files[name]) != digest { return CorruptShard; }
      } else {
        files := files[name := bytes];
      }
      StoredHere(group, files, alignment, hash);
      var named := NameAll(pending, name, group, alignment);
      shards := shards + [File(name, size, CHECK_PREFIX + digest)];
      entries := entries + named;
      stream, pending := None, [];
      FilesNext(closed, group, alignment, hash);
      FilesAppend(closed, group, alignment, hash);
      NoPending(alignment);
      LaidClosed(closed, group, target, alignment);
      StoredNext(closed, group, old(files), files, alignment, hash);
      closed, open := closed + [group], [];
      outcome := Done;
    }

    /** Adds a tensor to the open shard, closing it first when the tensor would take it past the target size. */
    method Add(t: Tensor) returns (outcome: Outcome)
      requires Valid()
      modifies this
      ensures Valid() && (forall name :: name in old(files) ==> name in files && files[name] == old(files)[name])
      ensures outcome == CorruptShard <==>
                && Proper(t) && !Carries(old(Flat(closed) + open), t.digest) && Full(old(open), t, target, alignment)
                && Conflicts(old(open), old(files), alignment, hash)
      ensures files == if closed == old(closed) then old(files) else Filed(old(open), old(files), alignment, hash)
      ensures var known := Carries(old(Flat(closed) + open), t.digest);
              && (!Digest(t.digest) ==> outcome == BadDigest)
              && (Digest(t.digest) && known ==> outcome == Done && closed == old(closed) && open == old(open))
              && (Digest(t.digest) && !known && t.payload == [] ==> outcome == EmptyPayload)
              && (Digest(t.digest) && !known && t.payload != [] && !Proper(t) ==> outcome == BadMetadata)
              && (Proper(t) && !known ==> outcome == Done || outcome == CorruptShard)
              && (Proper(t) && !known && outcome == Done ==>
                    if Full(old(open), t, target, alignment)
                    then closed == old(closed) + [old(open)] && open == [t]
                    else closed == old(closed) && open == old(open) + [t])
      ensures outcome != Done ==> closed == old(closed) && open == old(open)
    {
      hide Laid, Bytes, GroupPending, EntriesOf, GroupEntries, Stored, Flat, Digest, PowerOfTwo, Conflicts, Filed;
      if !Digest(t.digest) { return BadDigest; }
      var known := Known(t.digest);
      if known { return Done; }
      if t.payload == [] { return EmptyPayload; }
      if t.rows <= 0 || t.dimension <= 0 || t.kind == OtherKind { return BadMetadata; }
      var padded := AlignUp(|t.payload|, alignment);
      assert |Padded(t, alignment)| == padded;
      assert forall u :: u in Flat(closed) + open ==> u.digest != t.digest;
      ghost var all := Flat(closed) + open;
      if stream.Some? && |stream.value| + padded > target {
        outcome := FinishShard();
        if outcome != Done { return; }
        FlatNext(old(closed), old(open));
        assert Flat(closed) + open == all;
      }
      outcome := Append(t);
    }

    // The tensor and its padding go at the end of the open shard.
    method Append(t: Tensor) returns (outcome: Outcome)
      requires Valid() && Proper(t) && forall u :: u in Flat(closed) + open ==> u.digest != t.digest
      requires open == [] || |Bytes(open, alignment)| + |Padded(t, alignment)| <= target
      modifies this`stream, this`pending, this`open
      ensures Valid() && outcome == Done && open == old(open) + [t]
    {
      ghost var before := open;
      hide Laid, Bytes, GroupPending, EntriesOf, Stored, FilesOf, PowerOfTwo, Flat, Proper;
      LaidNext(closed, before, t, target, alignment);
      BytesNext(before, t, alignment);
      NoBytes(alignment);
      var bytes := if stream.None? then [] else stream.value;
      var offset := |bytes|;
      bytes := WritePadding(bytes + t.payload, AlignUp(|t.payload|, alignment) - |t.payload|, alignment);
      PaddedAfter(Bytes(before, alignment), t, alignment);
      stream := Some(bytes);
      pending := pending + [Pending(t.digest, offset, |t.payload|, t.rows, t.dimension, t.kind)];
      open := open + [t];
      outcome := Done;
    }

    /** Closes the last shard and writes the index. */
    method Finish() returns (r: Finished)
      requires Valid()
      modifies this
      ensures Valid() && (forall name :: name in old(files) ==> name in files && files[name] == old(files)[name])
      ensures r.Corrupt? <==> old(open) != [] && Conflicts(old(open), old(files), alignment, hash)
      ensures r.NothingToPublish? <==> old(closed) == [] && old(open) == []
      ensures files == if r.Corrupt? || old(open) == [] then old(files)
                       else Filed(old(open), old(files), alignment, hash)
      ensures r.Published? ==>
                && open == [] && closed == old(closed) + (if old(open) == [] then [] else [old(open)]) && closed != []
                && r.document == DocumentOf(closed, alignment, hash)
    {
      hide Laid, Bytes, GroupPending, Stored, PowerOfTwo, Conflicts, Filed;
      var outcome := FinishShard();
      if outcome != Done { return Corrupt; }
      NoEntries(closed, target, alignment, hash);
      if entries == [] { return NothingToPublish; }
      r := Published(Document(FORMAT, VERSION, alignment, shards, entries));
    }

    /** Whether a tensor of that digest was added before. */
    method Known(digest: string) returns (known: bool)
      requires Valid()
      ensures known <==> Carries(Flat(closed) + open, digest)
    {
      var inEntries := Names(entries, digest);
      var inPending := exists k :: 0 <= k < |pending| && pending[k].digest == digest;
      EntryDigests(closed, alignment, hash, digest);
      forall k | 0 <= k < |open| ensures pending[k].digest == open[k].digest { PendingDigest(open, alignment, k); }
      hide Flat, EntriesOf, GroupPending, Laid, Stored, Names;
      CarriesJoin(Flat(closed), open, digest);
      known := inEntries || inPending;
      assert inPending <==> Carries(open, digest) by {
        assert forall k :: 0 <= k < |open| ==> open[k] in open;
      }
    }
  }

  /** Every group is bounded, every tensor proper, no digest twice. */
  ghost predicate Laid(closed: seq<seq<Tensor>>, open: seq<Tensor>, target: nat, alignment: nat)
    requires alignment > 0
  {
    && (forall g :: 0 <= g < |closed| ==> Bounded(closed[g], target, alignment))
    && (open != [] ==> Bounded(open, target, alignment))
    && (forall t :: t in Flat(closed) + open ==> Proper(t))
    && Distinct(Flat(closed) + open)
  }

  /** The directory holds a file of the shard's name that the writer takes for damaged. */
  predicate Conflicts(group: seq<Tensor>, files: map<string, seq<Byte>>, alignment: nat, hash: seq<Byte> -> string)
    requires alignment > 0
  {
    var name, bytes := FileOf(group, alignment, hash).name, Bytes(group, alignment);
    name in files && (|files[name]| != |bytes| || hash(files[name]) != hash(bytes))
  }

  /** The directory with the shard in it, unless its name is taken. */
  function Filed(group: seq<Tensor>, files: map<string, seq<Byte>>, alignment: nat, hash: seq<Byte> -> string)
      : map<string, seq<Byte>>
    requires alignment > 0
  {
    var name := FileOf(group, alignment, hash).name;
    if name in files then files else files[name := Bytes(group, alignment)]
  }

  /** Every finished shard has a file of its name, length and hash. */
  ghost predicate Stored(closed: seq<seq<Tensor>>, files: map<string, seq<Byte>>, alignment: nat,
                         hash: seq<Byte> -> string)
    requires alignment > 0
  {
    forall g :: 0 <= g < |closed| ==> StoredAt(closed[g], files, alignment, hash)
  }

  ghost predicate StoredAt(group: seq<Tensor>, files: map<string, seq<Byte>>, alignment: nat, hash: seq<Byte> -> string)
    requires alignment > 0
  {
    var name, bytes := FileOf(group, alignment, hash).name, Bytes(group, alignment);
    name in files && |files[name]| == |bytes| && hash(files[name]) == hash(bytes)
  }

  /** The file under the shard's name holds the shard, not other bytes of the same length and hash. */
  ghost predicate Intact(group: seq<Tensor>, files: map<string, seq<Byte>>, alignment: nat, hash: seq<Byte> -> string)
    requires alignment > 0
  {
    var name := FileOf(group, alignment, hash).name;
    name in files && files[name] == Bytes(group, alignment)
  }

  // Zeros, at most an alignment unit at a time.
  method WritePadding(bytes: seq<Byte>, padding: nat, alignment: nat) returns (r: seq<Byte>)
    requires alignment > 0
    ensures r == bytes + Padding(padding)
  {
    r := bytes;
    var remaining := padding;
    while remaining > 0
      invariant 0 <= remaining <= padding && r == bytes + Padding(padding - remaining)
    {
      var chunk := if remaining <= alignment then remaining else alignment;
      assert Padding(padding - remaining) + Padding(chunk) == Padding(padding - remaining + chunk);
      r, remaining := r + Padding(chunk), remaining - chunk;
    }
  }

  lemma {:induction false} PaddedAfter(bytes: seq<Byte>, t: Tensor, alignment: nat)
    requires alignment > 0
    ensures bytes + t.payload + Padding(AlignUp(|t.payload|, alignment) - |t.payload|) == bytes + Padded(t, alignment)
  {
    hide AlignUp;
  }

  method NameAll(pending: seq<Pending>, name: string, ghost group: seq<Tensor>, ghost alignment: nat)
      returns (named: seq<Entry>)
    requires alignment > 0 && pending == GroupPending(group, alignment)
    ensures named == GroupEntries(group, name, alignment)
  {
    named := [];
    for k := 0 to |pending|
      invariant |named| == k && forall j :: 0 <= j < k ==> named[j] == GroupEntries(group, name, alignment)[j]
    {
      PendingNamed(group, name, alignment, k);
      named := named + [Named(pending[k], name)];
    }
  }

  lemma {:induction false} StoredHere(group: seq<Tensor>, files: map<string, seq<Byte>>, alignment: nat,
                                      hash: seq<Byte> -> string)
    requires alignment > 0 && !Conflicts(group, files, alignment, hash)
    requires FileOf(group, alignment, hash).name in files
    ensures StoredAt(group, files, alignment, hash)
  {
    hide Bytes;
  }

  lemma {:induction false} FilesAppend(groups: seq<seq<Tensor>>, group: seq<Tensor>, alignment: nat,
                                       hash: seq<Byte> -> string)
    requires alignment > 0
    ensures FilesOf(groups + [group], alignment, hash) == FilesOf(groups, alignment, hash)
            + [FileOf(group, alignment, hash)]
  {
    hide FileOf;
  }

  lemma {:induction false} NoPending(alignment: nat)
    requires alignment > 0
    ensures GroupPending([], alignment) == []
  {
  }

  lemma {:induction false} LaidClosed(closed: seq<seq<Tensor>>, open: seq<Tensor>, target: nat, alignment: nat)
    requires alignment > 0 && Laid(closed, open, target, alignment) && open != []
    ensures Laid(closed + [open], [], target, alignment)
  {
    hide Bounded, Proper, Flat;
    assert Flat(closed + [open]) + [] == Flat(closed) + open by { FlatNext(closed, open); }
  }

  lemma {:induction false} FlatNext(groups: seq<seq<Tensor>>, group: seq<Tensor>)
    ensures Flat(groups + [group]) + [] == Flat(groups) + group
  {
    assert (groups + [group])[..|groups|] == groups;
  }

  lemma {:induction false} StoredNext(closed: seq<seq<Tensor>>, group: seq<Tensor>, was: map<string, seq<Byte>>,
                                      files: map<string, seq<Byte>>,
                                      alignment: nat, hash: seq<Byte> -> string)
    requires alignment > 0 && Stored(closed, was, alignment, hash)
    requires forall name :: name in was ==> name in files && files[name] == was[name]
    requires StoredAt(group, files, alignment, hash)
    ensures Stored(closed + [group], files, alignment, hash)
  {
    forall g | 0 <= g < |closed| ensures StoredAt(closed[g], files, alignment, hash) {
      assert StoredAt(closed[g], was, alignment, hash);
      hide FileOf, Bytes;
    }
    hide StoredAt;
  }

  lemma {:induction false} GroupDigest(group: seq<Tensor>, shard: string, alignment: nat, k: nat)
    requires alignment > 0 && k < |group|
    ensures GroupEntries(group, shard, alignment)[k].digest == group[k].digest
    decreases |group|
  {
    var n := |group| - 1;
    if k < n { GroupDigest(group[..n], shard, alignment, k); }
  }

  /** Some entry has the digest. */
  predicate Names(entries: seq<Entry>, digest: string) {
    exists k :: 0 <= k < |entries| && entries[k].digest == digest
  }

  /** Some tensor has the digest. */
  predicate Carries(ts: seq<Tensor>, digest: string) {
    exists t :: t in ts && t.digest == digest
  }

  lemma {:induction false} EntryDigests(groups: seq<seq<Tensor>>, alignment: nat, hash: seq<Byte> -> string,
                                        digest: string)
    requires alignment > 0
    ensures Names(EntriesOf(groups, alignment, hash), digest) <==> Carries(Flat(groups), digest)
    decreases |groups|
  {
    if groups == [] {
    } else {
      var n := |groups| - 1;
      var name := FileOf(groups[n], alignment, hash).name;
      var a, b := EntriesOf(groups[..n], alignment, hash), GroupEntries(groups[n], name, alignment);
      assert EntriesOf(groups, alignment, hash) == a + b && Flat(groups) == Flat(groups[..n]) + groups[n];
      hide EntriesOf, GroupEntries, Flat, FileOf, Names, Carries;
      EntryDigests(groups[..n], alignment, hash, digest);
      forall k | 0 <= k < |groups[n]| ensures b[k].digest == groups[n][k].digest {
        GroupDigest(groups[n], name, alignment, k);
      }
      NamesJoin(a, b, groups[n], digest);
      CarriesJoin(Flat(groups[..n]), groups[n], digest);
    }
  }

  lemma {:induction false} NamesJoin(a: seq<Entry>, b: seq<Entry>, group: seq<Tensor>, digest: string)
    requires |b| == |group| && forall k :: 0 <= k < |group| ==> b[k].digest == group[k].digest
    ensures Names(a + b, digest) <==> Names(a, digest) || Carries(group, digest)
  {
    if k :| 0 <= k < |a| && a[k].digest == digest { assert (a + b)[k].digest == digest; }
    if t :| t in group && t.digest == digest {
      var k :| 0 <= k < |group| && group[k] == t;
      assert (a + b)[|a| + k].digest == digest;
    }
    if k :| 0 <= k < |a + b| && (a + b)[k].digest == digest {
      if k >= |a| { assert group[k - |a|] in group; }
    }
  }

  lemma {:induction false} CarriesJoin(a: seq<Tensor>, b: seq<Tensor>, digest: string)
    ensures Carries(a + b, digest) <==> Carries(a, digest) || Carries(b, digest)
  {
  }

  function DocumentOf(groups: seq<seq<Tensor>>, alignment: nat, hash: seq<Byte> -> string): Document
    requires alignment > 0
  {
    Document(FORMAT, VERSION, alignment, FilesOf(groups, alignment, hash), EntriesOf(groups, alignment, hash))
  }

  lemma {:induction false} NoBytes(alignment: nat)
    requires alignment > 0
    ensures Bytes([], alignment) == []
  {
  }

  lemma {:induction false} LaidNext(closed: seq<seq<Tensor>>, open: seq<Tensor>, t: Tensor, target: nat, alignment: nat)
    requires alignment > 0 && Laid(closed, open, target, alignment) && Proper(t)
    requires forall u :: u in Flat(closed) + open ==> u.digest != t.digest
    requires open == [] || |Bytes(open, alignment)| + |Padded(t, alignment)| <= target
    ensures Laid(closed, open + [t], target, alignment)
  {
    hide Proper, Flat, Bytes, Padded;
    BytesNext(open, t, alignment);
    var all, next := Flat(closed) + open, Flat(closed) + (open + [t]);
    assert next == all + [t];
    forall a, b | 0 <= a < b < |next| ensures next[a].digest != next[b].digest {
      if b == |all| { assert all[a] in all; }
    }
  }

  lemma {:induction false} NoEntries(closed: seq<seq<Tensor>>, target: nat, alignment: nat, hash: seq<Byte> -> string)
    requires alignment > 0 && Laid(closed, [], target, alignment)
    ensures EntriesOf(closed, alignment, hash) == [] <==> closed == []
  {
    if closed != [] {
      var n := |closed| - 1;
      assert Bounded(closed[n], target, alignment);
    }
  }
}