/** Every generation the writer publishes is accepted, exactly when shapes agree and no two shards are equal. */
module ShardRoundTrip {
  import opened Shards
  import opened ShardIndex

  /** The payload length agrees with the shape. */
  predicate Shaped(t: Tensor) {
    |t.payload| == t.rows * t.dimension * ScalarBytes(t.kind)
  }

  predicate AllShaped(ts: seq<Tensor>) {
    forall i :: 0 <= i < |ts| ==> Shaped(ts[i])
  }

  /** Hashes are 64 hexadecimal digits. */
  ghost predicate Hexadecimal(hash: seq<Byte> -> string) {
    forall b :: Digest(hash(b))
  }

  /** No two shards have the same hash. */
  ghost predicate DistinctHashes(groups: seq<seq<Tensor>>, alignment: nat, hash: seq<Byte> -> string)
    requires alignment > 0
  {
    forall g, h :: 0 <= g < h < |groups| ==> hash(Bytes(groups[g], alignment)) != hash(Bytes(groups[h], alignment))
  }

  /** Among these shards, equal hashes mean equal bytes. */
  ghost predicate Separates(groups: seq<seq<Tensor>>, alignment: nat, hash: seq<Byte> -> string)
    requires alignment > 0
  {
    forall g, h :: 0 <= g < h < |groups| && hash(Bytes(groups[g], alignment)) == hash(Bytes(groups[h], alignment)) ==>
      Bytes(groups[g], alignment) == Bytes(groups[h], alignment)
  }

  ghost predicate DifferentShards(groups: seq<seq<Tensor>>, alignment: nat)
    requires alignment > 0
  {
    forall g, h :: 0 <= g < h < |groups| ==> Bytes(groups[g], alignment) != Bytes(groups[h], alignment)
  }

  // ---- Inside a shard ----

  lemma {:induction false} BytesPrefix(group: seq<Tensor>, k: nat, alignment: nat)
    requires alignment > 0 && k <= |group|
    ensures |Bytes(group[..k], alignment)| <= |Bytes(group, alignment)|
    ensures Bytes(group, alignment)[..|Bytes(group[..k], alignment)|] == Bytes(group[..k], alignment)
    decreases |group|
  {
    var n := |group| - 1;
    if k == |group| {
      assert group[..k] == group;
    } else {
      BytesPrefix(group[..n], k, alignment);
      assert group[..n][..k] == group[..k];
      hide Padded;
    }
  }

  lemma {:induction false} BytesStep(group: seq<Tensor>, k: nat, alignment: nat)
    requires alignment > 0 && k < |group|
    ensures Bytes(group[..k + 1], alignment) == Bytes(group[..k], alignment) + Padded(group[k], alignment)
  {
    assert group[..k + 1][..k] == group[..k];
  }

  /** Where the k-th tensor lies in its shard: aligned, inside the file, and byte for byte. */
  lemma {:induction false} TensorInShard(group: seq<Tensor>, k: nat, alignment: nat)
    requires alignment > 0 && k < |group|
    ensures var b, at, t := Bytes(group, alignment), |Bytes(group[..k], alignment)|, group[k];
            && at % alignment == 0 && at + AlignUp(|t.payload|, alignment) == |Bytes(group[..k + 1], alignment)| <= |b|
            && at + |t.payload| <= |b| && b[at..at + |t.payload|] == t.payload
  {
    BytesStep(group, k, alignment);
    BytesPrefix(group, k + 1, alignment);
    var b, q, p, t := Bytes(group, alignment), Bytes(group[..k + 1], alignment), Bytes(group[..k], alignment), group[k];
    assert |q| == |p| + AlignUp(|t.payload|, alignment);
    hide Bytes, AlignUp;
    SliceOfPrefix(b, q, |p|, |p| + |t.payload|);
    assert q[|p|..|p| + |t.payload|] == Padded(t, alignment)[..|t.payload|];
  }

  lemma {:induction false} SliceOfPrefix(b: seq<Byte>, q: seq<Byte>, i: nat, j: nat)
    requires |q| <= |b| && b[..|q|] == q && i <= j <= |q|
    ensures b[i..j] == q[i..j]
  {
    assert forall x :: 0 <= x < |q| ==> b[x] == b[..|q|][x];
  }

  lemma {:induction false} GroupEntryAt(group: seq<Tensor>, shard: string, alignment: nat, k: nat)
    requires alignment > 0 && k < |group|
    ensures GroupEntries(group, shard, alignment)[k] == EntryOf(group[k], shard, |Bytes(group[..k], alignment)|)
    decreases |group|
  {
    var n := |group| - 1;
    if k < n {
      GroupEntryAt(group[..n], shard, alignment, k);
      assert group[..n][..k] == group[..k];
    }
  }

  // ---- From entries to tensors ----

  /** Entry `i` is that of tensor `i`, which is tensor `k` of shard `g`. */
  ghost predicate Places(groups: seq<seq<Tensor>>, alignment: nat, hash: seq<Byte> -> string, i: nat, g: nat, k: nat)
    requires alignment > 0
  {
    && g < |groups| && k < |groups[g]| && i < |Flat(groups)| == |EntriesOf(groups, alignment, hash)|
    && i == |Flat(groups[..g])| + k && Flat(groups)[i] == groups[g][k]
    && EntriesOf(groups, alignment, hash)[i] ==
       EntryOf(groups[g][k], FileOf(groups[g], alignment, hash).name, |Bytes(groups[g][..k], alignment)|)
  }

  lemma {:induction false} SameCount(groups: seq<seq<Tensor>>, alignment: nat, hash: seq<Byte> -> string)
    requires alignment > 0
    ensures |Flat(groups)| == |EntriesOf(groups, alignment, hash)|
    decreases |groups|
  {
    if groups == [] {
    } else {
      SameCount(groups[..|groups| - 1], alignment, hash);
    }
  }

  lemma {:induction false} Place(groups: seq<seq<Tensor>>, alignment: nat, hash: seq<Byte> -> string, i: nat)
      returns (g: nat, k: nat)
    requires alignment > 0 && i < |Flat(groups)|
    ensures Places(groups, alignment, hash, i, g, k)
    decreases |groups|
  {
    var n := |groups| - 1;
    var before := groups[..n];
    SameCount(groups, alignment, hash);
    SameCount(before, alignment, hash);
    if i < |Flat(before)| {
      g, k := Place(before, alignment, hash, i);
      assert before[..g] == groups[..g] && before[g] == groups[g];
    } else {
      g, k := n, i - |Flat(before)|;
      GroupEntryAt(groups[n], FileOf(groups[n], alignment, hash).name, alignment, k);
    }
  }

  lemma {:induction false} Locate(groups: seq<seq<Tensor>>, alignment: nat, hash: seq<Byte> -> string, g: nat, k: nat)
    requires alignment > 0 && g < |groups| && k < |groups[g]|
    ensures |Flat(groups[..g])| + k < |Flat(groups)| && Flat(groups)[|Flat(groups[..g])| + k] == groups[g][k]
    decreases |groups|
  {
    var n := |groups| - 1;
    if g < n {
      Locate(groups[..n], alignment, hash, g, k);
      assert groups[..n][..g] == groups[..g] && groups[..n][g] == groups[g];
    }
  }

  // ---- Files ----

  lemma {:induction false} NameInjective(a: string, b: string)
    ensures NameOf(a) == NameOf(b) <==> a == b
  {
    var x, y := NameOf(a), NameOf(b);
    assert |x| == |PREFIX| + |a| + |SUFFIX| && |y| == |PREFIX| + |b| + |SUFFIX|;
    assert x[|PREFIX|..|PREFIX| + |a|] == a;
    assert y[|PREFIX|..|PREFIX| + |b|] == b;
  }

  lemma {:induction false} SameNameSameHash(p: seq<Tensor>, q: seq<Tensor>, alignment: nat, hash: seq<Byte> -> string)
    requires alignment > 0
    ensures FileOf(p, alignment, hash).name == FileOf(q, alignment, hash).name <==>
            hash(Bytes(p, alignment)) == hash(Bytes(q, alignment))
  {
    NameInjective(hash(Bytes(p, alignment)), hash(Bytes(q, alignment)));
    hide Bytes, NameOf;
  }

  lemma {:induction false} FileIsOk(group: seq<Tensor>, alignment: nat, hash: seq<Byte> -> string)
    requires alignment > 0 && Hexadecimal(hash) && |Bytes(group, alignment)| > 0
    ensures FileOk(FileOf(group, alignment, hash))
  {
    var h := hash(Bytes(group, alignment));
    assert Digest(h);
    assert Addressed(FileOf(group, alignment, hash), h);
  }

  lemma {:induction false} FilesOkIff(groups: seq<seq<Tensor>>, target: nat, alignment: nat, hash: seq<Byte> -> string)
    requires alignment > 0 && Hexadecimal(hash) && Laid(groups, [], target, alignment)
    ensures FilesOk(FilesOf(groups, alignment, hash)) <==> DistinctHashes(groups, alignment, hash)
  {
    var files := FilesOf(groups, alignment, hash);
    forall g | 0 <= g < |files| ensures FileOk(files[g]) {
      ShardNotEmpty(groups, target, alignment, g);
      FileIsOk(groups[g], alignment, hash);
    }
    hide FileOk, FileOf, Bytes, Laid;
    forall g, h | 0 <= g < h < |groups|
      ensures files[g].name != files[h].name <==>
              hash(Bytes(groups[g], alignment)) != hash(Bytes(groups[h], alignment))
    {
      SameNameSameHash(groups[g], groups[h], alignment, hash);
    }
    if FilesOk(files) {
      forall g, h | 0 <= g < h < |groups|
        ensures hash(Bytes(groups[g], alignment)) != hash(Bytes(groups[h], alignment))
      {
        assert files[g].name != files[h].name;
      }
    }
  }

  lemma {:induction false} ShardNotEmpty(groups: seq<seq<Tensor>>, target: nat, alignment: nat, g: nat)
    requires alignment > 0 && Laid(groups, [], target, alignment) && g < |groups|
    ensures groups[g] != [] && |Bytes(groups[g], alignment)| > 0
  {
    hide Digest;
    assert Bounded(groups[g], target, alignment);
    forall k | 0 <= k < |groups[g]| ensures |groups[g][k].payload| > 0 {
      ProperAt(groups, target, alignment, g, k);
    }
  }

  lemma {:induction false} ProperAt(groups: seq<seq<Tensor>>, target: nat, alignment: nat, g: nat, k: nat)
    requires alignment > 0 && Laid(groups, [], target, alignment) && g < |groups| && k < |groups[g]|
    ensures Proper(groups[g][k])
  {
    hide Proper, Bounded, Distinct;
    Locate(groups, alignment, _ => "", g, k);
    var t := Flat(groups)[|Flat(groups[..g])| + k];
    assert t in Flat(groups) && t in Flat(groups) + [];
  }

  // The file recorded under a shard's name has the shard's size.
  lemma {:induction false} SizeByName(groups: seq<seq<Tensor>>, alignment: nat, hash: seq<Byte> -> string, g: nat)
    requires alignment > 0 && DistinctHashes(groups, alignment, hash) && g < |groups|
    ensures var name, files := FileOf(groups[g], alignment, hash).name, FilesByName(FilesOf(groups, alignment, hash));
            name in files && files[name].size == |Bytes(groups[g], alignment)|
    decreases |groups|
  {
    var n := |groups| - 1;
    var files := FilesOf(groups, alignment, hash);
    assert files[..n] == FilesOf(groups[..n], alignment, hash);
    SameNameSameHash(groups[g], groups[n], alignment, hash);
    if g < n {
      assert forall h :: 0 <= h < n ==> groups[..n][h] == groups[h];
      SizeByName(groups[..n], alignment, hash, g);
    }
  }

  // ---- Entries ----

  lemma {:induction false} EntryOkIff(groups: seq<seq<Tensor>>, target: nat, alignment: nat, hash: seq<Byte> -> string,
                                      i: nat)
    requires alignment > 0 && DistinctHashes(groups, alignment, hash) && Laid(groups, [], target, alignment)
    requires i < |Flat(groups)|
    ensures i < |EntriesOf(groups, alignment, hash)|
    ensures EntryOk(EntriesOf(groups, alignment, hash)[i], alignment,
                    FilesByName(FilesOf(groups, alignment, hash))) <==>
            Shaped(Flat(groups)[i])
  {
    hide Bytes, Laid, FilesByName, FilesOf, FileOf, Flat, EntriesOf, Digest, AlignUp, Padded, DistinctHashes;
    var g, k := Place(groups, alignment, hash, i);
    ProperAt(groups, target, alignment, g, k);
    TensorInShard(groups[g], k, alignment);
    SizeByName(groups, alignment, hash, g);
    var t := Flat(groups)[i];
    DigestIff(t.digest);
    EntryShape(t.rows, t.dimension, t.kind, |t.payload|);
  }

  lemma {:induction false} EntriesApartIf(groups: seq<seq<Tensor>>, target: nat, alignment: nat,
                                          hash: seq<Byte> -> string, i: nat, j: nat)
    requires alignment > 0 && DistinctHashes(groups, alignment, hash) && Laid(groups, [], target, alignment)
    requires i < j < |Flat(groups)|
    ensures j < |EntriesOf(groups, alignment, hash)|
    ensures var a, b := EntriesOf(groups, alignment, hash)[i], EntriesOf(groups, alignment, hash)[j];
            && a.offset >= 0 && a.length > 0 && b.offset >= 0 && b.length > 0
            && (a.shard == b.shard ==> Apart(RangeOf(a, alignment), RangeOf(b, alignment)))
  {
    hide Bytes, Laid, Flat, EntriesOf, Digest, AlignUp, Padded, FileOf, DistinctHashes;
    var g, k := Place(groups, alignment, hash, i);
    var h, l := Place(groups, alignment, hash, j);
    ProperAt(groups, target, alignment, g, k);
    ProperAt(groups, target, alignment, h, l);
    TensorInShard(groups[g], k, alignment);
    TensorInShard(groups[h], l, alignment);
    SameNameSameHash(groups[g], groups[h], alignment, hash);
    SameShard(groups, alignment, hash, g, h);
    if g == h {
      BytesPrefix(groups[g][..l], k + 1, alignment);
      assert groups[g][..l][..k + 1] == groups[g][..k + 1];
      AlignUpShift(|Bytes(groups[g][..k], alignment)|, |groups[g][k].payload|, alignment);
    }
  }

  lemma {:induction false} SameShard(groups: seq<seq<Tensor>>, alignment: nat, hash: seq<Byte> -> string, g: nat,
                                     h: nat)
    requires alignment > 0 && DistinctHashes(groups, alignment, hash) && g < |groups| && h < |groups|
    ensures hash(Bytes(groups[g], alignment)) == hash(Bytes(groups[h], alignment)) ==> g == h
  {
    hide Bytes;
  }

  lemma {:induction false} DigestsDiffer(groups: seq<seq<Tensor>>, target: nat, alignment: nat,
                                         hash: seq<Byte> -> string, i: nat, j: nat)
    requires alignment > 0 && Laid(groups, [], target, alignment) && i < j < |Flat(groups)|
    ensures j < |EntriesOf(groups, alignment, hash)|
    ensures EntriesOf(groups, alignment, hash)[i].digest != EntriesOf(groups, alignment, hash)[j].digest
  {
    var all := Flat(groups) + [];
    assert all[i].digest != all[j].digest;
    hide Bytes, Laid, Flat, EntriesOf, Digest, FileOf;
    var g, k := Place(groups, alignment, hash, i);
    var h, l := Place(groups, alignment, hash, j);
  }

  /** The published document is accepted if and only if every shape agrees and no two shards have the same hash. */
  lemma {:induction false} WrittenAccepted(groups: seq<seq<Tensor>>, target: nat, alignment: nat,
                                           hash: seq<Byte> -> string)
    requires alignment > 0 && PowerOfTwo(alignment) && Hexadecimal(hash)
    requires groups != [] && Laid(groups, [], target, alignment)
    ensures WellFormed(DocumentOf(groups, alignment, hash)) <==>
            DistinctHashes(groups, alignment, hash) && AllShaped(Flat(groups))
  {
    var d := DocumentOf(groups, alignment, hash);
    NoEntries(groups, target, alignment, hash);
    FilesOkIff(groups, target, alignment, hash);
    hide *;
    DocumentIs(groups, alignment, hash);
    if DistinctHashes(groups, alignment, hash) { EntriesAccepted(groups, target, alignment, hash); }
    WellFormedIs(d);
  }

  // With distinct hashes only the shapes are left to check.
  lemma {:induction false} EntriesAccepted(groups: seq<seq<Tensor>>, target: nat, alignment: nat,
                                           hash: seq<Byte> -> string)
    requires alignment > 0 && DistinctHashes(groups, alignment, hash) && Laid(groups, [], target, alignment)
    ensures var d := DocumentOf(groups, alignment, hash);
            EntriesOk(d.entries, alignment, FilesByName(d.shards)) <==> AllShaped(Flat(groups))
    ensures var d := DocumentOf(groups, alignment, hash);
            EntriesOk(d.entries, alignment, FilesByName(d.shards)) ==> EntriesApart(d.entries, alignment)
  {
    hide *;
    var d := DocumentOf(groups, alignment, hash);
    var files := FilesByName(d.shards);
    DocumentIs(groups, alignment, hash);
    SameCount(groups, alignment, hash);
    forall i | 0 <= i < |Flat(groups)| ensures EntryOk(d.entries[i], alignment, files) <==> Shaped(Flat(groups)[i]) {
      EntryOkIff(groups, target, alignment, hash, i);
    }
    forall i, j | 0 <= i < j < |Flat(groups)| ensures d.entries[i].digest != d.entries[j].digest {
      DigestsDiffer(groups, target, alignment, hash, i, j);
    }
    EntriesOkFrom(d.entries, Flat(groups), alignment, files);
    if EntriesOk(d.entries, alignment, files) {
      EntriesInShards(d.entries, alignment, files);
      forall i, j | 0 <= i < j < |d.entries| && d.entries[i].shard == d.entries[j].shard
        ensures Apart(RangeOf(d.entries[i], alignment), RangeOf(d.entries[j], alignment))
      {
        EntriesApartIf(groups, target, alignment, hash, i, j);
      }
      ApartFrom(d.entries, alignment);
    }
  }

  /** When the hash tells these shards apart: accepted if and only if all shapes agree and no two shards are equal. */
  lemma {:induction false} WrittenAcceptedByBytes(groups: seq<seq<Tensor>>, target: nat, alignment: nat,
                                                  hash: seq<Byte> -> string)
    requires alignment > 0 && PowerOfTwo(alignment) && Hexadecimal(hash) && Separates(groups, alignment, hash)
    requires groups != [] && Laid(groups, [], target, alignment)
    ensures WellFormed(DocumentOf(groups, alignment, hash)) <==>
            DifferentShards(groups, alignment) && AllShaped(Flat(groups))
  {
    WrittenAccepted(groups, target, alignment, hash);
    hide Bytes, Laid, WellFormed, AllShaped;
    if DifferentShards(groups, alignment) {
      forall g, h | 0 <= g < h < |groups|
        ensures hash(Bytes(groups[g], alignment)) != hash(Bytes(groups[h], alignment))
      {
        assert Bytes(groups[g], alignment) != Bytes(groups[h], alignment);
      }
    }
    if DistinctHashes(groups, alignment, hash) {
      forall g, h | 0 <= g < h < |groups| ensures Bytes(groups[g], alignment) != Bytes(groups[h], alignment) {
        assert hash(Bytes(groups[g], alignment)) != hash(Bytes(groups[h], alignment));
      }
    }
  }

  lemma {:induction false} DocumentIs(groups: seq<seq<Tensor>>, alignment: nat, hash: seq<Byte> -> string)
    requires alignment > 0
    ensures var d := DocumentOf(groups, alignment, hash);
            && d.format == FORMAT && d.version == VERSION && d.alignment == alignment
            && d.shards == FilesOf(groups, alignment, hash) && d.entries == EntriesOf(groups, alignment, hash)
  {
  }

  lemma {:induction false} EntriesOkFrom(entries: seq<Entry>, ts: seq<Tensor>, alignment: nat, files: map<string, File>)
    requires alignment > 0 && |entries| == |ts|
    requires forall i :: 0 <= i < |ts| ==> (EntryOk(entries[i], alignment, files) <==> Shaped(ts[i]))
    requires forall i, j :: 0 <= i < j < |ts| ==> entries[i].digest != entries[j].digest
    ensures EntriesOk(entries, alignment, files) <==> AllShaped(ts)
  {
    hide EntryOk, Shaped;
  }

  lemma {:induction false} ApartFrom(entries: seq<Entry>, alignment: nat)
    requires alignment > 0 && forall k :: 0 <= k < |entries| ==> entries[k].offset >= 0 && entries[k].length > 0
    requires forall i, j :: 0 <= i < j < |entries| && entries[i].shard == entries[j].shard ==>
               Apart(RangeOf(entries[i], alignment), RangeOf(entries[j], alignment))
    ensures EntriesApart(entries, alignment)
  {
  }

  lemma {:induction false} WellFormedIs(d: Document)
    requires d.format == FORMAT && d.version == VERSION && d.alignment > 0 && PowerOfTwo(d.alignment) && d.entries != []
    ensures WellFormed(d) <==>
            && FilesOk(d.shards) && EntriesOk(d.entries, d.alignment, FilesByName(d.shards))
            && EntriesApart(d.entries, d.alignment)
  {
    hide FilesOk, EntryOk, FilesByName, EntriesApart;
  }

  /** Each tensor's bytes are in its file at its entry's range, if the file is the shard's own. */
  lemma {:induction false} WrittenBytes(groups: seq<seq<Tensor>>, files: map<string, seq<Byte>>, target: nat,
                                        alignment: nat, hash: seq<Byte> -> string, i: nat)
    requires alignment > 0 && Laid(groups, [], target, alignment) && i < |Flat(groups)|
    requires forall g :: 0 <= g < |groups| ==> Intact(groups[g], files, alignment, hash)
    ensures i < |EntriesOf(groups, alignment, hash)|
    ensures var e, t := EntriesOf(groups, alignment, hash)[i], Flat(groups)[i];
            && e.digest == t.digest && e.shard in files && 0 <= e.offset && e.length == |t.payload|
            && e.offset + e.length <= |files[e.shard]| && files[e.shard][e.offset..e.offset + e.length] == t.payload
  {
    hide Bytes, Laid, Flat, EntriesOf, FileOf;
    var g, k := Place(groups, alignment, hash, i);
    assert Intact(groups[g], files, alignment, hash);
    TensorInShard(groups[g], k, alignment);
  }

  // ---- Examples ----

  /** Sixty-four times the same digit. */
  function Digits(c: char): (s: string)
    ensures |s| == 64
  {
    seq(64, _ => c)
  }

  /** A hash that looks at the first byte only. */
  function FirstByteHash(b: seq<Byte>): string {
    if b != [] && b[0] >= 128 then Digits('1') else Digits('0')
  }

  function RowOf(digest: string, payload: seq<Byte>): Tensor {
    Tensor(digest, payload, 1, |payload| / 2, Float16)
  }

  lemma {:induction false} OneByOne(t: Tensor, alignment: nat)
    requires alignment > 0
    ensures Bytes([t], alignment) == Padded(t, alignment) && Flat([[t]]) == [t]
  {
    assert [t][..0] == [];
    assert Bytes([t], alignment) == Bytes([], alignment) + Padded(t, alignment);
    assert [[t]][..0] == [] && Flat([[t]]) == Flat([]) + [t];
  }

  lemma {:induction false} TwoShards(a: Tensor, b: Tensor, target: nat, alignment: nat)
    requires alignment > 0 && Proper(a) && Proper(b) && a.digest != b.digest
    ensures Flat([[a], [b]]) == [a, b] && Laid([[a], [b]], [], target, alignment)
  {
    OneByOne(a, alignment);
    OneByOne(b, alignment);
    assert [[a], [b]][..1] == [[a]];
    assert Flat([[a], [b]]) == Flat([[a]]) + [b] == [a, b];
    assert [a, b] + [] == [a, b];
    hide Bytes, Flat, Proper;
  }

  lemma {:induction false} RowProper(digest: string, payload: seq<Byte>)
    requires Digest(digest) && |payload| >= 2 && |payload| % 2 == 0
    ensures Proper(RowOf(digest, payload)) && Shaped(RowOf(digest, payload))
  {
  }

  /** Two shards with distinct hashes, and a document that is accepted. */
  lemma {:induction false} AcceptedExample() returns (groups: seq<seq<Tensor>>)
    ensures groups != [] && PowerOfTwo(1) && Hexadecimal(FirstByteHash) && Laid(groups, [], 2, 1)
    ensures Separates(groups, 1, FirstByteHash) && DistinctHashes(groups, 1, FirstByteHash)
    ensures WellFormed(DocumentOf(groups, 1, FirstByteHash))
  {
    var a, b := RowOf(Digits('0'), [1, 1]), RowOf(Digits('1'), [200, 200]);
    groups := [[a], [b]];
    assert Digits('0')[0] != Digits('1')[0];
    assert Hexadecimal(FirstByteHash);
    RowProper(Digits('0'), [1, 1]);
    RowProper(Digits('1'), [200, 200]);
    TwoShards(a, b, 2, 1);
    OneByOne(a, 1);
    OneByOne(b, 1);
    assert Padded(a, 1)[..2] == a.payload && Padded(b, 1)[..2] == b.payload;
    assert Padded(a, 1)[0] == Padded(a, 1)[..2][0] == 1 && Padded(b, 1)[0] == Padded(b, 1)[..2][0] == 200;
    assert AllShaped(Flat(groups)) by { hide Bytes, Padded; }
    hide Bytes, Padded, Laid, Flat, WellFormed, AllShaped;
    WrittenAccepted(groups, 2, 1, FirstByteHash);
  }

  /** Two different tensors whose padded bytes are equal: the writer publishes what the index refuses. */
  lemma {:induction false} RefusedExample(hash: seq<Byte> -> string) returns (groups: seq<seq<Tensor>>)
    requires Hexadecimal(hash)
    ensures groups != [] && PowerOfTwo(4) && Laid(groups, [], 4, 4) && AllShaped(Flat(groups))
    ensures !DifferentShards(groups, 4) && !WellFormed(DocumentOf(groups, 4, hash))
  {
    var a, b := RowOf(Digits('0'), [7, 0]), RowOf(Digits('1'), [7, 0, 0, 0]);
    groups := [[a], [b]];
    assert Digits('0')[0] != Digits('1')[0];
    RowProper(Digits('0'), [7, 0]);
    RowProper(Digits('1'), [7, 0, 0, 0]);
    TwoShards(a, b, 4, 4);
    OneByOne(a, 4);
    OneByOne(b, 4);
    assert AlignUp(2, 4) == 4 && AlignUp(4, 4) == 4;
    assert Padded(a, 4) == [7, 0, 0, 0] == Padded(b, 4);
    assert AllShaped(Flat(groups)) by { hide Bytes, Padded; }
    assert Bytes(groups[0], 4) == Bytes(groups[1], 4);
    hide Bytes, Padded, Laid, Flat, WellFormed, AllShaped;
    WrittenAccepted(groups, 4, 4, hash);
  }
}
