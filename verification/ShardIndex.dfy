/** The index of a shard generation: which documents are accepted, and that every written document is. */
module ShardIndex {
  import opened Shards

  datatype Index = Index(alignment: nat, shards: map<string, File>, entries: map<string, Entry>)

  datatype Parsed = Accepted(index: Index) | Rejected

  predicate StartsWith(s: string, prefix: string) {
    |prefix| <= |s| && s[..|prefix|] == prefix
  }

  predicate NoSlash(s: string) {
    forall k :: 0 <= k < |s| ==> s[k] != '/'
  }

  const DIRECTORY_LENGTH: nat := 7

  /** The checks made of a shard's name, size and checksum. */
  predicate FileChecks(f: File) {
    && StartsWith(f.name, PREFIX) && |f.name| >= DIRECTORY_LENGTH && NoSlash(f.name[DIRECTORY_LENGTH..])
    && f.size > 0
    && StartsWith(f.checksum, CHECK_PREFIX)
    && f.name == NameOf(f.checksum[|CHECK_PREFIX|..])
  }

  /** A shard: content-addressed by digits that hold no slash. */
  ghost predicate FileOk(f: File) {
    f.size > 0 && exists digits :: Addressed(f, digits)
  }

  ghost predicate Addressed(f: File, digits: string) {
    && f.checksum == "sha256:" + digits && f.name == "shards/sha256-" + digits + ".vts"
    && forall k :: 0 <= k < |digits| ==> digits[k] != '/'
  }

  lemma {:induction false} FileChecksIff(f: File)
    ensures FileChecks(f) <==> FileOk(f)
  {
    if FileChecks(f) {
      var digits := f.checksum[|CHECK_PREFIX|..];
      assert f.checksum == CHECK_PREFIX + digits;
      var rest := f.name[DIRECTORY_LENGTH..];
      assert forall k :: 0 <= k < |digits| ==> digits[k] == rest[7 + k];
      assert Addressed(f, digits);
    }
    if digits :| f.size > 0 && Addressed(f, digits) {
      assert f.checksum[|CHECK_PREFIX|..] == digits;
      assert f.name == PREFIX + digits + SUFFIX && StartsWith(f.name, PREFIX);
      assert f.name[DIRECTORY_LENGTH..] == "sha256-" + digits + ".vts";
    }
  }

  function ScalarBytes(k: Kind): nat {
    if k == Float16 then 2 else 4
  }

  /** A tensor of some rows and columns, aligned and inside its shard. */
  ghost predicate EntryOk(e: Entry, alignment: nat, shards: map<string, File>)
    requires alignment > 0
  {
    && |e.digest| == 64 && (forall k :: 0 <= k < 64 ==> e.digest[k] in "0123456789abcdef")
    && e.shard in shards && e.offset >= 0 && e.offset % alignment == 0 && e.rows > 0 && e.dimension > 0 && e.length > 0
    && (|| (e.kind == Float16 && e.length == 2 * (e.rows * e.dimension))
        || (e.kind == Float32 && e.length == 4 * (e.rows * e.dimension)))
    && e.offset + e.length <= shards[e.shard].size
  }

  lemma {:induction false} DigestIff(s: string)
    ensures Digest(s) <==> |s| == 64 && forall k :: 0 <= k < 64 ==> s[k] in "0123456789abcdef"
  {
    if |s| == 64 {
      forall k | 0 <= k < 64 ensures Hex(s[k]) <==> s[k] in "0123456789abcdef" {
        HexIff(s[k]);
      }
    }
  }

  lemma {:induction false} HexIff(c: char)
    ensures Hex(c) <==> c in "0123456789abcdef"
  {
    var digits := "0123456789abcdef";
    if '0' <= c <= '9' {
      assert digits[c as int - '0' as int] == c;
    } else if 'a' <= c <= 'f' {
      assert digits[10 + c as int - 'a' as int] == c;
    }
  }

  /** An entry's length agrees with its shape. */
  lemma {:induction false} EntryShape(rows: int, dimension: int, kind: Kind, length: int)
    requires rows > 0 && dimension > 0
    ensures kind != OtherKind && length == rows * dimension * ScalarBytes(kind) <==>
            || (kind == Float16 && length == 2 * (rows * dimension))
            || (kind == Float32 && length == 4 * (rows * dimension))
  {
  }

  /** The checks made of an entry. */
  predicate EntryChecks(e: Entry, alignment: nat, shards: map<string, File>)
    requires alignment > 0
  {
    && Digest(e.digest) && e.shard in shards
    && e.offset >= 0 && e.offset % alignment == 0 && e.length > 0
    && e.rows > 0 && e.dimension > 0 && e.kind != OtherKind
    && e.length == e.rows * e.dimension * ScalarBytes(e.kind)
    && e.offset + e.length <= shards[e.shard].size
  }

  lemma {:induction false} EntryChecksIff(e: Entry, alignment: nat, shards: map<string, File>)
    requires alignment > 0
    ensures EntryChecks(e, alignment, shards) <==> EntryOk(e, alignment, shards)
  {
    hide Digest, ScalarBytes;
    DigestIff(e.digest);
    if e.rows > 0 && e.dimension > 0 { EntryShape(e.rows, e.dimension, e.kind, e.length); }
  }

  /** A padded byte range. */
  datatype Range = Range(start: nat, end: nat)

  predicate Apart(a: Range, b: Range) {
    a.end <= b.start || b.end <= a.start
  }

  function RangeOf(e: Entry, alignment: nat): Range
    requires alignment > 0 && e.offset >= 0 && e.length > 0
  {
    Range(e.offset, AlignUp(e.offset + e.length, alignment))
  }

  function FilesByName(files: seq<File>): map<string, File> {
    if files == [] then map[] else FilesByName(files[..|files| - 1])[files[|files| - 1].name := files[|files| - 1]]
  }

  function EntriesByDigest(entries: seq<Entry>): map<string, Entry> {
    if entries == [] then map[]
      else EntriesByDigest(entries[..|entries| - 1])[entries[|entries| - 1].digest := entries[|entries| - 1]]
  }

  ghost predicate FilesOk(files: seq<File>) {
    && (forall k :: 0 <= k < |files| ==> FileOk(files[k]))
    && forall a, b :: 0 <= a < b < |files| ==> files[a].name != files[b].name
  }

  ghost predicate EntriesOk(entries: seq<Entry>, alignment: nat, shards: map<string, File>)
    requires alignment > 0
  {
    && (forall k :: 0 <= k < |entries| ==> EntryOk(entries[k], alignment, shards))
    && forall a, b :: 0 <= a < b < |entries| ==> entries[a].digest != entries[b].digest
  }

  /** No two entries of one shard share a byte of their padded ranges. */
  ghost predicate EntriesApart(entries: seq<Entry>, alignment: nat)
    requires alignment > 0 && forall k :: 0 <= k < |entries| ==> entries[k].offset >= 0 && entries[k].length > 0
  {
    forall a, b :: 0 <= a < b < |entries| && entries[a].shard == entries[b].shard ==>
      Apart(RangeOf(entries[a], alignment), RangeOf(entries[b], alignment))
  }

  /** What makes a document a valid index. */
  ghost predicate WellFormed(d: Document) {
    && d.format == FORMAT && d.version == VERSION
    && d.alignment > 0 && PowerOfTwo(d.alignment)
    && FilesOk(d.shards) && d.entries != []
    && EntriesOk(d.entries, d.alignment, FilesByName(d.shards))
    && EntriesApart(d.entries, d.alignment)
  }

  function IndexOf(d: Document): Index
    requires d.alignment > 0
  {
    Index(d.alignment, FilesByName(d.shards), EntriesByDigest(d.entries))
  }

  // ---- Overlap check ----

  ghost predicate AllApart(rs: seq<Range>) {
    forall a, b :: 0 <= a < b < |rs| ==> Apart(rs[a], rs[b])
  }

  ghost predicate Filled(rs: seq<Range>) {
    forall k :: 0 <= k < |rs| ==> rs[k].start < rs[k].end
  }

  ghost predicate ByStart(rs: seq<Range>) {
    forall a, b :: 0 <= a < b < |rs| ==> rs[a].start <= rs[b].start
  }

  lemma {:induction false} ApartInsert(rs: seq<Range>, at: nat, r: Range)
    requires at <= |rs|
    ensures AllApart(rs[..at] + [r] + rs[at..]) <==> AllApart(rs) && ClearOf(rs, r)
  {
    var s := rs[..at] + [r] + rs[at..];
    if AllApart(s) {
      forall a, b | 0 <= a < b < |rs| ensures Apart(rs[a], rs[b]) {
        assert rs[a] == s[if a < at then a else a + 1] && rs[b] == s[if b < at then b else b + 1];
      }
      forall k | 0 <= k < |rs| ensures Apart(rs[k], r) {
        assert rs[k] == s[if k < at then k else k + 1] && r == s[at];
      }
    }
    if AllApart(rs) && ClearOf(rs, r) {
      forall a, b | 0 <= a < b < |s| ensures Apart(s[a], s[b]) {
        assert s[a] == if a < at then rs[a] else if a == at then r else rs[a - 1];
        assert s[b] == if b < at then rs[b] else if b == at then r else rs[b - 1];
      }
    }
  }

  lemma {:induction false} ApartAppend(rs: seq<Range>, r: Range)
    ensures AllApart(rs + [r]) <==> AllApart(rs) && ClearOf(rs, r)
  {
    ApartInsert(rs, |rs|, r);
    assert rs[..|rs|] + [r] + rs[|rs|..] == rs + [r];
  }

  /** Insertion sort by start; whether all ranges are apart does not change. */
  method SortRanges(rs: seq<Range>) returns (sorted: seq<Range>)
    requires Filled(rs)
    ensures ByStart(sorted) && Filled(sorted) && (AllApart(sorted) <==> AllApart(rs))
  {
    sorted := [];
    for k := 0 to |rs|
      invariant ByStart(sorted) && Filled(sorted) && (AllApart(sorted) <==> AllApart(rs[..k]))
      invariant forall r :: r in sorted <==> r in rs[..k]
    {
      var r := rs[k];
      var at := |sorted|;
      while at > 0 && sorted[at - 1].start > r.start
        invariant 0 <= at <= |sorted| && forall j :: at <= j < |sorted| ==> sorted[j].start > r.start
      {
        at := at - 1;
      }
      Inserted(rs, k, sorted, at);
      sorted := sorted[..at] + [r] + sorted[at..];
    }
    assert rs[..|rs|] == rs;
  }

  lemma {:induction false} Inserted(rs: seq<Range>, k: nat, sorted: seq<Range>, at: nat)
    requires Filled(rs) && k < |rs| && at <= |sorted|
    requires ByStart(sorted) && Filled(sorted) && (AllApart(sorted) <==> AllApart(rs[..k]))
    requires forall r :: r in sorted <==> r in rs[..k]
    requires (at > 0 ==> sorted[at - 1].start <= rs[k].start) && forall j :: at <= j < |sorted| ==>
               sorted[j].start > rs[k].start
    ensures var s := sorted[..at] + [rs[k]] + sorted[at..];
            && ByStart(s) && Filled(s) && (AllApart(s) <==> AllApart(rs[..k + 1]))
            && forall r :: r in s <==> r in rs[..k + 1]
  {
    hide AllApart, Filled, ByStart;
    InsertedOrder(sorted, at, rs[k], rs);
    InsertedMembers(rs, k, sorted, at);
    InsertedApart(rs, k, sorted, at);
  }

  lemma {:induction false} InsertedOrder(sorted: seq<Range>, at: nat, r: Range, rs: seq<Range>)
    requires at <= |sorted| && ByStart(sorted) && Filled(sorted) && Filled(rs) && r in rs
    requires (at > 0 ==> sorted[at - 1].start <= r.start) && forall j :: at <= j < |sorted| ==>
               sorted[j].start > r.start
    ensures ByStart(sorted[..at] + [r] + sorted[at..]) && Filled(sorted[..at] + [r] + sorted[at..])
  {
    var s := sorted[..at] + [r] + sorted[at..];
    forall k | 0 <= k < |s| ensures s[k] == if k < at then sorted[k] else if k == at then r else sorted[k - 1] {
    }
  }

  lemma {:induction false} InsertedMembers(rs: seq<Range>, k: nat, sorted: seq<Range>, at: nat)
    requires k < |rs| && at <= |sorted| && forall r :: r in sorted <==> r in rs[..k]
    ensures forall r :: r in sorted[..at] + [rs[k]] + sorted[at..] <==> r in rs[..k + 1]
  {
    assert rs[..k + 1] == rs[..k] + [rs[k]];
    assert sorted == sorted[..at] + sorted[at..];
    forall r ensures r in sorted[..at] + [rs[k]] + sorted[at..] <==> r in sorted || r == rs[k] {
      assert r in sorted <==> r in sorted[..at] || r in sorted[at..];
    }
  }

  lemma {:induction false} InsertedApart(rs: seq<Range>, k: nat, sorted: seq<Range>, at: nat)
    requires k < |rs| && at <= |sorted| && (AllApart(sorted) <==> AllApart(rs[..k]))
    requires forall r :: r in sorted <==> r in rs[..k]
    ensures AllApart(sorted[..at] + [rs[k]] + sorted[at..]) <==> AllApart(rs[..k + 1])
  {
    hide AllApart;
    var r := rs[k];
    assert rs[..k + 1] == rs[..k] + [r];
    ApartInsert(sorted, at, r);
    ApartAppend(rs[..k], r);
    SameMembers(sorted, rs[..k], r);
  }

  lemma {:induction false} SameMembers(a: seq<Range>, b: seq<Range>, r: Range)
    requires forall x :: x in a <==> x in b
    ensures ClearOf(a, r) <==> ClearOf(b, r)
  {
    if ClearOf(a, r) {
      forall j | 0 <= j < |b| ensures Apart(b[j], r) { assert b[j] in b && b[j] in a; }
    }
    if ClearOf(b, r) {
      forall j | 0 <= j < |a| ensures Apart(a[j], r) { assert a[j] in a && a[j] in b; }
    }
  }

  /** The check walks the sorted ranges once and compares neighbours only. */
  method NoOverlap(rs: seq<Range>) returns (ok: bool)
    requires Filled(rs)
    ensures ok <==> AllApart(rs)
  {
    var sorted := SortRanges(rs);
    var previous := 0;
    for k := 0 to |sorted|
      invariant AllApart(sorted[..k])
      invariant k == 0 ==> previous == 0
      invariant k > 0 ==> previous == sorted[k - 1].end
      invariant forall j :: 0 <= j < k ==> sorted[j].end <= previous
    {
      var r := sorted[k];
      if r.start < previous {
        assert !Apart(sorted[k - 1], sorted[k]);
        return false;
      }
      assert sorted[..k + 1] == sorted[..k] + [r];
      previous := r.end;
    }
    assert sorted[..|sorted|] == sorted;
    return true;
  }

  // ---- Ranges of a shard ----

  function RangesOf(entries: seq<Entry>, shard: string, alignment: nat): seq<Range>
    requires alignment > 0 && forall k :: 0 <= k < |entries| ==> entries[k].offset >= 0 && entries[k].length > 0
  {
    if entries == [] then [] else
      var n := |entries| - 1;
      RangesOf(entries[..n], shard, alignment) + if entries[n].shard == shard then [RangeOf(entries[n], alignment)]
        else []
  }

  lemma {:induction false} RangesFilled(entries: seq<Entry>, shard: string, alignment: nat)
    requires alignment > 0 && forall k :: 0 <= k < |entries| ==> entries[k].offset >= 0 && entries[k].length > 0
    ensures Filled(RangesOf(entries, shard, alignment))
    decreases |entries|
  {
    if entries == [] {
    } else {
      RangesFilled(entries[..|entries| - 1], shard, alignment);
    }
  }

  /** Every range is apart from `r`. */
  ghost predicate ClearOf(rs: seq<Range>, r: Range) {
    forall k :: 0 <= k < |rs| ==> Apart(rs[k], r)
  }

  /** Every entry of the shard is apart from `r`. */
  ghost predicate EntriesClearOf(entries: seq<Entry>, shard: string, alignment: nat, r: Range)
    requires alignment > 0 && forall k :: 0 <= k < |entries| ==> entries[k].offset >= 0 && entries[k].length > 0
  {
    forall k :: 0 <= k < |entries| && entries[k].shard == shard ==> Apart(RangeOf(entries[k], alignment), r)
  }

  lemma {:induction false} EntriesClearLast(entries: seq<Entry>, shard: string, alignment: nat, r: Range)
    requires alignment > 0 && forall k :: 0 <= k < |entries| ==> entries[k].offset >= 0 && entries[k].length > 0
    requires entries != []
    ensures var n := |entries| - 1;
            EntriesClearOf(entries, shard, alignment, r) <==>
            && EntriesClearOf(entries[..n], shard, alignment, r)
            && (entries[n].shard == shard ==> Apart(RangeOf(entries[n], alignment), r))
  {
    hide RangeOf, Apart;
    var n := |entries| - 1;
    if EntriesClearOf(entries, shard, alignment, r) {
      forall k | 0 <= k < n && entries[..n][k].shard == shard ensures Apart(RangeOf(entries[..n][k], alignment), r) {
        assert entries[..n][k] == entries[k];
      }
    }
    if EntriesClearOf(entries[..n], shard, alignment, r) {
      forall k | 0 <= k < n && entries[k].shard == shard ensures Apart(RangeOf(entries[k], alignment), r) {
        assert entries[..n][k] == entries[k];
      }
    }
  }

  lemma {:induction false} ClearLast(rs: seq<Range>, last: Range, r: Range)
    ensures ClearOf(rs + [last], r) <==> ClearOf(rs, r) && Apart(last, r)
  {
    hide Apart;
    var all := rs + [last];
    assert all[|rs|] == last && forall k :: 0 <= k < |rs| ==> all[k] == rs[k];
  }

  lemma {:induction false} RangesAvoid(entries: seq<Entry>, shard: string, alignment: nat, r: Range)
    requires alignment > 0 && forall k :: 0 <= k < |entries| ==> entries[k].offset >= 0 && entries[k].length > 0
    ensures ClearOf(RangesOf(entries, shard, alignment), r) <==> EntriesClearOf(entries, shard, alignment, r)
    decreases |entries|
  {
    if entries == [] {
    } else {
      var n := |entries| - 1;
      var rest, last := RangesOf(entries[..n], shard, alignment), RangeOf(entries[n], alignment);
      assert RangesOf(entries, shard, alignment) == rest + if entries[n].shard == shard then [last] else [];
      assert rest + [] == rest;
      hide RangesOf, RangeOf, Apart, ClearOf, EntriesClearOf;
      RangesAvoid(entries[..n], shard, alignment, r);
      EntriesClearLast(entries, shard, alignment, r);
      ClearLast(rest, last, r);
    }
  }

  // What the last entry adds to the check of one shard.
  lemma {:induction false} ShardNext(entries: seq<Entry>, shard: string, alignment: nat)
    requires alignment > 0 && forall k :: 0 <= k < |entries| ==> entries[k].offset >= 0 && entries[k].length > 0
    requires entries != []
    ensures var n := |entries| - 1;
            AllApart(RangesOf(entries, shard, alignment)) <==>
            && AllApart(RangesOf(entries[..n], shard, alignment))
            && (entries[n].shard == shard ==>
                  EntriesClearOf(entries[..n], shard, alignment, RangeOf(entries[n], alignment)))
  {
    var n := |entries| - 1;
    var rest, last := RangesOf(entries[..n], shard, alignment), RangeOf(entries[n], alignment);
    assert RangesOf(entries, shard, alignment) == rest + if entries[n].shard == shard then [last] else [];
    assert rest + [] == rest;
    hide AllApart, RangesOf, RangeOf, ClearOf, EntriesClearOf;
    RangesAvoid(entries[..n], shard, alignment, last);
    ApartAppend(rest, last);
  }

  /** Ranges apart in every shard are entries apart. */
  lemma {:induction false} ShardsApart(entries: seq<Entry>, names: set<string>, alignment: nat)
    requires alignment > 0 && forall k :: 0 <= k < |entries| ==> entries[k].offset >= 0 && entries[k].length > 0
    requires forall k :: 0 <= k < |entries| ==> entries[k].shard in names
    ensures (forall shard :: shard in names ==> AllApart(RangesOf(entries, shard, alignment)))
            <==> EntriesApart(entries, alignment)
    decreases |entries|
  {
    if entries == [] {
    } else {
      hide AllApart, EntriesApart, RangeOf, RangesOf, EntriesClearOf;
      var n := |entries| - 1;
      assert entries[n].shard in names;
      ShardsApart(entries[..n], names, alignment);
      LastApart(entries, alignment);
      forall shard | shard in names
        ensures AllApart(RangesOf(entries, shard, alignment)) <==>
                && AllApart(RangesOf(entries[..n], shard, alignment))
                && (entries[n].shard == shard ==>
                      EntriesClearOf(entries[..n], shard, alignment, RangeOf(entries[n], alignment)))
      {
        ShardNext(entries, shard, alignment);
      }
    }
  }

  lemma {:induction false} LastApart(entries: seq<Entry>, alignment: nat)
    requires alignment > 0 && forall k :: 0 <= k < |entries| ==> entries[k].offset >= 0 && entries[k].length > 0
    requires entries != []
    ensures var n := |entries| - 1;
            EntriesApart(entries, alignment) <==>
            && EntriesApart(entries[..n], alignment)
            && EntriesClearOf(entries[..n], entries[n].shard, alignment, RangeOf(entries[n], alignment))
  {
    hide RangeOf, Apart;
    var n := |entries| - 1;
    var p, r := entries[..n], RangeOf(entries[n], alignment);
    assert forall k :: 0 <= k < n ==> p[k] == entries[k];
    if EntriesApart(p, alignment) && EntriesClearOf(p, entries[n].shard, alignment, r) {
      forall a, b | 0 <= a < b < |entries| && entries[a].shard == entries[b].shard
        ensures Apart(RangeOf(entries[a], alignment), RangeOf(entries[b], alignment))
      {
        assert p[a] == entries[a];
        if b < n { assert p[b] == entries[b]; }
      }
    }
  }

  // ---- Parsing ----

  lemma {:induction false} FilesByNameKeys(files: seq<File>, name: string)
    ensures name in FilesByName(files) <==> exists k :: 0 <= k < |files| && files[k].name == name
    decreases |files|
  {
    if files == [] {
    } else {
      var n := |files| - 1;
      FilesByNameKeys(files[..n], name);
      if k :| 0 <= k < |files| && files[k].name == name {
        if k < n { assert files[..n][k].name == name; }
      }
      if k :| 0 <= k < n && files[..n][k].name == name { assert files[k].name == name; }
      assert files[n].name == name ==> exists k :: 0 <= k < |files| && files[k].name == name;
    }
  }

  lemma {:induction false} EntriesByDigestKeys(entries: seq<Entry>, digest: string)
    ensures digest in EntriesByDigest(entries) <==> exists k :: 0 <= k < |entries| && entries[k].digest == digest
    decreases |entries|
  {
    if entries == [] {
    } else {
      var n := |entries| - 1;
      EntriesByDigestKeys(entries[..n], digest);
      if k :| 0 <= k < |entries| && entries[k].digest == digest {
        if k < n { assert entries[..n][k].digest == digest; }
      }
      if k :| 0 <= k < n && entries[..n][k].digest == digest { assert entries[k].digest == digest; }
      assert entries[n].digest == digest ==> exists k :: 0 <= k < |entries| && entries[k].digest == digest;
    }
  }

  method ParseShards(raw: seq<File>) returns (ok: bool, shards: map<string, File>)
    ensures ok <==> FilesOk(raw)
    ensures ok ==> shards == FilesByName(raw)
  {
    shards := map[];
    NoFiles(raw);
    hide *;
    for k := 0 to |raw|
      invariant FilesOk(raw[..k]) && shards == FilesByName(raw[..k])
    {
      FilesByNameKeys(raw[..k], raw[k].name);
      FilesOkNext(raw, k);
      FileChecksIff(raw[k]);
      if !FileChecks(raw[k]) || raw[k].name in shards { return false, shards; }
      NextFile(raw, k);
      shards := shards[raw[k].name := raw[k]];
    }
    assert raw[..|raw|] == raw;
    ok := true;
  }

  lemma {:induction false} NoFiles(raw: seq<File>)
    ensures FilesOk(raw[..0]) && FilesByName(raw[..0]) == map[]
  {
  }

  lemma {:induction false} NextFile(raw: seq<File>, k: nat)
    requires k < |raw|
    ensures FilesByName(raw[..k + 1]) == FilesByName(raw[..k])[raw[k].name := raw[k]]
  {
    assert raw[..k + 1][..k] == raw[..k];
  }

  lemma {:induction false} FilesOkNext(raw: seq<File>, k: nat)
    requires k < |raw| && FilesOk(raw[..k])
    ensures var bad := !FileOk(raw[k]) || exists j :: 0 <= j < |raw[..k]| && raw[..k][j].name == raw[k].name;
            (bad ==> !FilesOk(raw)) && (!bad ==> FilesOk(raw[..k + 1]))
  {
    hide FileOk;
    var p := raw[..k];
    if j :| 0 <= j < |p| && p[j].name == raw[k].name { assert raw[j].name == raw[k].name; }
    var q := raw[..k + 1];
    assert forall j :: 0 <= j < k ==> q[j] == p[j] == raw[j];
    assert q[k] == raw[k];
  }

  method ParseEntries(raw: seq<Entry>, alignment: nat, files: seq<File>, shards: map<string, File>)
    returns (ok: bool, entries: map<string, Entry>, intervals: map<string, seq<Range>>)
    requires alignment > 0 && FilesOk(files) && shards == FilesByName(files)
    ensures ok <==> EntriesOk(raw, alignment, shards)
    ensures ok ==> entries == EntriesByDigest(raw)
    ensures ok ==> forall name :: name in shards ==>
              name in intervals && intervals[name] == RangesOf(raw, name, alignment)
  {
    entries := map[];
    intervals := map name | name in shards :: [];
    for k := 0 to |raw|
      invariant EntriesOk(raw[..k], alignment, shards) && entries == EntriesByDigest(raw[..k])
      invariant forall name :: name in shards ==>
                  name in intervals && intervals[name] == RangesOf(raw[..k], name, alignment)
    {
      var e := raw[k];
      EntriesByDigestKeys(raw[..k], e.digest);
      EntriesOkNext(raw, k, alignment, shards);
      EntryChecksIff(e, alignment, shards);
      if !EntryChecks(e, alignment, shards) || e.digest in entries { return false, entries, intervals; }
      NextEntry(raw, k, alignment, shards);
      hide EntriesOk, EntriesByDigest, RangesOf, AlignUp;
      intervals := intervals[e.shard := intervals[e.shard] + [RangeOf(e, alignment)]];
      entries := entries[e.digest := e];
    }
    assert raw[..|raw|] == raw;
    ok := true;
  }

  lemma {:induction false} NextEntry(raw: seq<Entry>, k: nat, alignment: nat, shards: map<string, File>)
    requires alignment > 0 && k < |raw| && EntriesOk(raw[..k], alignment, shards) && EntryOk(raw[k], alignment, shards)
    requires EntriesOk(raw[..k + 1], alignment, shards)
    ensures EntriesByDigest(raw[..k + 1]) == EntriesByDigest(raw[..k])[raw[k].digest := raw[k]]
    ensures forall name :: RangesOf(raw[..k + 1], name, alignment) ==
                           RangesOf(raw[..k], name, alignment) + if raw[k].shard == name
                             then [RangeOf(raw[k], alignment)] else []
  {
    assert raw[..k + 1][..k] == raw[..k];
    hide EntryOk, RangeOf;
  }

  lemma {:induction false} EntriesOkNext(raw: seq<Entry>, k: nat, alignment: nat, shards: map<string, File>)
    requires alignment > 0 && k < |raw| && EntriesOk(raw[..k], alignment, shards)
    ensures var bad := !EntryOk(raw[k], alignment, shards) || exists j ::
              0 <= j < |raw[..k]| && raw[..k][j].digest == raw[k].digest;
            (bad ==> !EntriesOk(raw, alignment, shards)) && (!bad ==> EntriesOk(raw[..k + 1], alignment, shards))
  {
    hide EntryOk;
    var p := raw[..k];
    if j :| 0 <= j < |p| && p[j].digest == raw[k].digest { assert raw[j].digest == raw[k].digest; }
    var q := raw[..k + 1];
    assert forall j :: 0 <= j < k ==> q[j] == p[j] == raw[j];
    assert q[k] == raw[k];
  }

  lemma {:induction false} EntriesInShards(entries: seq<Entry>, alignment: nat, shards: map<string, File>)
    requires alignment > 0 && EntriesOk(entries, alignment, shards)
    ensures forall k :: 0 <= k < |entries| ==>
              entries[k].offset >= 0 && entries[k].length > 0 && entries[k].shard in shards.Keys
  {
  }

  /** Accepts exactly the well-formed documents, and returns what they say. */
  method ParseIndex(d: Document) returns (r: Parsed)
    ensures r.Accepted? <==> WellFormed(d)
    ensures r.Accepted? ==> r.index == IndexOf(d)
  {
    if d.format != FORMAT || d.version != VERSION { return Rejected; }
    if d.alignment <= 0 || !PowerOfTwo(d.alignment) { return Rejected; }
    hide FilesOk, EntriesOk, RangesOf, EntriesApart, AllApart, PowerOfTwo, FilesByName, EntriesByDigest;
    var ok, shards := ParseShards(d.shards);
    if !ok { return Rejected; }
    var entries, intervals;
    ok, entries, intervals := ParseEntries(d.entries, d.alignment, d.shards, shards);
    if !ok || d.entries == [] { return Rejected; }
    EntriesInShards(d.entries, d.alignment, shards);
    ok := CheckOverlaps(d.shards, d.entries, d.alignment, intervals);
    if !ok { return Rejected; }
    r := Accepted(Index(d.alignment, shards, entries));
  }

  /** Shard by shard, in the order in which they are listed. */
  method CheckOverlaps(files: seq<File>, ghost entries: seq<Entry>, ghost alignment: nat, intervals: map<string,
                       seq<Range>>)
    returns (ok: bool)
    requires alignment > 0 && forall k :: 0 <= k < |entries| ==> entries[k].offset >= 0 && entries[k].length > 0
    requires forall k :: 0 <= k < |entries| ==> entries[k].shard in FilesByName(files).Keys
    requires forall name :: name in FilesByName(files) ==>
               name in intervals && intervals[name] == RangesOf(entries, name, alignment)
    ensures ok <==> EntriesApart(entries, alignment)
  {
    ghost var names := FilesByName(files).Keys;
    hide *;
    ShardsApart(entries, names, alignment);
    for k := 0 to |files|
      invariant forall j :: 0 <= j < k ==> AllApart(RangesOf(entries, files[j].name, alignment))
    {
      var name := files[k].name;
      FilesByNameKeys(files, name);
      RangesFilled(entries, name, alignment);
      ok := NoOverlap(intervals[name]);
      if !ok { return; }
    }
    forall name | name in names ensures AllApart(RangesOf(entries, name, alignment)) {
      FilesByNameKeys(files, name);
    }
    ok := true;
  }
}
