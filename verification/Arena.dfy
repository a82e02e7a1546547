/** One GPU arena (`GpuArena`): a page-run allocator, the device bytes, and the pinned host buffer
    through which a batch of payloads is staged, merged and copied. */
module Arena {
  import opened PageRuns
  import opened Allocator

  type Byte = b: int | 0 <= b < 256

  /** Memory with `data` written at `at`. */
  ghost function Write(mem: seq<Byte>, at: nat, data: seq<Byte>): (r: seq<Byte>)
    requires at + |data| <= |mem|
    ensures |r| == |mem|
    ensures forall x :: 0 <= x < |r| ==> r[x] == if at <= x < at + |data| then data[x - at] else mem[x]
  {
    mem[..at] + data + mem[at + |data|..]
  }

  /** The bytes at `at` are `data`. */
  ghost predicate Holds(mem: seq<Byte>, at: nat, data: seq<Byte>) {
    at + |data| <= |mem| && mem[at..at + |data|] == data
  }

  lemma {:induction false} WriteElsewhere(mem: seq<Byte>, at: nat, data: seq<Byte>, lo: nat, held: seq<Byte>)
    requires at + |data| <= |mem| && Holds(mem, lo, held)
    requires lo + |held| <= at || at + |data| <= lo
    ensures Holds(Write(mem, at, data), lo, held)
  {
    assert Write(mem, at, data)[lo..lo + |held|] == mem[lo..lo + |held|];
  }

  // A write holds every part of what was written.
  lemma {:induction false} WriteHolds(mem: seq<Byte>, at: nat, data: seq<Byte>, off: nat, part: seq<Byte>)
    requires at + |data| <= |mem| && Holds(data, off, part)
    ensures Holds(Write(mem, at, data), at + off, part)
  {
    assert Write(mem, at, data)[at + off..at + off + |part|] == data[off..off + |part|];
  }

  lemma {:induction false} WriteNext(mem: seq<Byte>, at: nat, a: seq<Byte>, b: seq<Byte>)
    requires at + |a| + |b| <= |mem|
    ensures Write(Write(mem, at, a), at + |a|, b) == Write(mem, at, a + b)
  {
  }

  /** One tensor to upload: its page run and its bytes. */
  datatype Upload = Upload(first: nat, count: nat, payload: seq<Byte>) {
    function Lo(pageBytes: nat): nat { first * pageBytes }
    function Hi(pageBytes: nat): nat { (first + count) * pageBytes }
    function Size(pageBytes: nat): nat { count * pageBytes }
  }

  /** Every run is nonempty, inside the arena and long enough for its payload. */
  ghost predicate Fitting(runs: seq<Upload>, pageBytes: nat, total: nat) {
    forall u :: u in runs ==>
      u.count > 0 && u.first + u.count <= total && u.Lo(pageBytes) + |u.payload| <= u.Hi(pageBytes)
  }

  /** No page is in two of the runs. */
  ghost predicate Apart(runs: seq<Upload>) {
    forall i, j :: 0 <= i < |runs| && 0 <= j < |runs| && i != j ==> Clear(runs[i], runs[j])
  }

  predicate Clear(u: Upload, v: Upload) {
    u.first + u.count <= v.first || v.first + v.count <= u.first
  }

  /** Runs in address order, each after the end of the one before. */
  ghost predicate Ordered(runs: seq<Upload>) {
    forall i, j :: 0 <= i < j < |runs| ==> runs[i].first + runs[i].count <= runs[j].first
  }

  function InsertRun(runs: seq<Upload>, u: Upload): (r: seq<Upload>)
    ensures forall v :: v in r <==> v in runs || v == u
  {
    if runs == [] || u.first <= runs[0].first then [u] + runs
    else
      assert runs == [runs[0]] + runs[1..];
      [runs[0]] + InsertRun(runs[1..], u)
  }

  lemma {:induction false} ConsOrdered(u: Upload, runs: seq<Upload>)
    requires Ordered(runs) && forall v :: v in runs ==> u.first + u.count <= v.first
    ensures Ordered([u] + runs)
  {
  }

  lemma {:induction false} InsertOrdered(runs: seq<Upload>, u: Upload)
    requires Ordered(runs) && u.count > 0
    requires forall v :: v in runs ==> v.count > 0 && Clear(u, v)
    ensures Ordered(InsertRun(runs, u))
  {
    if runs == [] {
    } else if u.first > runs[0].first {
      var rest := InsertRun(runs[1..], u);
      assert forall v :: v in runs[1..] ==> v in runs;
      InsertOrdered(runs[1..], u);
      assert runs[0] in runs;
      forall v | v in rest ensures runs[0].first + runs[0].count <= v.first {
        if v != u { var j :| 1 <= j < |runs| && runs[j] == v; }
      }
      ConsOrdered(runs[0], rest);
    } else {
      forall v | v in runs ensures u.first + u.count <= v.first {
        var j :| 0 <= j < |runs| && runs[j] == v;
        assert runs[0] in runs;
      }
      ConsOrdered(u, runs);
    }
  }

  /** The runs sorted by address. */
  function SortRuns(items: seq<Upload>): (r: seq<Upload>)
    ensures forall v :: v in r <==> v in items
  {
    if items == [] then [] else
      var n := |items| - 1;
      assert items == items[..n] + [items[n]];
      InsertRun(SortRuns(items[..n]), items[n])
  }

  lemma {:induction false} SortOrdered(items: seq<Upload>)
    requires Apart(items) && forall u :: u in items ==> u.count > 0
    ensures Ordered(SortRuns(items))
  {
    if items == [] {
    } else {
      var n := |items| - 1;
      SortOrdered(items[..n]);
      assert forall v :: v in items[..n] ==> v in items && Clear(items[n], v);
      InsertOrdered(SortRuns(items[..n]), items[n]);
    }
  }

  function Zeros(n: nat): (z: seq<Byte>)
    ensures |z| == n
  {
    seq(n, _ => 0)
  }

  lemma {:induction false} ZerosAt(n: nat, i: nat)
    requires i < n
    ensures Zeros(n)[i] == 0
  {
  }

  /** What the staging buffer holds for runs a..b: each payload padded to its pages. */
  ghost function Staged(runs: seq<Upload>, a: nat, b: nat, pageBytes: nat): seq<Byte>
    requires a <= b <= |runs|
    requires forall u :: u in runs ==> u.Lo(pageBytes) + |u.payload| <= u.Hi(pageBytes)
  {
    if a == b then [] else
      var u := runs[b - 1];
      Staged(runs, a, b - 1, pageBytes) + u.payload + Zeros(u.Hi(pageBytes) - u.Lo(pageBytes) - |u.payload|)
  }

  /** Runs a..b follow each other without a gap. */
  ghost predicate Adjacent(runs: seq<Upload>, a: nat, b: nat)
    requires a <= b <= |runs|
  {
    forall i, j :: a <= i < j < b && j == i + 1 ==> runs[j].first == runs[i].first + runs[i].count
  }

  lemma {:induction false} NothingStaged(runs: seq<Upload>, k: nat, pageBytes: nat)
    requires k <= |runs| && forall u :: u in runs ==> u.Lo(pageBytes) + |u.payload| <= u.Hi(pageBytes)
    ensures Staged(runs, k, k, pageBytes) == [] && Adjacent(runs, k, k)
  {
  }

  lemma {:induction false} AdjacentNext(runs: seq<Upload>, a: nat, b: nat)
    requires a <= b < |runs| && Adjacent(runs, a, b)
    requires a < b ==> runs[b].first == runs[b - 1].first + runs[b - 1].count
    ensures Adjacent(runs, a, b + 1)
  {
  }

  lemma {:induction false} EdgesMeet(u: Upload, v: Upload, pageBytes: nat)
    requires v.first == u.first + u.count
    ensures v.Lo(pageBytes) == u.Hi(pageBytes)
  {
  }

  lemma {:induction false} StagedNext(runs: seq<Upload>, a: nat, b: nat, pageBytes: nat)
    requires a <= b < |runs|
    requires forall u :: u in runs ==> u.Lo(pageBytes) + |u.payload| <= u.Hi(pageBytes)
    ensures runs[b] in runs
    ensures Staged(runs, a, b + 1, pageBytes) == Staged(runs, a, b, pageBytes) + runs[b].payload +
            Zeros(runs[b].Hi(pageBytes) - runs[b].Lo(pageBytes) - |runs[b].payload|)
  {
    hide Upload.Lo, Upload.Hi;
  }

  lemma {:induction false} StagedGrows(runs: seq<Upload>, a: nat, b: nat, pageBytes: nat)
    requires a < b <= |runs|
    requires forall u :: u in runs ==> u.Lo(pageBytes) + |u.payload| <= u.Hi(pageBytes)
    ensures |Staged(runs, a, b, pageBytes)| + runs[b - 1].Lo(pageBytes) == |Staged(runs, a, b - 1, pageBytes)|
            + runs[b - 1].Hi(pageBytes)
  {
    hide Upload.Lo, Upload.Hi;
    assert runs[b - 1] in runs;
  }

  lemma {:induction false} StagedLength(runs: seq<Upload>, a: nat, b: nat, pageBytes: nat)
    requires a < b <= |runs| && Adjacent(runs, a, b)
    requires forall u :: u in runs ==> u.Lo(pageBytes) + |u.payload| <= u.Hi(pageBytes)
    ensures runs[a].Lo(pageBytes) + |Staged(runs, a, b, pageBytes)| == runs[b - 1].Hi(pageBytes)
  {
    StagedGrows(runs, a, b, pageBytes);
    assert a + 1 == b ==> Staged(runs, a, b - 1, pageBytes) == [];
    hide Upload.Lo, Upload.Hi, Staged;
    if a + 1 < b {
      StagedLength(runs, a, b - 1, pageBytes);
      EdgesMeet(runs[b - 2], runs[b - 1], pageBytes);
    }
  }

  // Every payload is found in the staged bytes at its own distance from the first.
  lemma {:induction false} StagedHolds(runs: seq<Upload>, a: nat, b: nat, pageBytes: nat, j: nat)
    requires a <= j < b <= |runs| && Adjacent(runs, a, b)
    requires forall u :: u in runs ==> u.Lo(pageBytes) + |u.payload| <= u.Hi(pageBytes)
    ensures runs[a].Lo(pageBytes) <= runs[j].Lo(pageBytes)
    ensures Holds(Staged(runs, a, b, pageBytes), runs[j].Lo(pageBytes) - runs[a].Lo(pageBytes), runs[j].payload)
  {
    hide Upload.Lo, Upload.Hi;
    var s := Staged(runs, a, b, pageBytes);
    var at := runs[j].Lo(pageBytes) - runs[a].Lo(pageBytes);
    if j == b - 1 {
      if a < j {
        StagedLength(runs, a, j, pageBytes);
        EdgesMeet(runs[j - 1], runs[j], pageBytes);
      }
      assert s[at..at + |runs[j].payload|] == runs[j].payload;
    } else {
      StagedHolds(runs, a, b - 1, pageBytes, j);
      var t := Staged(runs, a, b - 1, pageBytes);
      assert s[..|t|] == t;
      assert s[at..at + |runs[j].payload|] == t[at..at + |runs[j].payload|];
    }
  }

  /** The first `k` runs hold their payloads, and nothing outside them has changed. */
  ghost predicate Progress(before: seq<Byte>, mem: seq<Byte>, runs: seq<Upload>, k: nat, pageBytes: nat)
    requires k <= |runs|
  {
    && |mem| == |before|
    && (forall j :: 0 <= j < k ==> Holds(mem, runs[j].Lo(pageBytes), runs[j].payload))
    && (forall x :: 0 <= x < |mem| && mem[x] != before[x] ==> Inside(runs, k, pageBytes, x))
  }

  /** Byte `x` belongs to one of the first `k` runs. */
  ghost predicate Inside(runs: seq<Upload>, k: nat, pageBytes: nat, x: nat)
    requires k <= |runs|
  {
    exists j :: 0 <= j < k && runs[j].Lo(pageBytes) <= x < runs[j].Hi(pageBytes)
  }

  lemma {:induction false} ScaleOrder(u: Upload, v: Upload, pageBytes: nat)
    requires u.first + u.count <= v.first
    ensures u.Hi(pageBytes) <= v.Lo(pageBytes)
  {
    assert (v.first - (u.first + u.count)) * pageBytes >= 0;
  }

  // Writing from the start of run k, within runs k..m, with every payload of k..m in place.
  lemma {:induction false} ProgressStep(before: seq<Byte>, mem: seq<Byte>, runs: seq<Upload>, k: nat, m: nat,
                                        pageBytes: nat, data: seq<Byte>)
    requires k < m <= |runs| && Ordered(runs) && Progress(before, mem, runs, k, pageBytes)
    requires forall u :: u in runs ==> u.Lo(pageBytes) + |u.payload| <= u.Hi(pageBytes)
    requires runs[k].Lo(pageBytes) + |data| <= |mem|
    requires forall x :: runs[k].Lo(pageBytes) <= x < runs[k].Lo(pageBytes) + |data| ==> Inside(runs, m, pageBytes, x)
    requires forall j :: k <= j < m ==> Holds(Write(mem, runs[k].Lo(pageBytes), data), runs[j].Lo(pageBytes),
                                              runs[j].payload)
    ensures Progress(before, Write(mem, runs[k].Lo(pageBytes), data), runs, m, pageBytes)
  {
    hide Upload.Lo, Upload.Hi;
    var at := runs[k].Lo(pageBytes);
    var after := Write(mem, at, data);
    forall j | 0 <= j < m ensures Holds(after, runs[j].Lo(pageBytes), runs[j].payload) {
      if j < k {
        assert runs[j] in runs;
        ScaleOrder(runs[j], runs[k], pageBytes);
        WriteElsewhere(mem, at, data, runs[j].Lo(pageBytes), runs[j].payload);
      }
    }
    forall x | 0 <= x < |after| && after[x] != before[x] ensures Inside(runs, m, pageBytes, x) {
      if !(at <= x < at + |data|) {
        assert mem[x] != before[x];
      }
    }
  }

  // The bytes from the start of run a to the end of run b - 1 all belong to runs a..b.
  lemma {:induction false} BatchInside(runs: seq<Upload>, a: nat, b: nat, pageBytes: nat, x: nat)
    requires a < b <= |runs| && Adjacent(runs, a, b)
    requires runs[a].Lo(pageBytes) <= x < runs[b - 1].Hi(pageBytes)
    ensures Inside(runs, b, pageBytes, x)
  {
    hide Upload.Lo, Upload.Hi;
    if x < runs[b - 1].Lo(pageBytes) {
      EdgesMeet(runs[b - 2], runs[b - 1], pageBytes);
      BatchInside(runs, a, b - 1, pageBytes, x);
    }
  }

  class GpuArena {
    const allocator: FixedBlockAllocator
    const storage: array<Byte>
    const staging: array<Byte>

    /** The device bytes are whole pages and at least one page can be staged. */
    ghost predicate Sized() {
      && allocator.blockBytes > 0
      && storage.Length == allocator.blockCount * allocator.blockBytes
      && staging.Length >= allocator.blockBytes
      && storage != staging
    }

    constructor (capacity: nat, blockBytes: nat, stagingBytes: nat)
      requires capacity > 0 && blockBytes > 0 && blockBytes % 256 == 0
      requires capacity / blockBytes > 0
      requires stagingBytes >= blockBytes
      ensures Sized() && allocator.Valid() && allocator.taken == map[]
      ensures allocator.blockBytes == blockBytes && allocator.blockCount == capacity / blockBytes
      ensures fresh(allocator) && fresh(storage) && fresh(staging)
    {
      allocator := new FixedBlockAllocator(capacity, blockBytes);
      var n := capacity / blockBytes * blockBytes;
      storage := new Byte[n](_ => 0);
      staging := new Byte[stagingBytes](_ => 0);
    }

    /** The pages from `first` on begin with `payload`. */
    ghost predicate HoldsAt(first: nat, payload: seq<Byte>)
      reads storage
    {
      Holds(storage[..], first * allocator.blockBytes, payload)
    }

    /** The bytes of the tensor that starts at page `first` (`tensor`). */
    method Read(first: nat, length: nat, ghost payload: seq<Byte>) returns (bytes: seq<Byte>)
      requires HoldsAt(first, payload) && |payload| == length
      ensures bytes == payload
    {
      var at := first * allocator.blockBytes;
      assert storage[..][at..at + length] == storage[at..at + length];
      bytes := storage[at..at + length];
    }

    /** Put bytes into the staging buffer. */
    method Stage(at: nat, data: seq<Byte>)
      requires at + |data| <= staging.Length
      modifies staging
      ensures staging[..] == Write(old(staging[..]), at, data)
    {
      forall i | 0 <= i < |data| {
        staging[at + i] := data[i];
      }
    }

    /** Copy the front of the staging buffer to the device. */
    method CopyOut(at: nat, length: nat)
      requires storage != staging && length <= staging.Length && at + length <= storage.Length
      modifies storage
      ensures storage[..] == Write(old(storage[..]), at, staging[..length])
    {
      forall i | 0 <= i < length {
        storage[at + i] := staging[i];
      }
    }

    /** One trip through the staging buffer. */
    method CopyPiece(at: nat, piece: seq<Byte>)
      requires storage != staging && |piece| <= staging.Length && at + |piece| <= storage.Length
      modifies storage, staging
      ensures storage[..] == Write(old(storage[..]), at, piece)
    {
      Stage(0, piece);
      assert staging[..|piece|] == piece;
      CopyOut(at, |piece|);
    }

    /** A tensor larger than the staging buffer goes over in pieces. */
    method CopyLarge(at: nat, payload: seq<Byte>)
      requires Sized() && at + |payload| <= storage.Length
      modifies storage, staging
      ensures storage[..] == Write(old(storage[..]), at, payload)
    {
      ghost var before := storage[..];
      var offset := 0;
      assert Write(before, at, payload[..0]) == before;
      while offset < |payload|
        invariant offset <= |payload|
        invariant storage[..] == Write(before, at, payload[..offset])
      {
        var length := if staging.Length <= |payload| - offset then staging.Length else |payload| - offset;
        var piece := payload[offset..offset + length];
        CopyPiece(at + offset, piece);
        WriteNext(before, at, payload[..offset], piece);
        assert payload[..offset] + piece == payload[..offset + length];
        offset := offset + length;
      }
      assert payload[..offset] == payload;
    }

    /** Stage one run: its payload, then zeros up to its last page. */
    method StageRun(at: nat, payload: seq<Byte>, bytes: nat)
      requires |payload| <= bytes && at + bytes <= staging.Length
      modifies staging
      ensures staging[..at + bytes] == old(staging[..at]) + payload + Zeros(bytes - |payload|)
    {
      Stage(at, payload);
      assert staging[..at + |payload|] == old(staging[..at]) + payload;
      label Staged:
      Stage(at + |payload|, Zeros(bytes - |payload|));
      assert staging[..at + bytes] == old@Staged(staging[..at + |payload|]) + Zeros(bytes - |payload|);
    }

    /** Stage as many runs from `k` on as follow each other and fit. */
    method StageBatch(runs: seq<Upload>, k: nat) returns (m: nat, offset: nat)
      requires storage != staging && k < |runs| && Fitting(runs, allocator.blockBytes, allocator.blockCount)
      requires runs[k].Size(allocator.blockBytes) <= staging.Length
      modifies staging
      ensures k < m <= |runs| && Adjacent(runs, k, m)
      ensures offset <= staging.Length && staging[..offset] == Staged(runs, k, m, allocator.blockBytes)
    {
      hide Upload.Lo, Upload.Hi, Upload.Size, Staged, Adjacent, Zeros;
      var pageBytes := allocator.blockBytes;
      m, offset := k, 0;
      var expected := runs[k].first;
      NothingStaged(runs, k, pageBytes);
      while m < |runs| && runs[m].first == expected && offset + runs[m].Size(pageBytes) <= staging.Length
        invariant k <= m <= |runs| && Adjacent(runs, k, m)
        invariant m == k ==> offset == 0
        invariant expected == if m == k then runs[k].first else runs[m - 1].first + runs[m - 1].count
        invariant offset <= staging.Length && staging[..offset] == Staged(runs, k, m, pageBytes)
      {
        assert runs[m] in runs;
        RunBytes(runs[m], pageBytes);
        StagedNext(runs, k, m, pageBytes);
        AdjacentNext(runs, k, m);
        StageRun(offset, runs[m].payload, runs[m].Size(pageBytes));
        offset := offset + runs[m].Size(pageBytes);
        expected := expected + runs[m].count;
        m := m + 1;
      }
    }

    /** Stage a batch and copy it to the device in one go. */
    method CopyBatch(runs: seq<Upload>, k: nat) returns (m: nat)
      requires Sized() && k < |runs| && Fitting(runs, allocator.blockBytes, allocator.blockCount)
      requires runs[k].Size(allocator.blockBytes) <= staging.Length
      modifies storage, staging
      ensures k < m <= |runs| && Adjacent(runs, k, m)
      ensures runs[k].Lo(allocator.blockBytes) + |Staged(runs, k, m, allocator.blockBytes)| <= storage.Length
      ensures storage[..] == Write(old(storage[..]), runs[k].Lo(allocator.blockBytes),
                                   Staged(runs, k, m, allocator.blockBytes))
    {
      hide Upload.Lo, Upload.Hi;
      var offset;
      m, offset := StageBatch(runs, k);
      assert runs[m - 1] in runs;
      StagedLength(runs, k, m, allocator.blockBytes);
      EndInside(runs[m - 1], allocator.blockBytes, allocator.blockCount);
      StartByte(runs[k], allocator.blockBytes);
      CopyOut(runs[k].first * allocator.blockBytes, offset);
    }

    /** Copy runs in address order, in merged batches where they meet. */
    method CopyRuns(runs: seq<Upload>)
      requires Sized() && Ordered(runs) && Fitting(runs, allocator.blockBytes, allocator.blockCount)
      modifies storage, staging
      ensures Progress(old(storage[..]), storage[..], runs, |runs|, allocator.blockBytes)
    {
      hide Upload.Lo, Upload.Hi;
      var pageBytes := allocator.blockBytes;
      ghost var before := storage[..];
      var k := 0;
      while k < |runs|
        invariant k <= |runs| && Progress(before, storage[..], runs, k, pageBytes)
      {
        assert runs[k] in runs;
        StartByte(runs[k], pageBytes);
        ghost var mem := storage[..];
        if runs[k].Size(pageBytes) > staging.Length {
          EndInside(runs[k], pageBytes, allocator.blockCount);
          CopyLarge(runs[k].first * pageBytes, runs[k].payload);
          LargeProgress(before, mem, runs, k, pageBytes);
          k := k + 1;
        } else {
          var m := CopyBatch(runs, k);
          BatchProgress(before, mem, runs, k, m, pageBytes);
          k := m;
        }
      }
    }

    /** Upload a set of tensors (`copy_many_from_host`). A malformed item is refused before any byte moves. */
    method CopyMany(items: seq<Item>) returns (ok: bool)
      requires Sized()
      requires forall it :: it in items ==> it.First() + |it.blocks| <= allocator.blockCount
      requires Apart(ToRuns(items))
      modifies storage, staging
      ensures ok <==> forall it :: it in items ==> Uploadable(it, allocator.blockBytes)
      ensures !ok ==> storage[..] == old(storage[..])
      ensures ok ==> forall it :: it in items ==> Holds(storage[..], it.First() * allocator.blockBytes, it.payload)
      ensures forall x :: 0 <= x < storage.Length && storage[x] != old(storage[x]) ==>
        exists it :: it in items && it.Owns(allocator.blockBytes, x)
    {
      for i := 0 to |items|
        invariant forall j :: 0 <= j < i ==> Uploadable(items[j], allocator.blockBytes)
      {
        if !Uploadable(items[i], allocator.blockBytes) {
          assert items[i] in items;
          return false;
        }
      }
      var runs := SortRuns(ToRuns(items));
      RunsReady(items, allocator.blockBytes, allocator.blockCount);
      CopyRuns(runs);
      ok := true;
      RunsDelivered(items, old(storage[..]), storage[..], allocator.blockBytes);
      OnlyRunsChanged(items, old(storage[..]), storage[..], allocator.blockBytes);
    }
  }

  lemma {:induction false} RunBytes(u: Upload, pageBytes: nat)
    ensures u.Hi(pageBytes) - u.Lo(pageBytes) == u.Size(pageBytes)
  {
  }

  lemma {:induction false} StartByte(u: Upload, pageBytes: nat)
    ensures u.Lo(pageBytes) == u.first * pageBytes
  {
  }

  lemma {:induction false} EndInside(u: Upload, pageBytes: nat, total: nat)
    requires u.first + u.count <= total
    ensures u.Hi(pageBytes) <= total * pageBytes
  {
    assert (total - (u.first + u.count)) * pageBytes >= 0;
  }

  lemma {:induction false} LargeProgress(before: seq<Byte>, mem: seq<Byte>, runs: seq<Upload>, k: nat, pageBytes: nat)
    requires k < |runs| && Ordered(runs) && Progress(before, mem, runs, k, pageBytes)
    requires forall u :: u in runs ==> u.Lo(pageBytes) + |u.payload| <= u.Hi(pageBytes)
    requires runs[k].Lo(pageBytes) + |runs[k].payload| <= |mem|
    ensures Progress(before, Write(mem, runs[k].Lo(pageBytes), runs[k].payload), runs, k + 1, pageBytes)
  {
    hide Upload.Lo, Upload.Hi;
    var payload := runs[k].payload;
    assert runs[k] in runs;
    assert Holds(payload, 0, payload);
    WriteHolds(mem, runs[k].Lo(pageBytes), payload, 0, payload);
    ProgressStep(before, mem, runs, k, k + 1, pageBytes, payload);
  }

  lemma {:induction false} BatchProgress(before: seq<Byte>, mem: seq<Byte>, runs: seq<Upload>, k: nat, m: nat,
                                         pageBytes: nat)
    requires k < m <= |runs| && Ordered(runs) && Adjacent(runs, k, m) && Progress(before, mem, runs, k, pageBytes)
    requires forall u :: u in runs ==> u.Lo(pageBytes) + |u.payload| <= u.Hi(pageBytes)
    requires runs[k].Lo(pageBytes) + |Staged(runs, k, m, pageBytes)| <= |mem|
    ensures Progress(before, Write(mem, runs[k].Lo(pageBytes), Staged(runs, k, m, pageBytes)), runs, m, pageBytes)
  {
    hide Upload.Lo, Upload.Hi, Staged, Progress, Ordered, Adjacent, Inside, Holds;
    var at, data := runs[k].Lo(pageBytes), Staged(runs, k, m, pageBytes);
    StagedLength(runs, k, m, pageBytes);
    forall x | at <= x < at + |data| ensures Inside(runs, m, pageBytes, x) {
      BatchInside(runs, k, m, pageBytes, x);
    }
    forall j | k <= j < m ensures Holds(Write(mem, at, data), runs[j].Lo(pageBytes), runs[j].payload) {
      StagedHolds(runs, k, m, pageBytes, j);
      WriteHolds(mem, at, data, runs[j].Lo(pageBytes) - at, runs[j].payload);
    }
    ProgressStep(before, mem, runs, k, m, pageBytes, data);
  }

  /** A page run and the bytes to put into it, as the caller hands them over. */
  datatype Item = Item(blocks: seq<nat>, payload: seq<Byte>) {
    function First(): nat { if blocks == [] then 0 else blocks[0] }

    /** Byte `x` of the arena lies in the item's pages. */
    ghost predicate Owns(pageBytes: nat, x: nat) {
      First() * pageBytes <= x < (First() + |blocks|) * pageBytes
    }
  }

  predicate Uploadable(it: Item, pageBytes: nat) {
    it.blocks != [] && it.blocks == Range(it.blocks[0], |it.blocks|) && |it.payload| <= |it.blocks| * pageBytes
  }

  function ToRun(it: Item): Upload {
    Upload(it.First(), |it.blocks|, it.payload)
  }

  function ToRuns(items: seq<Item>): (runs: seq<Upload>)
    ensures |runs| == |items| && forall i :: 0 <= i < |items| ==> runs[i] == ToRun(items[i])
  {
    seq(|items|, i requires 0 <= i < |items| => ToRun(items[i]))
  }

  lemma {:induction false} RunsReady(items: seq<Item>, pageBytes: nat, total: nat)
    requires Apart(ToRuns(items))
    requires forall it :: it in items ==> Uploadable(it, pageBytes) && it.First() + |it.blocks| <= total
    ensures Ordered(SortRuns(ToRuns(items))) && Fitting(SortRuns(ToRuns(items)), pageBytes, total)
  {
    var runs := ToRuns(items);
    forall u | u in runs ensures u.count > 0 && u.first + u.count <= total
      && u.Lo(pageBytes) + |u.payload| <= u.Hi(pageBytes) {
      var i :| 0 <= i < |runs| && runs[i] == u;
      assert items[i] in items;
      RunBytes(u, pageBytes);
    }
    SortOrdered(runs);
  }

  lemma {:induction false} RunsDelivered(items: seq<Item>, before: seq<Byte>, mem: seq<Byte>, pageBytes: nat)
    requires var runs := SortRuns(ToRuns(items)); Progress(before, mem, runs, |runs|, pageBytes)
    ensures forall it :: it in items ==> Holds(mem, it.First() * pageBytes, it.payload)
  {
    var given, runs := ToRuns(items), SortRuns(ToRuns(items));
    forall it | it in items ensures Holds(mem, it.First() * pageBytes, it.payload) {
      var i :| 0 <= i < |items| && items[i] == it;
      assert given[i] in runs;
      var j :| 0 <= j < |runs| && runs[j] == given[i];
      StartByte(runs[j], pageBytes);
    }
  }

  lemma {:induction false} OnlyRunsChanged(items: seq<Item>, before: seq<Byte>, mem: seq<Byte>, pageBytes: nat)
    requires var runs := SortRuns(ToRuns(items)); Progress(before, mem, runs, |runs|, pageBytes)
    ensures |mem| == |before|
    ensures forall x :: 0 <= x < |mem| && mem[x] != before[x] ==> exists it :: it in items && it.Owns(pageBytes, x)
  {
    var given, runs := ToRuns(items), SortRuns(ToRuns(items));
    forall x | 0 <= x < |mem| && mem[x] != before[x] ensures exists it :: it in items && it.Owns(pageBytes, x) {
      var j :| 0 <= j < |runs| && runs[j].Lo(pageBytes) <= x < runs[j].Hi(pageBytes);
      assert runs[j] in given;
      var i :| 0 <= i < |given| && given[i] == runs[j];
      assert items[i] in items && items[i].Owns(pageBytes, x);
    }
  }
}
