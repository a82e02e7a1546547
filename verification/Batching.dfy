/** Bookkeeping of one request (`process_frame`): which candidates are resident, streamed or still
    pending, and how the engines cut a list of documents into groups that fit the device. */
module Batching {
  import opened Allocator
  import opened Arena
  import opened Directory
  import opened Cache

  /** A candidate whose tensor is not resident yet; `forced` once it must go through the cache. */
  datatype Pending = Pending(id: nat, load: Load, forced: bool)

  /** A candidate to be scored from a host payload. */
  datatype Document = Document(id: nat, key: Key, rows: nat, payload: seq<Byte>)

  /** A candidate to be scored from the device. */
  datatype Resident = Resident(id: nat, handle: Handle)

  /** What has to be done once: score this tensor for this candidate. */
  datatype Task = Task(id: nat, key: Key)

  function PendingTasks(s: seq<Pending>): (t: seq<Task>)
    ensures |t| == |s| && forall i :: 0 <= i < |s| ==> t[i] == Task(s[i].id, s[i].load.key)
  {
    seq(|s|, i requires 0 <= i < |s| => Task(s[i].id, s[i].load.key))
  }

  function DocumentTasks(s: seq<Document>): (t: seq<Task>)
    ensures |t| == |s| && forall i :: 0 <= i < |s| ==> t[i] == Task(s[i].id, s[i].key)
  {
    seq(|s|, i requires 0 <= i < |s| => Task(s[i].id, s[i].key))
  }

  function ResidentTasks(s: seq<Resident>): (t: seq<Task>)
    ensures |t| == |s| && forall i :: 0 <= i < |s| ==> t[i] == Task(s[i].id, s[i].handle.key)
  {
    seq(|s|, i requires 0 <= i < |s| => Task(s[i].id, s[i].handle.key))
  }

  // ---- One round of the pending loop ----

  function Loads(pending: seq<Pending>): (loads: seq<Load>)
    ensures |loads| == |pending| && forall i :: 0 <= i < |pending| ==> loads[i] == pending[i].load
  {
    seq(|pending|, i requires 0 <= i < |pending| => pending[i].load)
  }

  /** The pending items that got a handle. */
  function Arrived(pending: seq<Pending>, handles: seq<Option<Handle>>): seq<Resident>
    requires |handles| == |pending|
  {
    if pending == [] then [] else
      var n := |pending| - 1;
      Arrived(pending[..n], handles[..n]) +
      (if handles[n].Some? then [Resident(pending[n].id, handles[n].value)] else [])
  }

  /** Device bytes the streaming engine needs for a document of `rows` rows. */
  function StreamBytes(queryRows: nat, dimension: nat, rows: nat): nat {
    queryRows * dimension * 4 + rows * dimension * 4 + queryRows * rows * 4
  }

  /** The request's shape and the streaming engine's budget. */
  datatype Config = Config(queryRows: nat, dimension: nat, maxDeviceBytes: nat) {
    predicate Streamable(rows: nat) {
      StreamBytes(queryRows, dimension, rows) <= maxDeviceBytes
    }
  }

  predicate InRange(at: seq<nat>, n: nat) {
    forall j :: 0 <= j < |at| ==> at[j] < n
  }

  /** Bypassed items that fit the streaming engine. */
  function Streamed(c: Config, pending: seq<Pending>, bypassed: seq<nat>): (docs: seq<Document>)
    requires InRange(bypassed, |pending|)
    ensures forall d :: d in docs ==> c.Streamable(d.rows)
  {
    if bypassed == [] then [] else
      var n := |bypassed| - 1;
      var p := pending[bypassed[n]];
      Streamed(c, pending, bypassed[..n]) +
      (if c.Streamable(p.load.rows) then [Document(p.id, p.load.key, p.load.rows, p.load.payload)] else [])
  }

  /** Bypassed items that do not: they must become resident after all. */
  function Forced(c: Config, pending: seq<Pending>, bypassed: seq<nat>): (again: seq<Pending>)
    requires InRange(bypassed, |pending|)
    ensures |again| <= |bypassed| && forall p :: p in again ==> p.forced
  {
    if bypassed == [] then [] else
      var n := |bypassed| - 1;
      var p := pending[bypassed[n]];
      Forced(c, pending, bypassed[..n]) + (if c.Streamable(p.load.rows) then [] else [p.(forced := true)])
  }

  function PickAt(pending: seq<Pending>, at: seq<nat>): (s: seq<Pending>)
    requires InRange(at, |pending|)
    ensures |s| == |at| && forall j :: 0 <= j < |at| ==> s[j] == pending[at[j]]
  {
    seq(|at|, j requires 0 <= j < |at| => pending[at[j]])
  }

  /** What is left for the next round. */
  function NextPending(c: Config, pending: seq<Pending>, b: Batch): seq<Pending>
    requires InRange(b.bypassed, |pending|) && InRange(b.deferred, |pending|)
  {
    Forced(c, pending, b.bypassed) + PickAt(pending, b.deferred)
  }

  /** The round in which every admission is enforced: nothing is forced and nothing is to be pinned. */
  predicate Enforce(pending: seq<Pending>, pinMode: bool) {
    !pinMode && forall i :: 0 <= i < |pending| ==> !pending[i].forced
  }

  /** Each position below n has a handle, or is bypassed, or is deferred: exactly one. */
  ghost predicate Sorted3(n: nat, b: Batch) {
    && |b.handles| == n && Increasing(b.bypassed) && Increasing(b.deferred)
    && InRange(b.bypassed, n) && InRange(b.deferred, n)
    && (forall i :: 0 <= i < n ==>
          (if b.handles[i].Some? then 1 else 0) + (if i in b.bypassed then 1 else 0)
            + (if i in b.deferred then 1 else 0) == 1)
  }

  lemma {:induction false} ClassifiedSorts(loads: seq<Load>, b: Batch, n: nat)
    requires Classified(loads, b, n)
    ensures Sorted3(n, b)
  {
    assert forall j :: 0 <= j < |b.bypassed| ==> b.bypassed[j] in b.bypassed;
    assert forall j :: 0 <= j < |b.deferred| ==> b.deferred[j] in b.deferred;
  }

  lemma {:induction false} NoneInRange(at: seq<nat>)
    requires InRange(at, 0)
    ensures at == []
  {
    assert (at + [0])[0] >= 0;
  }

  /** An increasing list of positions below n + 1, without n. */
  function Below(at: seq<nat>, n: nat): seq<nat> {
    if at != [] && at[|at| - 1] == n then at[..|at| - 1] else at
  }

  lemma {:induction false} BelowSame(at: seq<nat>, n: nat)
    requires Increasing(at) && InRange(at, n + 1)
    ensures Increasing(Below(at, n)) && InRange(Below(at, n), n)
    ensures forall i :: i in Below(at, n) <==> i in at && i < n
    ensures n in at <==> Below(at, n) != at
    ensures n in at ==> at == Below(at, n) + [n]
  {
    if n in at {
      var j :| 0 <= j < |at| && at[j] == n;
    }
  }

  lemma {:induction false} PickAtLast(pending: seq<Pending>, at: seq<nat>)
    requires pending != [] && Increasing(at) && InRange(at, |pending|)
    ensures var n := |pending| - 1;
            InRange(Below(at, n), n) &&
            PendingTasks(PickAt(pending, at)) == PendingTasks(PickAt(pending[..n], Below(at, n))) +
              (if n in at then [Task(pending[n].id, pending[n].load.key)] else [])
  {
    BelowSame(at, |pending| - 1);
  }

  lemma {:induction false} Sorted3Rest(n: nat, b: Batch)
    requires Sorted3(n + 1, b)
    ensures Sorted3(n, Batch(b.handles[..n], Below(b.bypassed, n), Below(b.deferred, n)))
    ensures |b.handles| == n + 1 && Increasing(b.bypassed) && Increasing(b.deferred)
    ensures InRange(b.bypassed, n + 1) && InRange(b.deferred, n + 1)
    ensures (if b.handles[n].Some? then 1 else 0) + (if n in b.bypassed then 1 else 0)
            + (if n in b.deferred then 1 else 0) == 1
    ensures |b.bypassed| == |Below(b.bypassed, n)| + (if n in b.bypassed then 1 else 0)
    ensures |b.deferred| == |Below(b.deferred, n)| + (if n in b.deferred then 1 else 0)
  {
    BelowSame(b.bypassed, n);
    BelowSame(b.deferred, n);
  }

  lemma {:induction false} ArrivedLast(pending: seq<Pending>, handles: seq<Option<Handle>>)
    requires pending != [] && OwnHandles(pending, handles)
    ensures var n := |pending| - 1;
            ResidentTasks(Arrived(pending, handles)) == ResidentTasks(Arrived(pending[..n], handles[..n])) +
              (if handles[n].Some? then [Task(pending[n].id, pending[n].load.key)] else [])
  {
  }

  /** Every handle is for the key of the item that got it. */
  ghost predicate OwnHandles(pending: seq<Pending>, handles: seq<Option<Handle>>) {
    |handles| == |pending| && forall i :: 0 <= i < |handles| && handles[i].Some? ==>
      handles[i].value.key == pending[i].load.key
  }

  // What was pending has arrived, is bypassed or is deferred.
  lemma {:induction false} RoundSplits(pending: seq<Pending>, b: Batch)
    requires Sorted3(|pending|, b) && OwnHandles(pending, b.handles)
    ensures multiset(PendingTasks(pending)) ==
            multiset(ResidentTasks(Arrived(pending, b.handles))) +
            multiset(PendingTasks(PickAt(pending, b.bypassed))) + multiset(PendingTasks(PickAt(pending, b.deferred)))
  {
    if pending == [] {
      NoneInRange(b.bypassed);
      NoneInRange(b.deferred);
    } else {
      var n := |pending| - 1;
      var rest := pending[..n];
      var task := Task(pending[n].id, pending[n].load.key);
      var b' := Batch(b.handles[..n], Below(b.bypassed, n), Below(b.deferred, n));
      Sorted3Rest(n, b);
      assert PendingTasks(pending) == PendingTasks(rest) + [task];
      hide Sorted3, Increasing, InRange, Arrived, PickAt, Below, PendingTasks, ResidentTasks;
      RoundSplits(rest, b');
      PickAtLast(pending, b.bypassed);
      PickAtLast(pending, b.deferred);
      ArrivedLast(pending, b.handles);
    }
  }

  // A bypassed item is streamed or forced.
  lemma {:induction false} BypassSplits(c: Config, pending: seq<Pending>, bypassed: seq<nat>)
    requires InRange(bypassed, |pending|)
    ensures multiset(PendingTasks(PickAt(pending, bypassed))) ==
            multiset(DocumentTasks(Streamed(c, pending, bypassed)))
              + multiset(PendingTasks(Forced(c, pending, bypassed)))
  {
    hide Config.Streamable;
    if bypassed == [] {
    } else {
      var n := |bypassed| - 1;
      BypassSplits(c, pending, bypassed[..n]);
      PickedLast(pending, bypassed);
      StreamedLast(c, pending, bypassed);
      ForcedLast(c, pending, bypassed);
      hide Streamed, Forced, PickAt, PendingTasks, DocumentTasks;
    }
  }

  lemma {:induction false} PickedLast(pending: seq<Pending>, at: seq<nat>)
    requires at != [] && InRange(at, |pending|)
    ensures var n := |at| - 1;
            PendingTasks(PickAt(pending, at)) ==
            PendingTasks(PickAt(pending, at[..n])) + [Task(pending[at[n]].id, pending[at[n]].load.key)]
  {
  }

  lemma {:induction false} StreamedLast(c: Config, pending: seq<Pending>, bypassed: seq<nat>)
    requires bypassed != [] && InRange(bypassed, |pending|)
    ensures var n := |bypassed| - 1;
            var p := pending[bypassed[n]];
            DocumentTasks(Streamed(c, pending, bypassed)) ==
            DocumentTasks(Streamed(c, pending, bypassed[..n]))
              + (if c.Streamable(p.load.rows) then [Task(p.id, p.load.key)] else [])
  {
    hide Config.Streamable;
  }

  lemma {:induction false} ForcedLast(c: Config, pending: seq<Pending>, bypassed: seq<nat>)
    requires bypassed != [] && InRange(bypassed, |pending|)
    ensures var n := |bypassed| - 1;
            var p := pending[bypassed[n]];
            PendingTasks(Forced(c, pending, bypassed)) ==
            PendingTasks(Forced(c, pending, bypassed[..n]))
              + (if c.Streamable(p.load.rows) then [] else [Task(p.id, p.load.key)])
  {
    hide Config.Streamable;
  }

  /** A round loses and invents no candidate: each arrives, is streamed, or stays pending. */
  lemma {:induction false} RoundConserves(c: Config, pending: seq<Pending>, b: Batch)
    requires Sorted3(|pending|, b) && OwnHandles(pending, b.handles)
    ensures multiset(PendingTasks(pending)) ==
            multiset(ResidentTasks(Arrived(pending, b.handles))) +
            multiset(DocumentTasks(Streamed(c, pending, b.bypassed))) +
            multiset(PendingTasks(NextPending(c, pending, b)))
  {
    var again, deferred := Forced(c, pending, b.bypassed), PickAt(pending, b.deferred);
    assert PendingTasks(again + deferred) == PendingTasks(again) + PendingTasks(deferred);
    hide Streamed, Forced, PickAt, Arrived, PendingTasks, DocumentTasks, ResidentTasks;
    RoundSplits(pending, b);
    BypassSplits(c, pending, b.bypassed);
  }

  // ---- Progress ----

  ghost function Unforced(s: seq<Pending>): nat {
    if s == [] then 0 else
      var n := |s| - 1;
      Unforced(s[..n]) + (if s[n].forced then 0 else 1)
  }

  lemma {:induction false} UnforcedBound(s: seq<Pending>)
    ensures Unforced(s) <= |s|
    ensures (exists p :: p in s && p.forced) ==> Unforced(s) < |s|
    ensures (forall i :: 0 <= i < |s| ==> !s[i].forced) ==> Unforced(s) == |s|
  {
    if s == [] {
    } else {
      var n := |s| - 1;
      UnforcedBound(s[..n]);
      assert s == s[..n] + [s[n]];
    }
  }

  lemma {:induction false} SplitLengths(pending: seq<Pending>, b: Batch)
    requires Sorted3(|pending|, b)
    ensures |pending| == |Arrived(pending, b.handles)| + |b.bypassed| + |b.deferred|
  {
    if pending == [] {
      NoneInRange(b.bypassed);
      NoneInRange(b.deferred);
    } else {
      var n := |pending| - 1;
      Sorted3Rest(n, b);
      hide Sorted3, Below;
      SplitLengths(pending[..n], Batch(b.handles[..n], Below(b.bypassed, n), Below(b.deferred, n)));
    }
  }

  // An increasing list as long as its range is the whole range.
  lemma {:induction false} WholeRange(at: seq<nat>, n: nat)
    requires Increasing(at) && InRange(at, n)
    ensures |at| <= n
    ensures |at| == n ==> forall i :: 0 <= i < n ==> at[i] == i
  {
    if n == 0 {
      NoneInRange(at);
    } else if at != [] {
      var m := |at| - 1;
      assert InRange(at[..m], n - 1) by {
        forall j | 0 <= j < m ensures at[j] < n - 1 { assert at[j] < at[m]; }
      }
      WholeRange(at[..m], n - 1);
      if |at| == n {
        forall i | 0 <= i < n ensures at[i] == i {
          if i == m && m > 0 { assert at[..m][m - 1] == m - 1 && at[m - 1] < at[m]; }
          else if i < m { assert at[..m][i] == i; }
        }
      }
    }
  }

  // Something was forced only because some bypassed item does not fit the streaming engine.
  lemma {:induction false} ForcedWitness(c: Config, pending: seq<Pending>, bypassed: seq<nat>) returns (j: nat)
    requires InRange(bypassed, |pending|) && Forced(c, pending, bypassed) != []
    ensures j < |bypassed| && !c.Streamable(pending[bypassed[j]].load.rows)
  {
    hide Config.Streamable;
    j := |bypassed| - 1;
    if c.Streamable(pending[bypassed[j]].load.rows) {
      j := ForcedWitness(c, pending, bypassed[..j]);
    }
  }

  /** Bypassing was either an admission decision, in a round that enforces admission, or the item can be streamed. */
  ghost predicate Justified(c: Config, pending: seq<Pending>, b: Batch, pinMode: bool) {
    InRange(b.bypassed, |pending|) &&
    forall j :: 0 <= j < |b.bypassed| ==>
      Enforce(pending, pinMode) || c.Streamable(pending[b.bypassed[j]].load.rows)
  }

  /** A round makes the pending list shorter, or forces something that was not, or defers everything. */
  lemma {:induction false} RoundProgress(c: Config, pending: seq<Pending>, b: Batch, pinMode: bool)
    requires Sorted3(|pending|, b) && Justified(c, pending, b, pinMode)
    ensures var next := NextPending(c, pending, b);
            || |next| < |pending|
            || (|next| == |pending| && Unforced(next) < Unforced(pending))
            || (|b.deferred| == |pending| && next == pending)
  {
    hide Unforced, Sorted3, Justified, Config.Streamable;
    NextLength(c, pending, b);
    if |NextPending(c, pending, b)| >= |pending| {
      if |Forced(c, pending, b.bypassed)| == 0 { WholeDeferred(c, pending, b); }
      else { ForcedShrinks(c, pending, b, pinMode); }
    }
  }

  lemma {:induction false} NextLength(c: Config, pending: seq<Pending>, b: Batch)
    requires Sorted3(|pending|, b)
    ensures InRange(b.bypassed, |pending|) && InRange(b.deferred, |pending|)
    ensures |NextPending(c, pending, b)| == |Forced(c, pending, b.bypassed)| + |b.deferred|
    ensures |Forced(c, pending, b.bypassed)| + |b.deferred| <= |pending|
  {
    SplitLengths(pending, b);
  }

  lemma {:induction false} WholeDeferred(c: Config, pending: seq<Pending>, b: Batch)
    requires Sorted3(|pending|, b) && |b.deferred| == |pending| && |Forced(c, pending, b.bypassed)| == 0
    ensures NextPending(c, pending, b) == pending
  {
    WholeRange(b.deferred, |pending|);
  }

  lemma {:induction false} ForcedShrinks(c: Config, pending: seq<Pending>, b: Batch, pinMode: bool)
    requires Sorted3(|pending|, b) && Justified(c, pending, b, pinMode) && Forced(c, pending, b.bypassed) != []
    requires |NextPending(c, pending, b)| == |pending|
    ensures Unforced(NextPending(c, pending, b)) < Unforced(pending)
  {
    hide Config.Streamable, Unforced;
    var next, again := NextPending(c, pending, b), Forced(c, pending, b.bypassed);
    var j := ForcedWitness(c, pending, b.bypassed);
    UnforcedBound(pending);
    assert next[0] == again[0] && again[0] in again;
    assert next[0] in next;
    UnforcedBound(next);
  }

  // ---- Resident documents by device ----

  function HandlesOf(docs: seq<Resident>): (h: seq<Handle>)
    ensures |h| == |docs| && forall i :: 0 <= i < |docs| ==> h[i] == docs[i].handle
  {
    seq(|docs|, i requires 0 <= i < |docs| => docs[i].handle)
  }

  /** The documents that live on device `a`, given the device of each. */
  function OnDevice(docs: seq<Resident>, place: seq<nat>, a: nat): (r: seq<Resident>)
    requires |place| == |docs|
    ensures forall d :: d in r ==> d in docs
  {
    if docs == [] then [] else
      var n := |docs| - 1;
      assert docs == docs[..n] + [docs[n]];
      OnDevice(docs[..n], place[..n], a) + (if place[n] == a then [docs[n]] else [])
  }

  ghost function BeforeDevice(docs: seq<Resident>, place: seq<nat>, a: nat): seq<Resident>
    requires |place| == |docs|
  {
    if docs == [] then [] else
      var n := |docs| - 1;
      BeforeDevice(docs[..n], place[..n], a) + (if place[n] < a then [docs[n]] else [])
  }

  lemma {:induction false} DeviceLast(docs: seq<Resident>, place: seq<nat>, a: nat)
    requires |place| == |docs| > 0
    ensures var n := |docs| - 1;
            var task := Task(docs[n].id, docs[n].handle.key);
            && ResidentTasks(BeforeDevice(docs, place, a)) ==
               ResidentTasks(BeforeDevice(docs[..n], place[..n], a)) + (if place[n] < a then [task] else [])
            && ResidentTasks(OnDevice(docs, place, a)) ==
               ResidentTasks(OnDevice(docs[..n], place[..n], a)) + (if place[n] == a then [task] else [])
  {
  }

  lemma {:induction false} DeviceNext(docs: seq<Resident>, place: seq<nat>, a: nat)
    requires |place| == |docs|
    ensures multiset(ResidentTasks(BeforeDevice(docs, place, a + 1))) ==
            multiset(ResidentTasks(BeforeDevice(docs, place, a))) + multiset(ResidentTasks(OnDevice(docs, place, a)))
  {
    if docs == [] {
    } else {
      hide OnDevice, BeforeDevice, ResidentTasks;
      DeviceNext(docs[..|docs| - 1], place[..|docs| - 1], a);
      DeviceLast(docs, place, a);
      DeviceLast(docs, place, a + 1);
    }
  }

  lemma {:induction false} AllDevices(docs: seq<Resident>, place: seq<nat>, n: nat)
    requires |place| == |docs| && forall i :: 0 <= i < |docs| ==> place[i] < n
    ensures BeforeDevice(docs, place, n) == docs && BeforeDevice(docs, place, 0) == []
  {
    if docs == [] {
    } else {
      var m := |docs| - 1;
      AllDevices(docs[..m], place[..m], n);
    }
  }

  lemma {:induction false} ArrivedHandles(pending: seq<Pending>, handles: seq<Option<Handle>>)
    requires |handles| == |pending|
    ensures HandlesOf(Arrived(pending, handles)) == Given(handles)
  {
    if pending == [] {
    } else {
      var n := |pending| - 1;
      ArrivedHandles(pending[..n], handles[..n]);
    }
  }

  /** What is known of a pending item: its payload is the one its key names, and it fits the cache or the streaming
      engine. */
  ghost predicate Sound(p: Pending, c: Config, pin: bool, content: Key -> seq<Byte>, tooLarge: nat -> bool) {
    p.load.payload == content(p.load.key) && p.load.pin == pin
      && (!tooLarge(|p.load.payload|) || c.Streamable(p.load.rows))
  }

  lemma {:induction false} StreamedSound(c: Config, pending: seq<Pending>, bypassed: seq<nat>, pin: bool,
                                         content: Key -> seq<Byte>, tooLarge: nat -> bool)
    requires InRange(bypassed, |pending|) && forall p :: p in pending ==> Sound(p, c, pin, content, tooLarge)
    ensures forall d :: d in Streamed(c, pending, bypassed) ==> d.payload == content(d.key)
    ensures forall p :: p in Forced(c, pending, bypassed) ==> Sound(p, c, pin, content, tooLarge)
  {
    hide Config.Streamable;
    if bypassed == [] {
    } else {
      var n := |bypassed| - 1;
      StreamedSound(c, pending, bypassed[..n], pin, content, tooLarge);
      assert pending[bypassed[n]] in pending;
    }
  }

  lemma {:induction false} NextSound(c: Config, pending: seq<Pending>, b: Batch, pin: bool, content: Key -> seq<Byte>,
                                     tooLarge: nat -> bool)
    requires InRange(b.bypassed, |pending|) && InRange(b.deferred, |pending|)
    requires forall p :: p in pending ==> Sound(p, c, pin, content, tooLarge)
    ensures forall p :: p in NextPending(c, pending, b) ==> Sound(p, c, pin, content, tooLarge)
    ensures forall d :: d in Streamed(c, pending, b.bypassed) ==> d.payload == content(d.key)
  {
    StreamedSound(c, pending, b.bypassed, pin, content, tooLarge);
    hide Sound;
    forall p | p in NextPending(c, pending, b) ensures Sound(p, c, pin, content, tooLarge) {
      if p in PickAt(pending, b.deferred) {
        var j :| 0 <= j < |b.deferred| && PickAt(pending, b.deferred)[j] == p;
        assert pending[b.deferred[j]] in pending;
      }
    }
  }

  lemma {:induction false} JustifiedBySize(c: Config, pending: seq<Pending>, b: Batch, pin: bool,
                                           content: Key -> seq<Byte>, tooLarge: nat -> bool)
    requires InRange(b.bypassed, |pending|)
    requires forall p :: p in pending ==> Sound(p, c, pin, content, tooLarge)
    requires forall i :: i in b.bypassed && (!Enforce(pending, pin) || pin) ==>
               i < |pending| && tooLarge(|pending[i].load.payload|)
    ensures Justified(c, pending, b, pin)
  {
    forall j | 0 <= j < |b.bypassed| ensures Enforce(pending, pin) || c.Streamable(pending[b.bypassed[j]].load.rows) {
      assert b.bypassed[j] in b.bypassed;
      assert pending[b.bypassed[j]] in pending;
    }
  }

  lemma {:induction false} ResidentJoin(s: seq<Resident>, t: seq<Resident>)
    ensures ResidentTasks(s + t) == ResidentTasks(s) + ResidentTasks(t)
  {
  }

  lemma {:induction false} DocumentJoin(s: seq<Document>, t: seq<Document>)
    ensures DocumentTasks(s + t) == DocumentTasks(s) + DocumentTasks(t)
  {
  }

  lemma {:induction false} HandlesJoin(s: seq<Resident>, t: seq<Resident>)
    ensures multiset(HandlesOf(s + t)) == multiset(HandlesOf(s)) + multiset(HandlesOf(t))
  {
    assert HandlesOf(s + t) == HandlesOf(s) + HandlesOf(t);
  }

  // If everything is deferred then so is the first item, and nothing has arrived.
  lemma {:induction false} AllDeferred(pending: seq<Pending>, b: Batch)
    requires pending != [] && Sorted3(|pending|, b) && |b.deferred| == |pending|
    ensures 0 in b.deferred && |pending| - 1 in b.deferred && Arrived(pending, b.handles) == []
  {
    WholeRange(b.deferred, |pending|);
    SplitLengths(pending, b);
    assert b.deferred[0] == 0 && b.deferred[|pending| - 1] == |pending| - 1;
  }

  /** A candidate of the request with its tensor. */
  datatype Candidate = Candidate(id: nat, load: Load)

  ghost function LoadSet(candidates: seq<Candidate>): set<Load> {
    set c | c in candidates :: c.load
  }

  /** Everything pending is one of these loads. */
  ghost predicate Within(pending: seq<Pending>, loads: set<Load>) {
    forall i :: 0 <= i < |pending| ==> pending[i].load in loads
  }

  lemma {:induction false} NextWithin(c: Config, pending: seq<Pending>, b: Batch, loads: set<Load>)
    requires InRange(b.bypassed, |pending|) && InRange(b.deferred, |pending|) && Within(pending, loads)
    ensures Within(NextPending(c, pending, b), loads)
  {
    ForcedWithin(c, pending, b.bypassed, loads);
  }

  lemma {:induction false} ForcedWithin(c: Config, pending: seq<Pending>, bypassed: seq<nat>, loads: set<Load>)
    requires InRange(bypassed, |pending|) && Within(pending, loads)
    ensures Within(Forced(c, pending, bypassed), loads)
  {
    if bypassed == [] {
    } else {
      ForcedWithin(c, pending, bypassed[..|bypassed| - 1], loads);
    }
  }

  function Fresh0(candidates: seq<Candidate>): (s: seq<Pending>)
    ensures |s| == |candidates|
    ensures forall i :: 0 <= i < |s| ==> s[i] == Pending(candidates[i].id, candidates[i].load, false)
  {
    seq(|candidates|, i requires 0 <= i < |candidates| => Pending(candidates[i].id, candidates[i].load, false))
  }

  function KeysOf(candidates: seq<Candidate>): (s: seq<Key>)
    ensures |s| == |candidates| && forall i :: 0 <= i < |s| ==> s[i] == candidates[i].load.key
  {
    seq(|candidates|, i requires 0 <= i < |candidates| => candidates[i].load.key)
  }

  function TasksOf(candidates: seq<Candidate>): (s: seq<Task>)
    ensures |s| == |candidates| && forall i :: 0 <= i < |s| ==> s[i] == Task(candidates[i].id, candidates[i].load.key)
  {
    seq(|candidates|, i requires 0 <= i < |candidates| => Task(candidates[i].id, candidates[i].load.key))
  }

  // A probe splits the candidates into those it found and those it missed.
  lemma {:induction false} ProbeSplits(candidates: seq<Candidate>, entries: Entries, handles: seq<Option<Handle>>,
                                       missing: seq<nat>)
    requires Probed(KeysOf(candidates), entries, handles, missing) && |handles| == |candidates|
    ensures InRange(missing, |candidates|)
    ensures multiset(TasksOf(candidates)) ==
            multiset(ResidentTasks(Arrived(Fresh0(candidates), handles)))
              + multiset(PendingTasks(PickAt(Fresh0(candidates), missing)))
  {
    var all, b := Fresh0(candidates), Batch(handles, [], missing);
    assert forall j :: 0 <= j < |missing| ==> missing[j] in missing;
    assert PickAt(all, []) == [];
    assert Sorted3(|all|, b) && OwnHandles(all, handles);
    RoundSplits(all, b);
    assert PendingTasks(all) == TasksOf(candidates);
  }

  // ---- A tensor that fits nowhere ----

  /** Too large for every arena and for the streaming engine. */
  ghost predicate Stuck(p: Pending, c: Config, tooLarge: nat -> bool) {
    tooLarge(|p.load.payload|) && !c.Streamable(p.load.rows)
  }

  /** One turn of the loop, as far as tensors too large for every arena are concerned: the cache bypasses them. */
  ghost predicate Turn(c: Config, pending: seq<Pending>, b: Batch, next: seq<Pending>, tooLarge: nat -> bool) {
    && InRange(b.bypassed, |pending|) && InRange(b.deferred, |pending|) && Sorted3(|pending|, b)
    && next == NextPending(c, pending, b)
    && (forall i :: 0 <= i < |pending| && tooLarge(|pending[i].load.payload|) ==> i in b.bypassed)
  }

  lemma {:induction false} ForcedHas(c: Config, pending: seq<Pending>, bypassed: seq<nat>, i: nat)
    requires InRange(bypassed, |pending|) && i in bypassed && i < |pending| && !c.Streamable(pending[i].load.rows)
    ensures pending[i].(forced := true) in Forced(c, pending, bypassed)
  {
    hide Config.Streamable;
    var n := |bypassed| - 1;
    if bypassed[n] != i {
      assert bypassed == bypassed[..n] + [bypassed[n]];
      ForcedHas(c, pending, bypassed[..n], i);
    }
  }

  /** Such a tensor is still pending after every turn, and the turn counts as progress, so the loop neither ends nor
      gives up. */
  lemma {:induction false} StuckStays(c: Config, pending: seq<Pending>, b: Batch, next: seq<Pending>,
                                      tooLarge: nat -> bool, p: Pending)
    requires Turn(c, pending, b, next, tooLarge) && p in pending && Stuck(p, c, tooLarge)
    ensures p.(forced := true) in next && |b.deferred| < |pending|
  {
    hide Config.Streamable;
    var i :| 0 <= i < |pending| && pending[i] == p;
    ForcedHas(c, pending, b.bypassed, i);
    SplitLengths(pending, b);
    assert |b.bypassed| > 0;
  }

  /** However many turns are taken, in whatever way the cache answers, the loop condition still holds. */
  lemma {:induction false} NeverDone(c: Config, run: seq<seq<Pending>>, batches: seq<Batch>, tooLarge: nat -> bool,
                                     p: Pending)
    requires |run| == |batches| + 1 && p in run[0] && Stuck(p, c, tooLarge)
    requires forall j :: 0 <= j < |batches| ==> Turn(c, run[j], batches[j], run[j + 1], tooLarge)
    ensures run[|batches|] != []
    decreases |batches|
  {
    if |batches| > 0 {
      StuckStays(c, run[0], batches[0], run[1], tooLarge, p);
      var q := p.(forced := true);
      assert Stuck(q, c, tooLarge);
      assert forall j :: 0 <= j < |batches| - 1 ==> run[1..][j] == run[j + 1] && batches[1..][j] == batches[j + 1];
      NeverDone(c, run[1..], batches[1..], tooLarge, q);
    }
  }
}
