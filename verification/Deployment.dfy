/** A whole service on new arenas: what its parts promise each other holds from the start, so requests can be served. */
module Deployment {
  import opened Allocator
  import opened Arena
  import opened Pool
  import opened Directory
  import opened Cache
  import opened Batching
  import opened Service
  import Tiles

  /** How an arena is made; the conditions are those the source checks when it builds one. */
  datatype Layout = Layout(capacity: nat, blockBytes: nat, stagingBytes: nat) {
    predicate Valid() {
      && capacity > 0 && blockBytes > 0 && blockBytes % 256 == 0 && capacity / blockBytes > 0
      && stagingBytes >= blockBytes
    }

    function Pages(): nat
      requires Valid()
    {
      capacity / blockBytes
    }

    /** The payload fits an empty arena. */
    predicate Fits(payloadBytes: nat)
      requires Valid()
    {
      (payloadBytes + blockBytes - 1) / blockBytes <= Pages()
    }
  }

  /** The arenas have the pages asked for. */
  ghost predicate Shaped(arenas: seq<GpuArena>, layouts: seq<Layout>)
    requires forall i :: 0 <= i < |layouts| ==> layouts[i].Valid()
  {
    && |arenas| == |layouts|
    && forall i :: 0 <= i < |arenas| ==>
      && arenas[i].allocator.blockBytes == layouts[i].blockBytes
      && arenas[i].allocator.blockCount == layouts[i].Pages()
  }

  /** The arenas are empty and share nothing. */
  ghost predicate Unused(arenas: seq<GpuArena>)
    reads set i | 0 <= i < |arenas| :: arenas[i].allocator
  {
    && GpuResourcePool.Separate(arenas)
    && forall i :: 0 <= i < |arenas| ==> arenas[i].allocator.Valid() && arenas[i].allocator.taken == map[]
  }

  method NewArenas(layouts: seq<Layout>) returns (arenas: seq<GpuArena>)
    requires forall i :: 0 <= i < |layouts| ==> layouts[i].Valid()
    ensures Shaped(arenas, layouts) && Unused(arenas)
    ensures forall i :: 0 <= i < |arenas| ==>
              fresh(arenas[i].allocator) && fresh(arenas[i].storage) && fresh(arenas[i].staging)
  {
    hide FixedBlockAllocator.Valid;
    arenas := [];
    for k := 0 to |layouts|
      invariant Shaped(arenas, layouts[..k]) && Unused(arenas)
      invariant forall i :: 0 <= i < |arenas| ==>
                  fresh(arenas[i].allocator) && fresh(arenas[i].storage) && fresh(arenas[i].staging)
    {
      var arena := new GpuArena(layouts[k].capacity, layouts[k].blockBytes, layouts[k].stagingBytes);
      arenas := arenas + [arena];
    }
    assert layouts[..|layouts|] == layouts;
  }

  method NewCache(layouts: seq<Layout>, allowEviction: bool) returns (cache: GpuTensorCache)
    requires layouts != [] && forall i :: 0 <= i < |layouts| ==> layouts[i].Valid()
    ensures cache.Valid() && cache.entries == map[] && cache.held == multiset{}
    ensures cache.allowEviction == allowEviction && Shaped(cache.pool.arenas, layouts)
    ensures fresh(cache) && fresh(cache.pool.Allocators()) && fresh(cache.pool.Storages())
    ensures fresh(cache.pool.Stagings())
  {
    var arenas := NewArenas(layouts);
    var pool := new GpuResourcePool(arenas);
    cache := new GpuTensorCache(pool, allowEviction);
  }

  /** The candidate's tensor is what its key names and fits some arena or the streaming engine. */
  ghost predicate Servable(c: Candidate, layouts: seq<Layout>, config: Config, pin: bool, content: Key -> seq<Byte>)
    requires forall i :: 0 <= i < |layouts| ==> layouts[i].Valid()
  {
    && c.load.payload == content(c.load.key) && c.load.pin == pin
    && (config.Streamable(c.load.rows) || exists i :: 0 <= i < |layouts| && layouts[i].Fits(|c.load.payload|))
  }

  /** The query is a matrix of the configured dimension, and so is the payload, which has a row. */
  predicate CanScore(config: Config, engine: Engine, bytes: seq<Byte>) {
    && Tiles.Matrix(engine.query, config.dimension) && Tiles.Matrix(engine.decode(bytes), config.dimension)
    && engine.decode(bytes) != []
  }

  /** The query can be scored against what every candidate's key names. */
  ghost predicate CanScoreAll(config: Config, engine: Engine, candidates: seq<Candidate>, content: Key -> seq<Byte>) {
    && Tiles.Matrix(engine.query, config.dimension)
    && forall c :: c in candidates ==> CanScore(config, engine, content(c.load.key))
  }

  function ScoreOf(config: Config, engine: Engine, bytes: seq<Byte>): real
    requires CanScore(config, engine, bytes)
  {
    Tiles.Score(engine.query, engine.decode(bytes), config.dimension)
  }

  lemma {:induction false} FitsSomewhere(cache: GpuTensorCache, layouts: seq<Layout>, payloadBytes: nat, i: nat)
    requires (forall j :: 0 <= j < |layouts| ==> layouts[j].Valid()) && Shaped(cache.pool.arenas, layouts)
    requires i < |layouts| && layouts[i].Fits(payloadBytes)
    ensures !cache.FitsNowhere(payloadBytes)
  {
    hide FixedBlockAllocator.Valid;
    assert cache.pool.Capable(i, payloadBytes);
  }

  lemma {:induction false} IsAdmissible(service: TileMaxsimService, layouts: seq<Layout>, c: Candidate,
                                        content: Key -> seq<Byte>)
    requires (forall j :: 0 <= j < |layouts| ==> layouts[j].Valid()) && Shaped(service.cache.pool.arenas, layouts)
    requires Servable(c, layouts, service.config, service.pinMode, content)
    ensures service.Admissible(c, content)
  {
    hide Shaped, Layout.Fits, GpuTensorCache.FitsNowhere;
    if !service.config.Streamable(c.load.rows) {
      var i :| 0 <= i < |layouts| && layouts[i].Fits(|c.load.payload|);
      FitsSomewhere(service.cache, layouts, |c.load.payload|, i);
    }
  }

  lemma {:induction false} IsReady(service: TileMaxsimService, content: Key -> seq<Byte>)
    requires service.cache.Valid() && service.cache.entries == map[] && service.cache.held == multiset{}
    requires var pool := service.cache.pool; service !in pool.Allocators() + pool.Storages() + pool.Stagings()
    requires service.others == multiset{}
    requires forall t, op :: op in service.env(t) ==> Genuine(op, content)
    ensures service.Ready(multiset{}, content) && service.Unpinned()
    ensures service.Quiet() <==> forall t :: service.env(t) == []
  {
    hide GpuTensorCache.Inv, GpuResourcePool.Allocators, GpuResourcePool.Storages, GpuResourcePool.Stagings, Genuine;
  }

  /** Build everything; the new service is ready for a request. */
  method Start(layouts: seq<Layout>, allowEviction: bool, config: Config, pinMode: bool, engine: Engine,
               env: nat -> seq<Op>, sketch: nat -> Sketch, fault: nat -> Option<Fault>, engineFails: nat -> bool,
               ghost content: Key -> seq<Byte>)
    returns (service: TileMaxsimService)
    requires layouts != [] && forall i :: 0 <= i < |layouts| ==> layouts[i].Valid()
    requires forall t, op :: op in env(t) ==> Genuine(op, content)
    ensures service.Ready(multiset{}, content) && Shaped(service.cache.pool.arenas, layouts)
    ensures service.config == config && service.pinMode == pinMode && service.engine == engine
    ensures service.env == env && service.fault == fault && service.engineFails == engineFails
    ensures service.cache.allowEviction == allowEviction
    ensures service.Unpinned() && (service.Quiet() <==> forall t :: env(t) == [])
    ensures fresh(service) && fresh(service.cache) && fresh(service.cache.pool.Allocators())
    ensures fresh(service.cache.pool.Storages()) && fresh(service.cache.pool.Stagings())
  {
    hide GpuTensorCache.Inv, GpuTensorCache.Valid, Shaped, Genuine, Layout.Valid, TileMaxsimService.Ready,
      TileMaxsimService.Quiet, TileMaxsimService.Unpinned;
    var cache := NewCache(layouts, allowEviction);
    service := new TileMaxsimService(cache, config, pinMode, engine, env, sketch, fault, engineFails, multiset{});
    IsReady(service, content);
  }

  /** `results` are the scores of the tasks' own tensors, one each, in that order. */
  ghost predicate Scores(results: seq<(nat, real)>, done: seq<Task>, config: Config, engine: Engine,
                         content: Key -> seq<Byte>)
  {
    && |results| == |done|
    && forall i :: 0 <= i < |done| ==>
      var bytes := content(done[i].key);
      CanScore(config, engine, bytes) && results[i] == (done[i].id, ScoreOf(config, engine, bytes))
  }

  // What the candidates' keys name can be scored by the service.
  lemma {:induction false} IsScoring(service: TileMaxsimService, candidates: seq<Candidate>, content: Key -> seq<Byte>)
    requires CanScoreAll(service.config, service.engine, candidates, content)
    ensures service.Scoring(multiset(TasksOf(candidates)), content)
  {
    hide Tiles.Matrix;
    forall t | t in multiset(TasksOf(candidates)) ensures service.Scorable(content(t.key)) {
      var i :| 0 <= i < |candidates| && TasksOf(candidates)[i] == t;
      assert candidates[i] in candidates;
    }
  }

  // The answers of a service are scores of what the keys name.
  lemma {:induction false} AnswersAreScores(service: TileMaxsimService, results: seq<(nat, real)>, done: seq<Task>,
                                            tasks: multiset<Task>, content: Key -> seq<Byte>)
    requires service.Scoring(tasks, content) && multiset(done) == tasks && service.Answers(results, done, content)
    ensures Scores(results, done, service.config, service.engine, content)
  {
    hide Tiles.Matrix;
    forall i | 0 <= i < |done| ensures service.Scorable(content(done[i].key)) {
      assert done[i] in multiset(done);
    }
  }

  /** Every candidate is well formed and alone within the resident engine's workspace. */
  ghost predicate WithinLimits(config: Config, engine: Engine, candidates: seq<Candidate>) {
    forall c :: c in candidates ==>
      && WellShaped(c.load)
      && var rows := c.load.key.rows;
         (config.queryRows * config.dimension + rows * config.dimension + config.queryRows * rows) * engine.scalarBytes
           <= engine.workspace
  }

  // Well-formed candidates within the limits fail only with the device or the engine.
  lemma {:induction false} OnlyDevices(service: TileMaxsimService, reply: Reply, candidates: seq<Candidate>, from: nat)
    requires service.Reasoned(reply, LoadSet(candidates), multiset(TasksOf(candidates)), from)
    requires WithinLimits(service.config, service.engine, candidates)
    ensures reply.LoadFailed? ==> exists t :: service.fault(t).Some?
    ensures reply.EngineFailed? ==> exists t :: service.engineFails(t)
  {
    hide WellShaped, TileMaxsimService.Blocked;
    forall t | t in multiset(TasksOf(candidates))
      ensures service.Bytes(t.key.rows, service.engine.scalarBytes) <= service.engine.workspace
    {
      var i :| 0 <= i < |candidates| && TasksOf(candidates)[i] == t;
      assert candidates[i] in candidates;
      Distribute(service.config.queryRows * service.config.dimension, t.key.rows * service.config.dimension,
                 service.config.queryRows * t.key.rows, service.engine.scalarBytes);
    }
  }

  lemma {:induction false} Distribute(a: nat, b: nat, c: nat, s: nat)
    ensures (a + b + c) * s == a * s + b * s + c * s
  {
  }

  /**
   * Build everything and serve one request. It ends, a successful reply has the score of each candidate's own tensor,
   * once per candidate, and with eviction and without pins or other requests it always makes progress. Well-formed
   * candidates within the limits are then all scored, unless the device or the engine fails.
   */
  method Serve(layouts: seq<Layout>, allowEviction: bool, config: Config, pinMode: bool, engine: Engine,
               env: nat -> seq<Op>, sketch: nat -> Sketch, fault: nat -> Option<Fault>, engineFails: nat -> bool,
               candidates: seq<Candidate>, ghost content: Key -> seq<Byte>)
    returns (reply: Reply, ghost done: seq<Task>)
    requires layouts != [] && forall i :: 0 <= i < |layouts| ==> layouts[i].Valid()
    requires CanScoreAll(config, engine, candidates, content) && forall t, op :: op in env(t) ==> Genuine(op, content)
    requires forall c :: c in candidates ==> Servable(c, layouts, config, pinMode, content)
    ensures reply.Scored? ==>
              Scores(reply.results, done, config, engine, content) && multiset(done) == multiset(TasksOf(candidates))
    ensures reply.NoProgress? && allowEviction ==> pinMode || exists t :: env(t) != []
    ensures WithinLimits(config, engine, candidates) && reply.LoadFailed? ==> exists t :: fault(t).Some?
    ensures WithinLimits(config, engine, candidates) && reply.EngineFailed? ==> exists t :: engineFails(t)
    ensures
      && WithinLimits(config, engine, candidates) && allowEviction && !pinMode
      && (forall t :: env(t) == [] && fault(t).None? && !engineFails(t))
      ==> reply.Scored?
  {
    hide *;
    var service := Start(layouts, allowEviction, config, pinMode, engine, env, sketch, fault, engineFails, content);
    forall c | c in candidates ensures service.Admissible(c, content) {
      IsAdmissible(service, layouts, c, content);
    }
    IsScoring(service, candidates, content);
    ghost var from := service.tick;
    reply, done := service.Process(candidates, content);
    if WithinLimits(config, engine, candidates) { OnlyDevices(service, reply, candidates, from); }
    if reply.Scored? { AnswersAreScores(service, reply.results, done, multiset(TasksOf(candidates)), content); }
  }

  // ---- Where the source falls short ----

  /** One arena of one page. */
  function OnePage(): Layout {
    Layout(256, 256, 256)
  }

  /** A float tensor of `rows` rows and two columns, all zero. */
  function ZeroLoad(rows: nat, pin: bool): Load {
    Load(Key("m", "d", rows, 2, 1), rows, 2, 1, seq(8 * rows, _ => 0), pin)
  }

  lemma {:induction false} ZeroShape(rows: nat, pin: bool)
    requires 0 < rows < 1000
    ensures WellShaped(ZeroLoad(rows, pin)) && |ZeroLoad(rows, pin).payload| == 8 * rows
    ensures ZeroLoad(rows, pin).pin == pin && ZeroLoad(rows, pin).key == ZeroLoad(rows, false).key
  {
  }

  // A batch of one load that is neither bypassed nor deferred yields its handle.
  lemma {:induction false} OneHandle(load: Load, b: Batch)
    requires Classified([load], b, 1) && 0 !in b.bypassed && 0 !in b.deferred
    ensures |b.handles| == 1 && b.handles[0].Some? && b.handles[0].value.key == load.key
    ensures multiset(Given(b.handles)) == multiset{b.handles[0].value}
  {
    assert b.handles[..0] == [];
  }

  // The entry a handle names, in an otherwise unused cache.
  lemma {:induction false} OneEntry(entries: Entries, h: Handle, nextId: nat, load: Load, mark: nat)
    requires Counted(entries, multiset{h}, nextId) && Grown(map[], entries, mark, Pins([load])) && !load.pin
    requires FromLoads(entries, [load], mark)
    ensures h.key in entries && entries[h.key].references == 1 && !entries[h.key].pinned
  {
    assert h in multiset{h};
    assert h == Handle(h.key, entries[h.key].id);
  }

  /** The first tensor acquired without a pin is resident, referenced once and not pinned. */
  method AcquireFirst(cache: GpuTensorCache, load: Load, sketch: Sketch) returns (h: Handle)
    requires cache.Valid() && cache.entries == map[] && cache.held == multiset{} && cache.allowEviction
    requires WellShaped(load) && !load.pin && !cache.FitsNowhere(|load.payload|)
    modifies cache, cache.pool.Allocators(), cache.pool.Storages(), cache.pool.Stagings()
    ensures cache.Valid() && cache.held == multiset{h} && h.key == load.key
    ensures h.key in cache.entries && cache.entries[h.key].references == 1 && !cache.entries[h.key].pinned
  {
    hide *;
    ghost var mark := cache.nextId;
    OneLoad(load);
    var r, n, turns := cache.AcquireMany([load], false, sketch, None);
    NotBypassed(cache, load, r.batch);
    OneHandle(load, r.batch);
    h := r.batch.handles[0].value;
    IsCounted(cache);
    assert multiset{} + multiset{h} == multiset{h};
    OneEntry(cache.entries, h, cache.nextId, load, mark);
  }

  lemma {:induction false} OneLoad(load: Load)
    ensures AllWellShaped([load]) <==> WellShaped(load)
    ensures Idle(map[])
  {
    hide WellShaped;
    assert load in [load];
  }

  lemma {:induction false} NotBypassed(cache: GpuTensorCache, load: Load, b: Batch)
    requires cache.Explained([load], b, false) && !cache.FitsNowhere(|load.payload|)
    ensures 0 !in b.bypassed
  {
    hide GpuTensorCache.FitsNowhere;
    assert [load][0] == load;
  }

  lemma {:induction false} IsCounted(cache: GpuTensorCache)
    requires cache.Valid()
    ensures Counted(cache.entries, cache.held, cache.nextId)
  {
  }

  lemma {:induction false} OnePageFits()
    ensures OnePage().Valid() && [OnePage()][0].Fits(8) && !WellShaped(ZeroLoad(0, false))
  {
  }

  // Only the load before the malformed one was handled.
  lemma {:induction false} PinThenMalformed(pinned: Load, malformed: Load, n: nat)
    requires WellShaped(pinned) && pinned.pin && !WellShaped(malformed)
    requires n <= 2 && (n < 2 ==> !WellShaped([pinned, malformed][n])) && AllWellShaped([pinned, malformed][..n])
    ensures !AllWellShaped([pinned, malformed]) && Pins([pinned, malformed][..n]) == {pinned.key}
  {
    hide WellShaped;
    assert malformed in [pinned, malformed];
    assert n == 1;
    assert [pinned, malformed][..n] == [pinned];
  }

  lemma {:induction false} PinKept(before: Entries, after: Entries, k: Key)
    requires RolledBack(before, after, {k}) && k in before && before[k].references == 1
    ensures k in after && after[k].SamePlace(before[k]) && after[k].references == 1 && after[k].pinned
  {
  }

  /** A failed batch undoes its references but not its pin: a tensor that nobody asked to keep stays pinned. */
  method PinLeftBehind(sketch: Sketch) returns (cache: GpuTensorCache, before: Entry, after: Entry, r: Acquired)
    ensures cache.Valid() && r.Failed? && !before.pinned
    ensures var k := ZeroLoad(1, false).key; k in cache.entries && cache.entries[k] == after
    ensures after.SamePlace(before) && after.references == before.references == 1 && after.pinned
  {
    hide *;
    var load, pinned, malformed := ZeroLoad(1, false), ZeroLoad(1, true), ZeroLoad(0, false);
    ZeroShape(1, false);
    ZeroShape(1, true);
    OnePageFits();
    cache := NewCache([OnePage()], true);
    FitsSomewhere(cache, [OnePage()], 8, 0);
    var h := AcquireFirst(cache, load, sketch);
    before := cache.entries[h.key];
    ghost var n, entries, turns := 0, cache.entries, [];
    r, n, turns := cache.AcquireMany([pinned, malformed], false, sketch, None);
    PinThenMalformed(pinned, malformed, n);
    PinKept(entries, cache.entries, h.key);
    after := cache.entries[h.key];
  }

  /** No device bytes for streaming. */
  function NoStreaming(): Config {
    Config(1, 2, 0)
  }

  /** Every key names 64 rows of zeros, which take two pages. */
  function TwoPages(): Key -> seq<Byte> {
    _ => ZeroLoad(64, false).payload
  }

  lemma {:induction false} StuckFacts(service: TileMaxsimService, p: Pending)
    requires OnePage().Valid() && Shaped(service.cache.pool.arenas, [OnePage()]) && service.config == NoStreaming()
    requires p.load == ZeroLoad(64, false)
    ensures Stuck(p, service.config, service.TooLarge())
  {
    ZeroShape(64, false);
    hide WellShaped, ZeroLoad, FixedBlockAllocator.Valid;
    assert [OnePage()][0] == OnePage();
    assert !service.cache.pool.Capable(0, 512);
  }

  // A turn in which the only pending item is bypassed and cannot be streamed.
  lemma {:induction false} OnlyForced(c: Config, p: Pending, b: Batch, tooLarge: nat -> bool)
    requires InRange(b.bypassed, 1) && InRange(b.deferred, 1) && Classified(Loads([p]), b, 1)
    requires Turn(c, [p], b, NextPending(c, [p], b), tooLarge) && Stuck(p, c, tooLarge)
    ensures NextPending(c, [p], b) == [p.(forced := true)] && multiset(Given(b.handles)) == multiset{}
  {
    assert [p][0] == p;
    assert 0 in b.bypassed && 0 !in b.deferred;
    SplitLengths([p], b);
    WholeRange(b.bypassed, 1);
    assert b.bypassed == [0];
    assert b.handles == [None] && b.handles[..0] == [];
  }

  /** One turn of the pending loop for that tensor. */
  method StuckTurn(service: TileMaxsimService, p: Pending) returns (pending: seq<Pending>)
    requires OnePage().Valid() && Shaped(service.cache.pool.arenas, [OnePage()]) && service.config == NoStreaming()
    requires service.Ready(multiset{}, TwoPages()) && !service.pinMode && service.fault(service.tick).None?
    requires p.load == ZeroLoad(64, false)
    modifies service, service.cache, service.cache.pool.Allocators(), service.cache.pool.Storages(),
             service.cache.pool.Stagings()
    ensures service.Ready(multiset{}, TwoPages()) && pending == [p.(forced := true)]
  {
    StuckFacts(service, p);
    StuckLoads(p);
    hide *;
    var r, turns := service.AcquirePending([p], multiset{}, TwoPages());
    service.OversizeIsBypassed([p], r.batch, multiset{}, TwoPages());
    OnlyForced(NoStreaming(), p, r.batch, service.TooLarge());
    pending := NextPending(NoStreaming(), [p], r.batch);
  }

  lemma {:induction false} StuckLoads(p: Pending)
    requires p.load == ZeroLoad(64, false)
    ensures AllWellShaped(Loads([p])) && p.load.payload == TwoPages()(p.load.key) && !p.load.pin
  {
    ZeroShape(64, false);
    hide WellShaped;
    assert Loads([p]) == [p.load];
  }

  /**
   * A request that is never answered: in a new service that nobody else uses, with one arena of one page and nothing
   * that fails, its one tensor of two pages is still pending after any number of turns of the loop.
   */
  method StuckForever(turns: nat, engine: Engine, sketch: nat -> Sketch) returns (pending: seq<Pending>)
    ensures |pending| == 1 && pending[0].load == ZeroLoad(64, false)
  {
    hide *;
    OnePageFits();
    var service := Start([OnePage()], true, NoStreaming(), false, engine, _ => [], sketch, _ => None, _ => false,
                         TwoPages());
    pending := [Pending(0, ZeroLoad(64, false), false)];
    for k := 0 to turns
      invariant service.Ready(multiset{}, TwoPages())
      invariant |pending| == 1 && pending[0].load == ZeroLoad(64, false)
      modifies service, service.cache, service.cache.pool.Allocators(), service.cache.pool.Storages(),
               service.cache.pool.Stagings()
    {
      pending := StuckTurn(service, pending[0]);
    }
  }
}
