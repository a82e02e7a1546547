/** One request against the shared GPU cache (`TileMaxsimService.process_frame`), while other
    requests run: resident candidates are scored on the device, the rest are cycled through the
    cache or streamed, and every handle is given back. */
module Service {
  import opened Allocator
  import opened Arena
  import opened Pool
  import opened Directory
  import opened Cache
  import opened Batching
  import opened Groups
  import Tiles
  import Vectors

  datatype Reply =
    | Scored(results: seq<(nat, real)>)
    | LoadFailed        // a malformed tensor or a device fault during upload
    | EngineFailed      // deadline, disconnect or device failure while scoring
    | NoProgress        // "GPU block cache cannot make progress"

  /** The query, how payloads become matrices, and the resident engine's scalar width and workspace. */
  datatype Engine = Engine(query: seq<Vectors.Vec>, decode: seq<Byte> -> seq<Vectors.Vec>, scalarBytes: nat,
                           workspace: nat)

  class TileMaxsimService {
    const cache: GpuTensorCache
    const config: Config
    const pinMode: bool
    const engine: Engine
    /** What other requests do, the sketch answers, and which attempts fail, at each moment. */
    const env: nat -> seq<Op>
    const sketch: nat -> Sketch
    const fault: nat -> Option<Fault>
    const engineFails: nat -> bool
    var tick: nat
    var others: multiset<Handle>

    constructor (cache: GpuTensorCache, config: Config, pinMode: bool, engine: Engine, env: nat -> seq<Op>,
                 sketch: nat -> Sketch, fault: nat -> Option<Fault>, engineFails: nat -> bool, others: multiset<Handle>)
      ensures this.cache == cache && this.config == config && this.pinMode == pinMode && this.engine == engine
      ensures this.env == env && this.sketch == sketch && this.fault == fault && this.engineFails == engineFails
      ensures tick == 0 && this.others == others
    {
      this.cache, this.config, this.pinMode, this.engine, this.env := cache, config, pinMode, engine, env;
      this.sketch, this.fault, this.engineFails, this.tick, this.others := sketch, fault, engineFails, 0, others;
    }

    /** The payload is a matrix of the query's dimension with at least one row. */
    predicate Scorable(bytes: seq<Byte>) {
      Tiles.Matrix(engine.decode(bytes), config.dimension) && engine.decode(bytes) != []
    }

    /** The late-interaction score of a document against the query. */
    function Grade(bytes: seq<Byte>): real {
      if Tiles.Matrix(engine.query, config.dimension) && Scorable(bytes)
      then Tiles.Score(engine.query, engine.decode(bytes), config.dimension)
      else 0.0
    }

    /** What the tasks' keys name can be scored against the query. */
    ghost predicate Scoring(tasks: multiset<Task>, content: Key -> seq<Byte>) {
      Tiles.Matrix(engine.query, config.dimension) && forall t :: t in tasks ==> Scorable(content(t.key))
    }

    /** The same of resident documents. */
    ghost predicate ScoringThese(docs: seq<Resident>, content: Key -> seq<Byte>) {
      Tiles.Matrix(engine.query, config.dimension) && forall d :: d in docs ==> Scorable(content(d.handle.key))
    }

    lemma {:induction false} ScoringResident(tasks: multiset<Task>, docs: seq<Resident>, content: Key -> seq<Byte>)
      requires Scoring(tasks, content) && multiset(ResidentTasks(docs)) <= tasks
      ensures ScoringThese(docs, content)
    {
      hide Tiles.Matrix, Scorable;
      forall d | d in docs ensures Scorable(content(d.handle.key)) {
        var i :| 0 <= i < |docs| && docs[i] == d;
        assert ResidentTasks(docs)[i] in multiset(ResidentTasks(docs));
      }
    }

    /** The cache is sound, this request holds `mine`, and every tensor loaded anywhere is what its key names. */
    ghost predicate Ready(mine: multiset<Handle>, content: Key -> seq<Byte>)
      reads this, cache, cache.pool.Allocators(), cache.pool.Storages()
    {
      && this !in cache.pool.Allocators() + cache.pool.Storages() + cache.pool.Stagings()
      && cache.Valid() && cache.held == mine + others
      && Faithful(cache.entries, content)
      && Honest(content)
    }

    /** Other requests load only what their keys name. */
    ghost predicate Honest(content: Key -> seq<Byte>) {
      forall t, op :: op in env(t) ==> Genuine(op, content)
    }

    lemma {:induction false} ReadyParts(mine: multiset<Handle>, content: Key -> seq<Byte>)
      requires Ready(mine, content)
      ensures this !in cache.pool.Allocators() + cache.pool.Storages() + cache.pool.Stagings() && cache.Valid()
      ensures cache.held == mine + others && Faithful(cache.entries, content) && Honest(content)
    {
    }

    lemma {:induction false} ReadyMade(mine: multiset<Handle>, content: Key -> seq<Byte>)
      requires this !in cache.pool.Allocators() + cache.pool.Storages() + cache.pool.Stagings() && cache.Valid()
      requires cache.held == mine + others && Faithful(cache.entries, content) && Honest(content)
      ensures Ready(mine, content)
    {
    }

    /** Let the other requests run for a while. */
    method Yield(ghost mine: multiset<Handle>, ghost content: Key -> seq<Byte>)
      requires Ready(mine, content)
      modifies this, cache, cache.pool.Allocators(), cache.pool.Storages(), cache.pool.Stagings()
      ensures Ready(mine, content) && Stable(old(cache.entries), cache.entries, mine) && tick == old(tick) + 1
      ensures old(Quiet()) ==> Quiet() && cache.entries == old(cache.entries)
      ensures old(Quiet() && Unpinned()) ==> Unpinned()
    {
      hide GpuTensorCache.Inv, Faithful, Stable;
      others := cache.Interfere(env(tick), others, mine, content);
      tick := tick + 1;
    }

    /** Nobody else uses the cache. */
    ghost predicate Quiet()
      reads this
    {
      others == multiset{} && forall t :: env(t) == []
    }

    /** Read a tensor through a handle this request holds. */
    method ReadTensor(h: Handle, ghost mine: multiset<Handle>, ghost content: Key -> seq<Byte>)
        returns (bytes: seq<Byte>)
      requires Ready(mine, content) && h in mine
      ensures bytes == content(h.key)
    {
      hide GpuTensorCache.Inv, GpuArena.HoldsAt;
      assert h in cache.held;
      cache.HeldPages(h);
      var e := cache.entries[h.key];
      bytes := cache.pool.arenas[e.arena].Read(e.first, |e.payload|, e.payload);
    }
  
    /** `results` are the right answers for the entries of `done`, one each, in that order. */
    ghost predicate Answers(results: seq<(nat, real)>, done: seq<Task>, content: Key -> seq<Byte>) {
      |results| == |done| && forall i :: 0 <= i < |done| ==> results[i] == (done[i].id, Grade(content(done[i].key)))
    }

    lemma {:induction false} AnswersJoin(r: seq<(nat, real)>, s: seq<(nat, real)>, d: seq<Task>, e: seq<Task>,
                                         content: Key -> seq<Byte>)
      requires Answers(r, d, content) && Answers(s, e, content)
      ensures Answers(r + s, d + e, content)
    {
    }

    /** Device bytes for scoring a document of `rows` rows. */
    function Bytes(rows: nat, scalarBytes: nat): nat {
      Footprint(config.queryRows, config.dimension, scalarBytes, rows)
    }

    /** Score documents group by group, each group from one matrix of similarities; refused if and only if one document
        alone exceeds the budget. */
    method ScoreGroups(documents: seq<Document>, scalarBytes: nat, budget: nat) returns (r: Option<seq<(nat, real)>>)
      requires Tiles.Matrix(engine.query, config.dimension) && forall d :: d in documents ==> Scorable(d.payload)
      ensures r.None? <==> exists d :: d in documents && Bytes(d.rows, scalarBytes) > budget
      ensures r.Some? ==> Graded(r.value, documents)
    {
      hide Footprint, WithinBudget, Greedy, Grade;
      var cut := Cut(config.queryRows, config.dimension, scalarBytes, documents, budget);
      if cut.None? {
        return None;
      }
      var groups := cut.value;
      var results := [];
      assert groups[..|groups|] == groups;
      for g := 0 to |groups|
        invariant Graded(results, Concat(groups[..g]))
      {
        GroupWithin(groups, g, documents);
        var more := ScoreGroup(groups[g]);
        GradedJoin(results, more, Concat(groups[..g]), groups[g]);
        results := results + more;
      }
      r := Some(results);
    }

    /** `results` are the documents' scores, one each, in that order. */
    ghost predicate Graded(results: seq<(nat, real)>, documents: seq<Document>) {
      |results| == |documents|
      && forall i :: 0 <= i < |documents| ==> results[i] == (documents[i].id, Grade(documents[i].payload))
    }

    lemma {:induction false} GradedJoin(r: seq<(nat, real)>, s: seq<(nat, real)>, d: seq<Document>, e: seq<Document>)
      requires Graded(r, d) && Graded(s, e)
      ensures Graded(r + s, d + e)
    {
      hide Grade;
    }

    /** The scores of one group, as slices of the similarities with the concatenated documents. */
    method ScoreGroup(group: seq<Document>) returns (results: seq<(nat, real)>)
      requires Tiles.Matrix(engine.query, config.dimension) && forall d :: d in group ==> Scorable(d.payload)
      ensures Graded(results, group)
    {
      hide Tiles.Matrix;
      assert forall i :: 0 <= i < |group| ==> group[i] in group;
      var docs := seq(|group|, i requires 0 <= i < |group| => engine.decode(group[i].payload));
      var scores := Tiles.SlicedScores(engine.query, docs, config.dimension);
      results := seq(|group|, i requires 0 <= i < |group| => (group[i].id, scores[i]));
    }

    /** One of these tensors alone exceeds the resident engine's workspace. */
    ghost predicate Oversized(tasks: multiset<Task>) {
      exists t :: t in tasks && Bytes(t.key.rows, engine.scalarBytes) > engine.workspace
    }

    lemma {:induction false} OversizedPart(part: multiset<Task>, tasks: multiset<Task>)
      requires Oversized(part) && part <= tasks
      ensures Oversized(tasks)
    {
    }

    lemma {:induction false} OversizedSum(a: multiset<Task>, b: multiset<Task>)
      ensures Oversized(a + b) <==> Oversized(a) || Oversized(b)
    {
    }

    lemma {:induction false} OversizedDocs(docs: seq<Resident>)
      ensures Oversized(multiset(ResidentTasks(docs))) <==>
              exists d :: d in docs && Bytes(d.handle.key.rows, engine.scalarBytes) > engine.workspace
    {
      hide Bytes;
      var tasks := ResidentTasks(docs);
      if t: Task :| t in multiset(tasks) && Bytes(t.key.rows, engine.scalarBytes) > engine.workspace {
        var i :| 0 <= i < |tasks| && tasks[i] == t;
        assert docs[i] in docs;
      }
      if d :| d in docs && Bytes(d.handle.key.rows, engine.scalarBytes) > engine.workspace {
        var i :| 0 <= i < |docs| && docs[i] == d;
        assert tasks[i] in multiset(tasks);
      }
    }

    lemma {:induction false} OversizedSome(some: seq<Resident>, docs: seq<Resident>)
      requires Oversized(multiset(ResidentTasks(some))) && forall d :: d in some ==> d in docs
      ensures Oversized(multiset(ResidentTasks(docs)))
    {
      hide Bytes;
      OversizedDocs(some);
      OversizedDocs(docs);
    }

    lemma {:induction false} NoAnswers(content: Key -> seq<Byte>)
      ensures ResidentTasks([]) == [] && Answers([], [], content) && !Oversized(multiset([]))
    {
    }

    /** Score the documents of one device while other requests go on; refused where one alone exceeds the workspace. */
    method ScoreDevice(docs: seq<Resident>, ghost mine: multiset<Handle>, ghost content: Key -> seq<Byte>)
      returns (r: Option<seq<(nat, real)>>)
      requires Ready(mine, content) && ScoringThese(docs, content) && forall d :: d in docs ==> d.handle in mine
      modifies this, cache, cache.pool.Allocators(), cache.pool.Storages(), cache.pool.Stagings()
      ensures Ready(mine, content) && (r.Some? ==> Answers(r.value, ResidentTasks(docs), content)) && tick >= old(tick)
      ensures r.None? <==> Oversized(multiset(ResidentTasks(docs)))
      ensures old(Quiet()) ==> Quiet() && cache.entries == old(cache.entries)
    {
      hide Ready, Quiet, Grade, Scorable, Footprint, Oversized;
      var tensors: seq<Document> := [];
      for i := 0 to |docs|
        invariant Ready(mine, content) && tick >= old(tick)
        invariant |tensors| == i && forall j :: 0 <= j < i ==>
                    tensors[j] == Document(docs[j].id, docs[j].handle.key, docs[j].handle.key.rows,
                                           content(docs[j].handle.key))
        invariant old(Quiet()) ==> Quiet() && cache.entries == old(cache.entries)
      {
        Yield(mine, content);
        assert docs[i] in docs;
        var bytes := ReadTensor(docs[i].handle, mine, content);
        tensors := tensors + [Document(docs[i].id, docs[i].handle.key, docs[i].handle.key.rows, bytes)];
      }
      OversizedDocs(docs);
      r := ScoreGroups(tensors, engine.scalarBytes, engine.workspace);
      assert forall i :: 0 <= i < |docs| ==> docs[i] in docs && tensors[i] in tensors;
    }

    /** The device every document lives on. */
    method Places(docs: seq<Resident>, ghost mine: multiset<Handle>, ghost content: Key -> seq<Byte>)
        returns (place: seq<nat>)
      requires Ready(mine, content) && forall d :: d in docs ==> d.handle in mine
      ensures |place| == |docs| && forall i :: 0 <= i < |place| ==> place[i] < |cache.pool.arenas|
    {
      hide GpuTensorCache.Inv, Faithful, GpuArena.HoldsAt;
      place := [];
      for i := 0 to |docs|
        invariant |place| == i && forall j :: 0 <= j < i ==> place[j] < |cache.pool.arenas|
      {
        assert docs[i] in docs;
        assert docs[i].handle in cache.held;
        cache.HeldPages(docs[i].handle);
        place := place + [cache.entries[docs[i].handle.key].arena];
      }
    }

    /** Score resident documents device by device, unless the engine fails or a document exceeds its workspace. */
    method ScoreResident(docs: seq<Resident>, ghost mine: multiset<Handle>, ghost content: Key -> seq<Byte>)
      returns (r: Option<seq<(nat, real)>>, ghost done: seq<Task>)
      requires Ready(mine, content) && ScoringThese(docs, content) && forall d :: d in docs ==> d.handle in mine
      modifies this, cache, cache.pool.Allocators(), cache.pool.Storages(), cache.pool.Stagings()
      ensures Ready(mine, content) && tick >= old(tick)
      ensures r.None? <==> engineFails(old(tick)) || Oversized(multiset(ResidentTasks(docs)))
      ensures r.Some? ==> Answers(r.value, done, content) && multiset(done) == multiset(ResidentTasks(docs))
      ensures old(Quiet()) ==> Quiet() && cache.entries == old(cache.entries)
    {
      hide Ready, Quiet, Answers, BeforeDevice, OnDevice, ResidentTasks, Oversized;
      done := [];
      if engineFails(tick) {
        return None, [];
      }
      var place := Places(docs, mine, content);
      var results := [];
      AllDevices(docs, place, |cache.pool.arenas|);
      NoAnswers(content);
      for a := 0 to |cache.pool.arenas|
        invariant Ready(mine, content) && Answers(results, done, content) && tick >= old(tick)
        invariant !Oversized(multiset(done))
        invariant multiset(done) == multiset(ResidentTasks(BeforeDevice(docs, place, a)))
        invariant old(Quiet()) ==> Quiet() && cache.entries == old(cache.entries)
      {
        var group := OnDevice(docs, place, a);
        DeviceNext(docs, place, a);
        var more := ScoreDevice(group, mine, content);
        if more.None? {
          OversizedSome(group, docs);
          return None, [];
        }
        OversizedSum(multiset(done), multiset(ResidentTasks(group)));
        AnswersJoin(results, more.value, done, ResidentTasks(group), content);
        results, done := results + more.value, done + ResidentTasks(group);
      }
      r := Some(results);
    }
  
    /** No resident tensor is pinned. */
    ghost predicate Unpinned()
      reads cache
    {
      forall k :: k in cache.entries ==> !cache.entries[k].pinned
    }

    /** Give one handle back. */
    method ReleaseOne(h: Handle, ghost mine: multiset<Handle>, ghost content: Key -> seq<Byte>)
      requires Ready(mine, content) && h in mine
      modifies cache
      ensures Ready(mine - multiset{h}, content)
      ensures old(Unpinned()) ==> Unpinned()
      ensures old(Quiet()) ==> Quiet()
    {
      hide GpuTensorCache.Inv, Faithful;
      assert h in cache.held;
      var ok := cache.Release(h);
      UpdatedFaithful(old(cache.entries), h.key, cache.entries[h.key], content);
      assert mine + others - multiset{h} == (mine - multiset{h}) + others;
    }

    method ReleaseNext(docs: seq<Resident>, i: nat, ghost content: Key -> seq<Byte>)
      requires i < |docs| && Ready(multiset(HandlesOf(docs)[i..]), content)
      modifies this, cache, cache.pool.Allocators(), cache.pool.Storages(), cache.pool.Stagings()
      ensures Ready(multiset(HandlesOf(docs)[i + 1..]), content) && tick >= old(tick)
      ensures old(Quiet()) ==> Quiet() && (old(Unpinned()) ==> Unpinned())
    {
      hide Ready, Quiet, Unpinned;
      RestSplit(HandlesOf(docs), i);
      Yield(multiset(HandlesOf(docs)[i..]), content);
      ReleaseOne(docs[i].handle, multiset(HandlesOf(docs)[i..]), content);
    }

    /** Give back every handle, while other requests go on. */
    method ReleaseAll(docs: seq<Resident>, ghost content: Key -> seq<Byte>)
      requires Ready(multiset(HandlesOf(docs)), content)
      modifies this, cache, cache.pool.Allocators(), cache.pool.Storages(), cache.pool.Stagings()
      ensures Ready(multiset{}, content) && tick >= old(tick)
      ensures old(Quiet()) ==> Quiet() && (old(Unpinned()) ==> Unpinned())
    {
      assert HandlesOf(docs)[0..] == HandlesOf(docs) && HandlesOf(docs)[|docs|..] == [];
      hide Ready, Quiet, Unpinned, HandlesOf;
      for i := 0 to |docs|
        invariant Ready(multiset(HandlesOf(docs)[i..]), content) && tick >= old(tick)
        invariant old(Quiet()) ==> Quiet() && (old(Unpinned()) ==> Unpinned())
      {
        ReleaseNext(docs, i, content);
      }
    }

    /** Score resident documents and give back their handles, whether scoring succeeds or not. */
    method Flush(docs: seq<Resident>, ghost content: Key -> seq<Byte>)
        returns (r: Option<seq<(nat, real)>>, ghost done: seq<Task>)
      requires Ready(multiset(HandlesOf(docs)), content) && ScoringThese(docs, content)
      modifies this, cache, cache.pool.Allocators(), cache.pool.Storages(), cache.pool.Stagings()
      ensures Ready(multiset{}, content) && tick >= old(tick)
      ensures r.None? <==> engineFails(old(tick)) || Oversized(multiset(ResidentTasks(docs)))
      ensures r.Some? ==> Answers(r.value, done, content) && multiset(done) == multiset(ResidentTasks(docs))
      ensures old(Quiet()) ==> Quiet() && (old(Unpinned()) ==> Unpinned())
    {
      hide Ready, Quiet, Answers, ResidentTasks, ScoringThese, Oversized;
      forall d | d in docs ensures d.handle in multiset(HandlesOf(docs)) {
        var i :| 0 <= i < |docs| && docs[i] == d;
        assert HandlesOf(docs)[i] == d.handle;
      }
      r, done := ScoreResident(docs, multiset(HandlesOf(docs)), content);
      ReleaseAll(docs, content);
    }
  
    /** The payload sizes no arena can hold. */
    ghost function TooLarge(): nat -> bool {
      (n: nat) => cache.FitsNowhere(n)
    }

    /** Every candidate is accounted for exactly once: answered, resident, to be streamed, or pending. */
    ghost predicate Accounted(tasks: multiset<Task>, results: seq<(nat, real)>, done: seq<Task>,
                              resident: seq<Resident>,
                              documents: seq<Document>, pending: seq<Pending>, content: Key -> seq<Byte>)
    {
      && Answers(results, done, content) && Scoring(tasks, content)
      && tasks == multiset(done) + multiset(ResidentTasks(resident)) + multiset(DocumentTasks(documents))
        + multiset(PendingTasks(pending))
      && (forall p :: p in pending ==> Sound(p, config, pinMode, content, TooLarge()))
      && (forall d :: d in documents ==> d.payload == content(d.key) && config.Streamable(d.rows))
    }

    lemma {:induction false} Regroup(tasks: multiset<Task>, done: multiset<Task>, resident: multiset<Task>,
                                     streamed: multiset<Task>,
                                     arrived: multiset<Task>, bypassed: multiset<Task>, rest: multiset<Task>)
      requires tasks == done + resident + streamed + (arrived + bypassed + rest)
      ensures tasks == done + (resident + arrived) + (streamed + bypassed) + rest
    {
    }

    lemma {:induction false} AccountedScoring(tasks: multiset<Task>, results: seq<(nat, real)>, done: seq<Task>,
                                              resident: seq<Resident>, documents: seq<Document>, pending: seq<Pending>,
                                              content: Key -> seq<Byte>)
      requires Accounted(tasks, results, done, resident, documents, pending, content)
      ensures ScoringThese(resident, content) && multiset(ResidentTasks(resident)) <= tasks
    {
      hide Answers, Scoring, ScoringThese, Sound;
      ScoringResident(tasks, resident, content);
    }

    /** A round of the cache moves tasks from pending to resident and to the streaming list. */
    lemma {:induction false} AccountRound(tasks: multiset<Task>, results: seq<(nat, real)>, done: seq<Task>,
                                          resident: seq<Resident>,
                       documents: seq<Document>, pending: seq<Pending>, b: Batch, content: Key -> seq<Byte>)
      requires Accounted(tasks, results, done, resident, documents, pending, content)
      requires Sorted3(|pending|, b) && OwnHandles(pending, b.handles)
      ensures Accounted(tasks, results, done, resident + Arrived(pending, b.handles), documents
                        + Streamed(config, pending, b.bypassed),
                        NextPending(config, pending, b), content)
    {
      hide TooLarge, Config.Streamable, OwnHandles;
      hide Arrived, Streamed, NextPending, ResidentTasks, DocumentTasks, PendingTasks, Sound, Answers;
      NextSound(config, pending, b, pinMode, content, TooLarge());
      RoundConserves(config, pending, b);
      ResidentJoin(resident, Arrived(pending, b.handles));
      DocumentJoin(documents, Streamed(config, pending, b.bypassed));
      Regroup(tasks, multiset(done), multiset(ResidentTasks(resident)), multiset(DocumentTasks(documents)),
              multiset(ResidentTasks(Arrived(pending, b.handles))),
                multiset(DocumentTasks(Streamed(config, pending, b.bypassed))),
              multiset(PendingTasks(NextPending(config, pending, b))));
    }

    /** Scoring the resident documents turns their tasks into answers. */
    lemma {:induction false} AccountFlush(tasks: multiset<Task>, results: seq<(nat, real)>, done: seq<Task>,
                                          resident: seq<Resident>,
                       documents: seq<Document>, pending: seq<Pending>, content: Key -> seq<Byte>,
                       more: seq<(nat, real)>, also: seq<Task>)
      requires Accounted(tasks, results, done, resident, documents, pending, content)
      requires Answers(more, also, content) && multiset(also) == multiset(ResidentTasks(resident))
      ensures Accounted(tasks, results + more, done + also, [], documents, pending, content)
    {
      AnswersJoin(results, more, done, also, content);
      assert ResidentTasks([]) == [];
      hide ResidentTasks, DocumentTasks, PendingTasks, Sound, Answers;
    }

    /** The candidate's payload is the one its key names, and it fits some arena or the streaming engine. */
    ghost predicate Admissible(c: Candidate, content: Key -> seq<Byte>) {
      Sound(Pending(c.id, c.load, false), config, pinMode, content, TooLarge())
    }

    /** Find out what is resident already. */
    method Probe(candidates: seq<Candidate>, ghost content: Key -> seq<Byte>)
      returns (resident: seq<Resident>, pending: seq<Pending>)
      requires Ready(multiset{}, content) && Scoring(multiset(TasksOf(candidates)), content)
      requires forall c :: c in candidates ==> Admissible(c, content)
      modifies this, cache, cache.pool.Allocators(), cache.pool.Storages(), cache.pool.Stagings()
      ensures Ready(multiset(HandlesOf(resident)), content) && tick >= old(tick)
      ensures Accounted(multiset(TasksOf(candidates)), [], [], resident, [], pending, content)
      ensures Within(pending, LoadSet(candidates))
      ensures old(Quiet()) ==> Quiet() && (old(Unpinned()) ==> Unpinned())
    {
      hide GpuTensorCache.Inv, Faithful, Probed, Given, Sound;
      var keys := KeysOf(candidates);
      var handles, missing := cache.ProbeMany(keys, sketch(tick).frequency);
      ProbeSplits(candidates, old(cache.entries), handles, missing);
      var all := Fresh0(candidates);
      resident, pending := Arrived(all, handles), PickAt(all, missing);
      ArrivedHandles(all, handles);
      TouchedFaithful(old(cache.entries), cache.entries, content);
      assert Ready(multiset(HandlesOf(resident)), content);
      ProbeAccounted(candidates, resident, missing, content);
      ProbeWithin(candidates, missing);
      hide Ready, Accounted, Quiet;
      Yield(multiset(HandlesOf(resident)), content);
    }

    lemma {:induction false} ProbeWithin(candidates: seq<Candidate>, missing: seq<nat>)
      requires InRange(missing, |candidates|)
      ensures Within(PickAt(Fresh0(candidates), missing), LoadSet(candidates))
    {
      forall i | 0 <= i < |missing| ensures candidates[missing[i]].load in LoadSet(candidates) {
        assert candidates[missing[i]] in candidates;
      }
    }

    lemma {:induction false} ProbeAccounted(candidates: seq<Candidate>, resident: seq<Resident>, missing: seq<nat>,
                                            content: Key -> seq<Byte>)
      requires Scoring(multiset(TasksOf(candidates)), content)
      requires forall c :: c in candidates ==> Admissible(c, content)
      requires InRange(missing, |candidates|)
      requires multiset(TasksOf(candidates)) == multiset(ResidentTasks(resident))
               + multiset(PendingTasks(PickAt(Fresh0(candidates), missing)))
      ensures Accounted(multiset(TasksOf(candidates)), [], [], resident, [], PickAt(Fresh0(candidates), missing),
                        content)
    {
      var pending := PickAt(Fresh0(candidates), missing);
      forall p | p in pending ensures Sound(p, config, pinMode, content, TooLarge()) {
        var j :| 0 <= j < |missing| && pending[j] == p;
        assert candidates[missing[j]] in candidates;
      }
      assert DocumentTasks([]) == [] && Answers([], [], content);
    }

    /** The device fails while uploading at this moment. */
    ghost predicate Faults(t: nat) {
      fault(t).Some? && fault(t).value.arena < |cache.pool.arenas|
    }

    lemma {:induction false} FaultsIs(t: nat)
      ensures Faults(t) <==> fault(t).Some? && fault(t).value.arena < |cache.pool.arenas|
    {
    }

    /** Why loading may fail between two moments: a malformed load, or the device. */
    ghost predicate BadLoad(loads: set<Load>, from: nat, to: nat) {
      (exists l :: l in loads && !WellShaped(l)) || exists t :: from <= t <= to && Faults(t)
    }

    /** Why scoring may fail between two moments: the engine, or a tensor that exceeds its workspace. */
    ghost predicate BadScore(tasks: multiset<Task>, from: nat, to: nat) {
      Oversized(tasks) || exists t :: from <= t <= to && engineFails(t)
    }

    /** One of these loads would fit an empty arena, but has no room and nothing may be evicted for it. */
    ghost predicate Blocked(loads: set<Load>)
      reads cache
    {
      exists l :: l in loads && cache.Stuck(cache.entries, l)
    }

    /** A reply that is no answer has its reason. */
    ghost predicate Reasoned(reply: Reply, loads: set<Load>, tasks: multiset<Task>, from: nat)
      reads this, cache
    {
      match reply
      case Scored(_) => true
      case LoadFailed => BadLoad(loads, from, tick)
      case EngineFailed => BadScore(tasks, from, tick)
      case NoProgress => Blocked(loads)
    }

    lemma {:induction false} WhyLoad(pending: seq<Pending>, at: nat, loads: set<Load>, tasks: multiset<Task>, from: nat)
      requires Within(pending, loads) && from <= at <= tick && (!AllWellShaped(Loads(pending)) || Faults(at))
      ensures Reasoned(LoadFailed, loads, tasks, from)
    {
      hide AllWellShaped, Loads, Within, WellShaped, Faults;
      LoadsWithin(pending, loads);
    }

    lemma {:induction false} WhyScore(docs: seq<Resident>, at: nat, loads: set<Load>, tasks: multiset<Task>, from: nat)
      requires engineFails(at) || Oversized(multiset(ResidentTasks(docs)))
      requires multiset(ResidentTasks(docs)) <= tasks && from <= at <= tick
      ensures Reasoned(EngineFailed, loads, tasks, from)
    {
      hide Oversized, ResidentTasks;
      if !engineFails(at) { OversizedPart(multiset(ResidentTasks(docs)), tasks); }
    }

    lemma {:induction false} WhyStuck(pending: seq<Pending>, loads: set<Load>, tasks: multiset<Task>, from: nat)
      requires pending != [] && Within(pending, loads)
      requires cache.Stuck(cache.entries, Loads(pending)[|pending| - 1])
      ensures Reasoned(NoProgress, loads, tasks, from)
    {
      hide GpuTensorCache.Stuck;
    }

    lemma {:induction false} ReasonedLater(reply: Reply, loads: set<Load>, tasks: multiset<Task>, from: nat, later: nat)
      requires Reasoned(reply, loads, tasks, later) && from <= later
      ensures Reasoned(reply, loads, tasks, from)
    {
      hide Oversized, Blocked, Faults;
    }

    /** Serve a request. Whatever other requests do, and whatever fails, every handle taken is given back;
        a successful reply answers every candidate exactly once, with the score of its own tensor. */
    method Process(candidates: seq<Candidate>, ghost content: Key -> seq<Byte>)
        returns (reply: Reply, ghost done: seq<Task>)
      requires Ready(multiset{}, content) && Scoring(multiset(TasksOf(candidates)), content)
      requires forall c :: c in candidates ==> Admissible(c, content)
      modifies this, cache, cache.pool.Allocators(), cache.pool.Storages(), cache.pool.Stagings()
      ensures Ready(multiset{}, content)
      ensures reply.Scored? ==> Answers(reply.results, done, content) && multiset(done) == multiset(TasksOf(candidates))
      ensures reply.NoProgress? && cache.allowEviction ==> pinMode || !old(Quiet() && Unpinned())
      ensures Reasoned(reply, LoadSet(candidates), multiset(TasksOf(candidates)), old(tick))
    {
      hide Ready, Quiet, Unpinned, Accounted, Admissible, Scoring, ScoringThese, Reasoned, Within, LoadSet;
      var results: seq<(nat, real)>, documents: seq<Document> := [], [];
      done := [];
      ghost var tasks := multiset(TasksOf(candidates));
      var resident, pending := Probe(candidates, content);
      while pending != []
        invariant Ready(multiset(HandlesOf(resident)), content)
        invariant Accounted(tasks, results, done, resident, documents, pending, content)
        invariant Within(pending, LoadSet(candidates)) && tick >= old(tick)
        invariant old(Quiet() && Unpinned()) && !pinMode ==> Quiet() && Unpinned()
        decreases |pending|, Unforced(pending), |resident|
      {
        var failure;
        ghost var now := tick;
        failure, pending, documents, results, done := Round(pending, resident, documents, results, done, tasks,
                                                            LoadSet(candidates), content);
        resident := [];
        if failure.Some? {
          ReasonedLater(failure.value, LoadSet(candidates), tasks, old(tick), now);
          return failure.value, done;
        }
        assert HandlesOf([]) == [];
      }
      ghost var now := tick;
      reply, done := Conclude(resident, documents, results, done, tasks, LoadSet(candidates), content);
      ReasonedLater(reply, LoadSet(candidates), tasks, old(tick), now);
    }

    /** Nothing is pending any more: score what is resident, then what is to be streamed. */
    method Conclude(resident: seq<Resident>, documents: seq<Document>, scored: seq<(nat, real)>,
                    ghost answered: seq<Task>, ghost tasks: multiset<Task>, ghost loads: set<Load>,
                    ghost content: Key -> seq<Byte>)
        returns (reply: Reply, ghost done: seq<Task>)
      requires Ready(multiset(HandlesOf(resident)), content)
      requires Accounted(tasks, scored, answered, resident, documents, [], content)
      modifies this, cache, cache.pool.Allocators(), cache.pool.Storages(), cache.pool.Stagings()
      ensures Ready(multiset{}, content) && !reply.NoProgress?
      ensures reply.Scored? ==> Answers(reply.results, done, content) && multiset(done) == tasks
      ensures Reasoned(reply, loads, tasks, old(tick))
    {
      hide Ready, Accounted, Scoring, ScoringThese, Answers, Oversized;
      var results := scored;
      done := answered;
      if resident != [] {
        var more;
        ghost var also;
        AccountedScoring(tasks, results, done, resident, documents, [], content);
        more, also := Flush(resident, content);
        if more.None? {
          WhyScore(resident, old(tick), loads, tasks, old(tick));
          return EngineFailed, done;
        }
        AccountFlush(tasks, results, done, resident, documents, [], content, more.value, also);
        results, done := results + more.value, done + also;
      }
      assert HandlesOf([]) == [];
      AccountedEnd(tasks, results, done, documents, content);
      var more := ScoreStream(documents, content);
      if more.None? {
        return EngineFailed, done;
      }
      AnswersJoin(results, more.value, done, DocumentTasks(documents), content);
      return Scored(results + more.value), done + DocumentTasks(documents);
    }

    lemma {:induction false} AccountedEnd(tasks: multiset<Task>, results: seq<(nat, real)>, done: seq<Task>,
                                          documents: seq<Document>, content: Key -> seq<Byte>)
      requires Accounted(tasks, results, done, [], documents, [], content)
      ensures Answers(results, done, content) && multiset(done + DocumentTasks(documents)) == tasks
      ensures Scoring(multiset(DocumentTasks(documents)), content)
      ensures forall d :: d in documents ==> d.payload == content(d.key) && config.Streamable(d.rows)
    {
      assert ResidentTasks([]) == [] && PendingTasks([]) == [];
    }

    /** Score the streamed documents group by group; their sizes never trip the engine's own limit. */
    method ScoreStream(documents: seq<Document>, ghost content: Key -> seq<Byte>) returns (r: Option<seq<(nat, real)>>)
      requires Scoring(multiset(DocumentTasks(documents)), content)
      requires forall d :: d in documents ==> d.payload == content(d.key) && config.Streamable(d.rows)
      ensures r.Some? ==> Answers(r.value, DocumentTasks(documents), content)
      ensures r.None? <==> engineFails(tick)
    {
      if engineFails(tick) {
        return None;
      }
      StreamedFits(documents);
      hide Grade, Scorable, Footprint, Config.Streamable;
      forall d | d in documents ensures Scorable(d.payload) {
        var i :| 0 <= i < |documents| && documents[i] == d;
        assert DocumentTasks(documents)[i] in multiset(DocumentTasks(documents));
      }
      r := ScoreGroups(documents, 4, config.maxDeviceBytes);
      assert forall j :: 0 <= j < |documents| ==> documents[j] in documents;
    }

    lemma {:induction false} StreamedFits(documents: seq<Document>)
      requires forall d :: d in documents ==> config.Streamable(d.rows)
      ensures forall d :: d in documents ==> Bytes(d.rows, 4) <= config.maxDeviceBytes
    {
      forall d | d in documents ensures Bytes(d.rows, 4) <= config.maxDeviceBytes {
        StreamableIff(d.rows);
      }
    }

    /** The loop streams exactly what the streaming engine's own limit admits: query, document and product as floats. */
    lemma {:induction false} StreamableIff(rows: nat)
      ensures config.Streamable(rows) <==> Bytes(rows, 4) <= config.maxDeviceBytes
      ensures Bytes(rows, 4) == 4 * (config.queryRows * config.dimension + rows * config.dimension
                                     + config.queryRows * rows)
    {
    }

    /** One turn of the pending loop: ask the cache, stream or force what it refused, score what arrived. */
    method Round(pending: seq<Pending>, resident: seq<Resident>, documents: seq<Document>, results: seq<(nat, real)>,
                 ghost done: seq<Task>, ghost tasks: multiset<Task>, ghost loads: set<Load>,
                 ghost content: Key -> seq<Byte>)
      returns (failure: Option<Reply>, pending': seq<Pending>, documents': seq<Document>, results': seq<(nat, real)>,
               ghost done': seq<Task>)
      requires pending != [] && Ready(multiset(HandlesOf(resident)), content)
      requires Accounted(tasks, results, done, resident, documents, pending, content) && Within(pending, loads)
      modifies this, cache, cache.pool.Allocators(), cache.pool.Storages(), cache.pool.Stagings()
      ensures Ready(multiset{}, content) && tick >= old(tick)
      ensures failure.Some? ==> !failure.value.Scored? && Reasoned(failure.value, loads, tasks, old(tick))
      ensures failure.None? ==>
        Accounted(tasks, results', done', [], documents', pending', content) && Within(pending', loads)
      ensures failure.None? ==>
        || |pending'| < |pending| || (|pending'| == |pending| && Unforced(pending') < Unforced(pending))
        || (pending' == pending && resident != [])
      ensures old(Quiet()) ==> Quiet()
      ensures old(Quiet() && Unpinned()) && !pinMode && failure.None? ==> Unpinned()
      ensures failure == Some(NoProgress) && cache.allowEviction ==> pinMode || !old(Quiet() && Unpinned())
    {
      hide Ready, Accounted, Quiet, Unpinned, Given, ScoringThese, Oversized, GpuTensorCache.Stuck, Reasoned, Within,
        Faults, AllWellShaped, Loads, NextPending, Arrived, Streamed, Classified, GpuTensorCache.Explained, Sound;
      pending', documents', results', done' := pending, documents, results, done;
      assert forall p :: p in pending ==> p.load.payload == content(p.load.key) && p.load.pin == pinMode by {
        AccountedSound(tasks, results, done, resident, documents, pending, content);
      }
      var acquired, turns := AcquirePending(pending, multiset(HandlesOf(resident)), content);
      if acquired.Failed? {
        ReleaseAll(resident, content);
        WhyLoad(pending, old(tick), loads, tasks, old(tick));
        return Some(LoadFailed), pending', documents', results', done';
      }
      var b := acquired.batch;
      RoundFacts(tasks, results, done, resident, documents, pending, b, content);
      NextWithin(config, pending, b, loads);
      var now := resident + Arrived(pending, b.handles);
      documents', pending' := documents + Streamed(config, pending, b.bypassed), NextPending(config, pending, b);
      var progress := |b.deferred| < |pending|;
      if now != [] {
        var more;
        ghost var also;
        AccountedScoring(tasks, results, done, now, documents', pending', content);
        ghost var at := tick;
        more, also := Flush(now, content);
        if more.None? {
          WhyScore(now, at, loads, tasks, old(tick));
          return Some(EngineFailed), pending', documents', results', done';
        }
        AccountFlush(tasks, results, done, now, documents', pending', content, more.value, also);
        results', done' := results + more.value, done + also;
        progress := true;
      }
      if b.deferred != [] && !progress {
        WhyStuck(pending, loads, tasks, old(tick));
        return Some(NoProgress), pending', documents', results', done';
      }
      failure := None;
    }

    lemma {:induction false} RoundGiven(tasks: multiset<Task>, results: seq<(nat, real)>, done: seq<Task>,
                                        resident: seq<Resident>,
                     documents: seq<Document>, pending: seq<Pending>, b: Batch, content: Key -> seq<Byte>)
      requires Accounted(tasks, results, done, resident, documents, pending, content)
      requires Classified(Loads(pending), b, |pending|) && cache.Explained(Loads(pending), b, Enforce(pending, pinMode))
      ensures Sorted3(|pending|, b) && OwnHandles(pending, b.handles) && Justified(config, pending, b, pinMode)
    {
      hide Accounted, Justified, Enforce, Sound;
      ClassifiedSorts(Loads(pending), b, |pending|);
      AccountedSound(tasks, results, done, resident, documents, pending, content);
      JustifiedBySize(config, pending, b, pinMode, content, TooLarge());
    }

    /** What the cache's answer means for the request. */
    lemma {:induction false} RoundFacts(tasks: multiset<Task>, results: seq<(nat, real)>, done: seq<Task>,
                                        resident: seq<Resident>,
                     documents: seq<Document>, pending: seq<Pending>, b: Batch, content: Key -> seq<Byte>)
      requires pending != [] && Accounted(tasks, results, done, resident, documents, pending, content)
      requires Classified(Loads(pending), b, |pending|) && cache.Explained(Loads(pending), b, Enforce(pending, pinMode))
      ensures |b.handles| == |pending| && InRange(b.bypassed, |pending|) && InRange(b.deferred, |pending|)
              && |b.deferred| <= |pending|
      ensures var now := resident + Arrived(pending, b.handles);
              && multiset(HandlesOf(now)) == multiset(HandlesOf(resident)) + multiset(Given(b.handles))
              && Accounted(tasks, results, done, now, documents + Streamed(config, pending, b.bypassed),
                           NextPending(config, pending, b), content)
      ensures var next := NextPending(config, pending, b);
              || |next| < |pending| || (|next| == |pending| && Unforced(next) < Unforced(pending))
              || (|b.deferred| == |pending| && next == pending)
      ensures |b.deferred| == |pending| ==>
        0 in b.deferred && |pending| - 1 in b.deferred && Arrived(pending, b.handles) == []
    {
      hide Classified, Accounted, Loads, OwnHandles, Justified, GpuTensorCache.Explained, Arrived, Streamed;
      hide NextPending, Unforced, HandlesOf, Given, Enforce;
      RoundGiven(tasks, results, done, resident, documents, pending, b, content);
      AccountRound(tasks, results, done, resident, documents, pending, b, content);
      RoundProgress(config, pending, b, pinMode);
      ArrivedHandles(pending, b.handles);
      HandlesJoin(resident, Arrived(pending, b.handles));
      WholeRange(b.deferred, |pending|);
      if |b.deferred| == |pending| { AllDeferred(pending, b); }
    }

    lemma {:induction false} AccountedSound(tasks: multiset<Task>, results: seq<(nat, real)>, done: seq<Task>,
                                            resident: seq<Resident>,
                         documents: seq<Document>, pending: seq<Pending>, content: Key -> seq<Byte>)
      requires Accounted(tasks, results, done, resident, documents, pending, content)
      ensures forall p :: p in pending ==> Sound(p, config, pinMode, content, TooLarge())
      ensures forall p :: p in pending ==> p.load.payload == content(p.load.key) && p.load.pin == pinMode
    {
    }

    /** Ask the cache for everything pending; admission is enforced unless something is to be pinned or is forced. */
    method AcquirePending(pending: seq<Pending>, ghost mine: multiset<Handle>, ghost content: Key -> seq<Byte>)
        returns (r: Acquired, ghost turns: seq<Decision>)
      requires Ready(mine, content) && forall p :: p in pending ==>
                 p.load.payload == content(p.load.key) && p.load.pin == pinMode
      modifies this, cache, cache.pool.Allocators(), cache.pool.Storages(), cache.pool.Stagings()
      ensures r.Failed? ==> Ready(mine, content)
      ensures tick == old(tick) && (r.Failed? <==> !AllWellShaped(Loads(pending)) || Faults(tick))
      ensures r.Acquired? && |pending| - 1 in r.batch.deferred ==>
        cache.Stuck(cache.entries, Loads(pending)[|pending| - 1])
      ensures r.Acquired? ==> Ready(mine + multiset(Given(r.batch.handles)), content)
      ensures r.Acquired? ==>
        Classified(Loads(pending), r.batch, |pending|) && cache.Explained(Loads(pending), r.batch,
                                                                          Enforce(pending, pinMode))
      ensures r.Acquired? ==> |turns| == |pending| && Reported(turns, r.batch)
      ensures r.Acquired? ==>
        cache.Traced(turns, Loads(pending), !pinMode && forall p :: p in pending ==> !p.forced, sketch(tick),
                     old(State(cache.entries, cache.inflation)), State(cache.entries, cache.inflation))
      ensures old(Quiet()) ==> Quiet()
      ensures r.Acquired? && !pinMode && old(Unpinned()) ==> Unpinned()
      ensures r.Acquired? && mine == multiset{} && old(Quiet() && Unpinned()) && cache.allowEviction
              ==> 0 !in r.batch.deferred
    {
      hide *;
      var loads := Loads(pending);
      ghost var start := State(cache.entries, cache.inflation);
      LoadsOf(pending, pinMode, content);
      ReadyParts(mine, content);
      UnpinnedMeans();
      if mine == multiset{} && Quiet() && Unpinned() {
        NobodyHolds(mine, content);
      }
      ghost var before, mark := cache.entries, cache.nextId;
      ghost var n;
      EnforceIs(pending, pinMode);
      r, n, turns := cache.AcquireMany(loads, Enforce(pending, pinMode), sketch(tick), fault(tick));
      FaultsIs(tick);
      if r.Acquired? {
        GrownFaithful(before, cache.entries, mark, loads, content);
        if |loads| - 1 in r.batch.deferred {
          cache.LastDeferred(turns, loads, Enforce(pending, pinMode), sketch(tick), start,
                             State(cache.entries, cache.inflation), r.batch);
        }
        HeldMore(mine, others, Given(r.batch.handles));
        ReadyMade(mine + multiset(Given(r.batch.handles)), content);
        if !pinMode && old(Unpinned()) { UnpinnedStill(before, mark, loads); }
      } else {
        RolledBackFaithful(before, cache.entries, Pins(loads[..n]), content);
        ReadyMade(mine, content);
      }
    }

    /** The cache never makes a tensor resident that is larger than every arena: the loop's turns are `Turn`s. */
    lemma {:induction false} OversizeIsBypassed(pending: seq<Pending>, b: Batch, mine: multiset<Handle>,
                                                content: Key -> seq<Byte>)
      requires Ready(mine + multiset(Given(b.handles)), content)
      requires forall p :: p in pending ==> p.load.payload == content(p.load.key)
      requires Classified(Loads(pending), b, |pending|) && cache.Explained(Loads(pending), b, Enforce(pending, pinMode))
      ensures InRange(b.bypassed, |pending|) && InRange(b.deferred, |pending|)
      ensures Turn(config, pending, b, NextPending(config, pending, b), TooLarge())
    {
      ClassifiedSorts(Loads(pending), b, |pending|);
      forall i | 0 <= i < |pending| && cache.FitsNowhere(|pending[i].load.payload|) ensures i in b.bypassed {
        assert pending[i] in pending;
        if b.handles[i].Some? {
          GivenHas(b.handles, i);
          cache.ResidentFits(b.handles[i].value);
        }
      }
    }

    lemma {:induction false} UnpinnedMeans()
      ensures Unpinned() ==> forall k :: k in cache.entries ==> !cache.entries[k].pinned
    {
    }

    lemma {:induction false} UnpinnedStill(before: Entries, mark: nat, loads: seq<Load>)
      requires Grown(before, cache.entries, mark, Pins(loads)) && FromLoads(cache.entries, loads, mark)
      requires forall l :: l in loads ==> !l.pin
      requires forall k :: k in before ==> !before[k].pinned
      ensures Unpinned()
    {
      StillUnpinned(before, cache.entries, mark, loads);
    }

    lemma {:induction false} NobodyHolds(mine: multiset<Handle>, content: Key -> seq<Byte>)
      requires Ready(mine, content) && mine == multiset{} && Quiet() && Unpinned()
      ensures Idle(cache.entries)
    {
    }
  }

  lemma {:induction false} GroupWithin(groups: seq<seq<Document>>, g: nat, documents: seq<Document>)
    requires g < |groups| && Concat(groups) == documents
    ensures Concat(groups[..g + 1]) == Concat(groups[..g]) + groups[g]
    ensures forall d :: d in groups[g] ==> d in documents
    decreases |groups|
  {
    var n := |groups| - 1;
    assert groups[..g + 1][..g] == groups[..g];
    if g < n {
      GroupWithin(groups[..n], g, Concat(groups[..n]));
      assert groups[..n][g] == groups[g];
    }
  }

  lemma {:induction false} LoadsOf(pending: seq<Pending>, pin: bool, content: Key -> seq<Byte>)
    requires forall p :: p in pending ==> p.load.payload == content(p.load.key) && p.load.pin == pin
    ensures forall l :: l in Loads(pending) ==> l.payload == content(l.key) && l.pin == pin
  {
    forall l | l in Loads(pending) ensures l.payload == content(l.key) && l.pin == pin {
      var i :| 0 <= i < |pending| && pending[i].load == l;
      assert pending[i] in pending;
    }
  }

  lemma {:induction false} EnforceIs(pending: seq<Pending>, pinMode: bool)
    ensures Enforce(pending, pinMode) <==> !pinMode && forall p :: p in pending ==> !p.forced
  {
    assert forall i :: 0 <= i < |pending| ==> pending[i] in pending;
  }

  lemma {:induction false} LoadsWithin(pending: seq<Pending>, loads: set<Load>)
    requires Within(pending, loads)
    ensures !AllWellShaped(Loads(pending)) ==> exists l :: l in loads && !WellShaped(l)
  {
    hide WellShaped;
    if !AllWellShaped(Loads(pending)) {
      var l :| l in Loads(pending) && !WellShaped(l);
      var i :| 0 <= i < |pending| && pending[i].load == l;
    }
  }

  lemma {:induction false} HeldMore(mine: multiset<Handle>, others: multiset<Handle>, got: seq<Handle>)
    ensures mine + others + multiset(got) == (mine + multiset(got)) + others
  {
  }

  // Loads that ask for no pin leave nothing newly pinned.
  lemma {:induction false} StillUnpinned(before: Entries, after: Entries, mark: nat, loads: seq<Load>)
    requires Grown(before, after, mark, Pins(loads)) && FromLoads(after, loads, mark)
    requires forall l :: l in loads ==> !l.pin
    requires forall k :: k in before ==> !before[k].pinned
    ensures forall k :: k in after ==> !after[k].pinned
  {
    assert Pins(loads) == {};
  }
}
