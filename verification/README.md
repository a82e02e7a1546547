# VectorChord: a verified model of the tensor cache, the RaBitQ core, clustering, storage formats and iteration

This project models the parts of VectorChord whose correctness is hardest to see from the code, and proves properties
of the model for all inputs. Exact integers stand for machine integers, with wrap-around written out wherever the
source computes in 16, 32 or 64 bits; exact reals stand for floating point numbers. Code that works in place is
modelled in place: classes with the source's fields, arrays, and loops with invariants.

`dafny verify dfyconfig.toml` checks everything.

## What is modelled

* **GPU tensor cache.** `PageRuns` and `Allocator` are the best-fit page-run allocator with its address map, size
  buckets, two sorted lists and counter. `Arena` is the staged, merged upload. `Pool`, `Directory` and `Cache` are the
  reference-counted, pinning, evicting cache with batch acquisition, device faults and rollback; the answers
  of the frequency sketch are arbitrary. `Batching`, `Groups` and `Service` are the request loop under arbitrary
  interference: termination, exactly-once answers with late-interaction scores, every handle given back, no false
  "cannot make progress". `Deployment` builds a whole service and serves a request with it.
* **RaBitQ core.** `Vectors`, `Fht` and `Rotate` are the in-place Walsh-Hadamard rotation and its inverse. `Codes` and
  `Distances` are bit planes, the bit-sliced and byte products in 32 bits, and the distances they stand for.
  `ScaleSearch`, `Spacing` and `Quantize` are the breakpoint sweep for the best scale, the room above it, and the signed
  codes made from it.
  `FastScan` is the packed 4-bit layout, its three scans, and the sign tables.
* **Clustering.** `Hierarchical` is seat apportionment and the in-place regrouping of rows.
* **Formats.** `Shards`, `ShardIndex`, `ShardRoundTrip` and `ShardReads` are the shard writer, the index validator, their
  agreement, and coalesced reads; `ShardLayout` and `ShardStore` join them from the first tensor added to the last one
  read back. `Wire`, `Frames` and `FrameReader` are the request frame decoder and its printer, `FrameRules` what they
  accept in plain bounds.
* **Iteration.** `Prefetch` is the three prefetchers, `Tiles` the tiled kernel against the reference score, `Feistel` the
  block sampler. `Numbers` holds facts about quotients.

## What the proofs found

* The allocator forgets a run before it checks the run's length (`Allocator.FixedBlockAllocator.Release`): after a
  release of the wrong length the pages are in neither family and the allocator is no longer valid
  (`Allocator.LostPagesExample`).
* A failed batch restores every count and place but not the pin flags it set, and not what it evicted
  (`Cache.GpuTensorCache.AcquireMany`): a tensor nobody asked to keep can stay pinned (`Deployment.PinLeftBehind`).
* The request loop never ends if a tensor fits neither an arena nor the streaming budget (`Batching.NeverDone`,
  `Deployment.StuckForever`); it always ends otherwise (`Service.TileMaxsimService.Process`).
* The scale search returns a truly optimal scale even among tied breakpoints: once one step at a scale improves the
  objective, every later step at that scale does too (`ScaleSearch.TiedStepsImprove`). A negative entry mirrors its
  magnitude exactly when it is not at a step (`Quantize.NegativeEntry`), which is what the added epsilon is for. The
  code made at that epsilon is the best of all scales: above the best scale no step is nearer than half of one over the
  numerator there (`Spacing.BestIsClear`), which for a vector of length one is far more than the machine epsilon
  (`Quantize.Encode`). An epsilon much larger than the one in use can spoil the code (`Quantize.EpsilonCrosses`).
* A published shard index is accepted if and only if all shapes agree and no two shards have the same hash
  (`ShardRoundTrip.WrittenAccepted`). Two different tensors with equal padded bytes are published and then refused
  (`ShardRoundTrip.RefusedExample`).
* Decoding is injective on v1 and v2 frames. A v3 frame may spell out the default tenant or leave it out, and then two
  frames mean one request (`Frames.ScheduledFrames`, `Frames.TwoSpellings`).
* The v2 encoder writes the contract's length in characters: its frame decodes to what was meant if and only if the
  contract has one byte per character (`FrameReader.EncodeAndParse`).
* A read-stream buffer is the page at the number of buffers read before it. Where no page is fetched twice, it is its
  item's own page if and only if all guards of all earlier items were read to their end (`Prefetch.ReadPartly`); a
  guard dropped unread misleads the next item (`Prefetch.DroppedGuardsMisread`).
* The block sampler shifts a 32-bit one by its width: it visits every block if and only if there are fewer than 2^30
  (`Feistel.SampleVisitsAll`).

## Model

| member | source | states |
|---|---|---|
| PageRuns.PartitionSplitsPages | services/tilemaxsim_gpu_cache.py:134-141 | when free and allocated runs partition the arena, each page is in exactly one family |
| PageRuns.FreeIsCanonical | services/tilemaxsim_gpu_cache.py:134-141 | with no two free runs touching, the free runs are determined by the allocated ones, whatever the history |
| PageRuns.NothingAllocated | services/tilemaxsim_gpu_cache.py:227-254 | nothing allocated means one free run, the whole arena |
| PageRuns.PagesConserved | services/tilemaxsim_gpu_cache.py:194-200 | free and allocated pages add up to the arena |
| PageRuns.VacantInRun | services/tilemaxsim_gpu_cache.py:202-204 | pages in a row that no allocated run touches lie in one free run |
| Allocator.FixedBlockAllocator.constructor | services/tilemaxsim_gpu_cache.py:143-159 | a new allocator is valid and one free run |
| Allocator.FixedBlockAllocator.AddFreeRun | services/tilemaxsim_gpu_cache.py:161-174 | buckets, both sorted lists and the counter keep describing the address map with the run added |
| Allocator.FixedBlockAllocator.RemoveFreeRun | services/tilemaxsim_gpu_cache.py:176-192 | the same with the run removed, empty buckets dropped |
| Allocator.FixedBlockAllocator.LargestFree | services/tilemaxsim_gpu_cache.py:202-204 | the length of the longest free run, attained |
| Allocator.FixedBlockAllocator.BlocksFor | services/tilemaxsim_gpu_cache.py:206-209 | the least number of pages that hold the payload |
| Allocator.FixedBlockAllocator.Allocate | services/tilemaxsim_gpu_cache.py:214-225 | best fit, lowest on ties; fails if and only if no free run is long enough, changing nothing |
| Allocator.FixedBlockAllocator.Release | services/tilemaxsim_gpu_cache.py:227-254 | the four outcomes and when each happens; a release of an allocated run keeps the partition coalesced, a wrong length loses the pages |
| Allocator.TakeKeepsPartition | services/tilemaxsim_gpu_cache.py:214-225 | taking part of a free run keeps the partition coalesced |
| Allocator.ReleaseKeepsPartition | services/tilemaxsim_gpu_cache.py:239-254 | joining a released run with its free neighbours keeps the partition coalesced |
| Allocator.LostPages | services/tilemaxsim_gpu_cache.py:233-238 | forgetting an allocated run without freeing it breaks the partition |
| Allocator.LostPagesExample | services/tilemaxsim_gpu_cache.py:233-238 | a run of two pages given back as one: both pages are lost and the allocator is no longer valid |
| Allocator.StateDetermined | services/tilemaxsim_gpu_cache.py:134-254 | all five indices are a function of the allocated runs |
| Allocator.AllReleased | services/tilemaxsim_gpu_cache.py:227-254 | releasing everything, in any order, restores the initial state of every index |
| Allocator.FreeBlocksConserved | services/tilemaxsim_gpu_cache.py:194-196 | the free counter is what the allocated runs leave |
| Arena.GpuArena.Read | services/tilemaxsim_gpu_cache.py:375-400 | reading a tensor's pages gives the payload they hold |
| Arena.GpuArena.CopyLarge | services/tilemaxsim_gpu_cache.py:428-448 | a tensor larger than the staging buffer goes over in pieces, byte for byte |
| Arena.GpuArena.StageBatch | services/tilemaxsim_gpu_cache.py:450-469 | adjacent runs that fit are staged one after the other with zero padding |
| Arena.GpuArena.CopyRuns | services/tilemaxsim_gpu_cache.py:425-478 | runs in address order all arrive and nothing outside them changes |
| Arena.GpuArena.CopyMany | services/tilemaxsim_gpu_cache.py:402-481 | accepted if and only if every item is well formed; then every payload is in its pages and only given pages changed; a refusal moves no byte |
| Pool.GpuResourcePool.AllocateRun | services/tilemaxsim_gpu_cache.py:731-733 | with a free run long enough, allocation succeeds and adds one run of as many pages as the payload needs |
| Pool.GpuResourcePool.ReleaseRun | services/tilemaxsim_gpu_cache.py:675-681 | a release removes one run and leaves memory and other arenas alone |
| Pool.GpuResourcePool.Upload | services/tilemaxsim_gpu_cache.py:402-481 | an upload to one arena delivers its items and touches no other bytes |
| Pool.GpuResourcePool.EmptyArena | services/tilemaxsim_gpu_cache.py:227-254 | an arena without allocated runs offers all its pages as one run |
| Pool.GpuResourcePool.LargestIff | services/tilemaxsim_gpu_cache.py:202-204 | a free run is long enough if and only if so many pages in a row are in no allocated run |
| Cache.PriorityOrder | services/tilemaxsim_gpu_cache.py:683-688 | a priority exceeds the inflation value by the frequency shared among the pages: more with frequency, less with pages |
| Cache.GpuTensorCache.constructor | services/tilemaxsim_gpu_cache.py:641-652 | an empty cache is valid |
| Cache.GpuTensorCache.Evict | services/tilemaxsim_gpu_cache.py:675-681 | removes one unused entry, frees its run and raises the inflation value to its priority; every invariant is kept |
| Cache.GpuTensorCache.Victim | services/tilemaxsim_gpu_cache.py:665-673 | an unreferenced, unpinned entry of lowest priority; none if and only if there is none |
| Cache.GpuTensorCache.FindArena | services/tilemaxsim_gpu_cache.py:654-663 | an arena with a free run long enough, the first of those with most free bytes; none if and only if none fits |
| Cache.GpuTensorCache.EvictFrom | services/tilemaxsim_gpu_cache.py:712-722 | evicts from one arena only, lowest priority first, until the payload fits, everything left is in use, or admission is lost: then every tensor that could go is worth at least the newcomer; with admission on, each tensor that went was worth less than the newcomer's share over the inflation value or over a cheaper one that went |
| Cache.GpuTensorCache.MakeRoom | services/tilemaxsim_gpu_cache.py:690-733 | too large if and only if no arena is capable; nothing is evicted when something fits or eviction is off; of the arenas that fit, or else of those that could, the first with most free bytes unless all its tensors are in use; in each arena the cheapest go first, the inflation value rises to the greatest that went, and with admission on only what the newcomer beats goes; it loses admission only when no run fits and every tensor that could go from a capable arena is worth at least as much; it finds no room only when no run fits and every capable arena holds only tensors in use |
| Cache.GpuTensorCache.EvictForRoom | services/tilemaxsim_gpu_cache.py:708-725 | goes through the capable arenas by free bytes; ends with room, a lost admission, or everything capable in use, and in the last two no run fits |
| Cache.GpuTensorCache.NoRoomMeansBusy | services/tilemaxsim_gpu_cache.py:708-730 | coalescing makes eviction effective: with nothing held or pinned, a capable arena always yields room |
| Cache.GpuTensorCache.Admit | services/tilemaxsim_gpu_cache.py:866-883 | a new entry with one reference, its own run, a fresh identity and its frequency per page as priority |
| Cache.GpuTensorCache.Touch | services/tilemaxsim_gpu_cache.py:839-849 | a hit adds one reference, may pin and refreshes the priority; the tensor does not move |
| Cache.GpuTensorCache.FitsIff | services/tilemaxsim_gpu_cache.py:654-663 | a free run is long enough if and only if the resident tensors leave so many pages in a row |
| Cache.GpuTensorCache.FreeBytesLeft | services/tilemaxsim_gpu_cache.py:198-200 | the free bytes arenas are ordered by are those of the pages no tensor has |
| Cache.ShapeChecksIff | devtools/tilemaxsim_reference_sidecar.py:154-174 | the check of a load holds if and only if it has fewer than 2^63 elements, at least one, and four or two bytes of payload for each; otherwise its status is a resource limit exactly when there are too many |
| Cache.GpuTensorCache.AcquireMissing | services/tilemaxsim_gpu_cache.py:850-883 | a missing tensor is admitted, without evicting anything when there is room and nothing but what it beats when admission is enforced; bypassed only if larger than every arena, or outbid with no room left; deferred only if there is no room left and no tensor of a capable arena may go |
| Cache.GpuTensorCache.Served | services/tilemaxsim_gpu_cache.py:836-883 | a load of a batch whose tensor is resident at its turn, or has room then, gets a handle, whatever the admission policy |
| Cache.GpuTensorCache.LastDeferred | services/tilemaxsim_gpu_cache.py:850-860 | a batch that ends with a deferral ends with no room for that load, and with eviction on with nothing that may go |
| Cache.GpuTensorCache.UploadNew | services/tilemaxsim_gpu_cache.py:885-892 | all new tensors get their bytes, or a fault is reported and the rest of the cache is intact |
| Cache.GpuTensorCache.Rollback | services/tilemaxsim_gpu_cache.py:897-908 | no new entry survives, each new run is freed once, counts of surviving entries are restored, even with duplicate keys |
| Cache.GpuTensorCache.AcquireMany | services/tilemaxsim_gpu_cache.py:800-916 | every load gets a handle for its own key, is bypassed or is deferred, exactly one, each for its reason at its turn: from state to state a resident tensor is handed out, a missing one with room is admitted with nothing evicted, a bypass is too large or outbid, a deferral has no room; so a first load that is resident or has room gets its handle under any policy; it fails if and only if a load is malformed or the device faults, with the first malformed load's status, and then everything is given back except pins asked for before it |
| Cache.GpuTensorCache.ProbeMany | services/tilemaxsim_gpu_cache.py:918-938 | a handle for exactly the resident keys, the others listed in order |
| Cache.GpuTensorCache.Release | services/tilemaxsim_gpu_cache.py:940-945 | succeeds if and only if the handle is out; removes exactly it |
| Cache.GpuTensorCache.HeldBytes | services/tilemaxsim_gpu_cache.py:597-616 | a held handle names a live entry whose device bytes are its payload |
| Cache.GpuTensorCache.HeldPages | services/tilemaxsim_gpu_cache.py:608-616 | the pages of a held tensor hold its payload |
| Cache.GpuTensorCache.ResidentFits | services/tilemaxsim_gpu_cache.py:697-707 | a resident tensor is never larger than every arena |
| Cache.GpuTensorCache.Interfere | services/tilemaxsim_gpu_cache.py:735-945 | any operations of other requests, in any order, keep the cache valid and every tensor I hold in place with its bytes |
| Directory.GrownStable | services/tilemaxsim_gpu_cache.py:800-916 | a batch of acquisitions, with its evictions, moves no tensor that is held |
| Directory.RolledBackStable | services/tilemaxsim_gpu_cache.py:897-908 | nor does a batch that failed |
| Batching.RoundConserves | services/tilemaxsim_cuda_sidecar.py:1144-1193 | a round loses and invents no candidate: each arrives, is streamed or stays pending |
| Batching.RoundProgress | services/tilemaxsim_cuda_sidecar.py:1144-1193 | a round shortens the pending list, forces something new, or defers everything |
| Batching.ProbeSplits | services/tilemaxsim_cuda_sidecar.py:1094-1143 | a probe splits the candidates into found and missing |
| Batching.StuckStays | services/tilemaxsim_cuda_sidecar.py:1174-1193 | a tensor that fits nowhere is pending again after every turn, and the turn counts as progress |
| Batching.NeverDone | services/tilemaxsim_cuda_sidecar.py:1174-1193 | so the loop condition holds after any number of turns |
| Groups.Cut | services/tilemaxsim_cuda_sidecar.py:620-651 | groups in order, nonempty, within the budget and maximal; refused if and only if one document alone exceeds it; both engines cut alike |
| Service.TileMaxsimService.ReadTensor | services/tilemaxsim_gpu_cache.py:608-616 | reading through a held handle gives the content its key names |
| Service.TileMaxsimService.ScoreGroup | services/tilemaxsim_cuda_sidecar.py:686-711 | a group's scores, from slices of the similarities with its concatenated documents |
| Service.TileMaxsimService.ScoreGroups | services/tilemaxsim_cuda_sidecar.py:673-711 | every document's late-interaction score, group by group; refused if and only if one document alone exceeds the budget |
| Service.TileMaxsimService.constructor | services/tilemaxsim_cuda_sidecar.py:924-945 | a service with the given parts, at the start of time |
| Service.TileMaxsimService.ScoreDevice | services/tilemaxsim_cuda_sidecar.py:760-909 | the scores of one device's documents while other requests go on; refused if and only if one document alone exceeds the workspace |
| Service.TileMaxsimService.ScoreResident | services/tilemaxsim_cuda_sidecar.py:802-909 | one score per resident document, device by device; refused if and only if the engine fails or a document alone exceeds the workspace |
| Service.TileMaxsimService.ReleaseAll | services/tilemaxsim_cuda_sidecar.py:1019-1044 | every handle is given back, exactly once, under interference |
| Service.TileMaxsimService.Flush | services/tilemaxsim_cuda_sidecar.py:1019-1044 | scores and releases, whether scoring succeeds or not; refused if and only if the engine fails or a document alone exceeds the workspace |
| Service.TileMaxsimService.ScoreStream | services/tilemaxsim_cuda_sidecar.py:653-726 | what was sent to streaming never trips the engine's own limit, and is scored in order unless, and only unless, the engine fails |
| Service.TileMaxsimService.StreamableIff | services/tilemaxsim_cuda_sidecar.py:1163-1183 | the loop streams exactly what the streaming engine's own limit admits |
| Service.TileMaxsimService.Round | services/tilemaxsim_cuda_sidecar.py:1144-1193 | one turn keeps every candidate accounted for and makes progress, or fails for its reason with everything released |
| Service.TileMaxsimService.AcquirePending | services/tilemaxsim_cuda_sidecar.py:1145-1152 | the cache decides every pending load in turn, with admission enforced if and only if pins are off and nothing is forced; it fails if and only if a load is malformed or the device faults now |
| Service.TileMaxsimService.Conclude | services/tilemaxsim_cuda_sidecar.py:1194-1274 | with nothing pending, what is resident and what is to be streamed is scored, every candidate accounted for, every handle given back |
| Service.TileMaxsimService.Process | services/tilemaxsim_cuda_sidecar.py:1094-1274 | terminates; on success each candidate is answered exactly once with its own tensor's late-interaction score; loading fails only if a candidate is malformed or the device faults meanwhile, scoring only if the engine fails meanwhile or a candidate alone exceeds the workspace, "cannot make progress" only if a candidate would fit an empty arena but has no room and nothing may go; on success or error every handle is released; with eviction on, no pins and nobody else, "cannot make progress" is never raised |
| Service.TileMaxsimService.OversizeIsBypassed | services/tilemaxsim_gpu_cache.py:857-865 | the cache bypasses exactly so that the loop's turns are those of the divergence result |
| Deployment.NewCache | services/tilemaxsim_cuda_sidecar.py:1692-1703 | arenas that share nothing, and an empty valid cache over them |
| Deployment.Serve | services/tilemaxsim_cuda_sidecar.py:1692-1727 | from new arenas to the reply: one request served to its end, with the score of each candidate's own tensor once per candidate, and never "cannot make progress" with eviction on, no pins and nobody else; then well-formed candidates within the workspace are all scored unless the device or the engine fails; only what the candidates name must be scorable |
| Deployment.AcquireFirst | services/tilemaxsim_gpu_cache.py:800-916 | in an unused cache with eviction, a tensor that fits is resident, referenced once and not pinned |
| Deployment.PinLeftBehind | services/tilemaxsim_gpu_cache.py:897-908 | a batch that pins a resident tensor and then fails leaves the pin behind, with references and place restored |
| Deployment.StuckForever | services/tilemaxsim_cuda_sidecar.py:1174-1193 | one arena of one page, no streaming budget, a tensor of two pages: still pending after any number of turns |
| Fht.HadamardIsWalsh | crates/simd/src/fht.rs:137-150 | the transform by halves is multiplication by the Walsh matrix |
| Fht.HadamardTwice | crates/simd/src/fht.rs:137-150 | transforming twice multiplies by the dimension |
| Fht.HadamardDot | crates/simd/src/fht.rs:137-150 | scalar products grow by the dimension |
| Fht.Basic2 | crates/simd/src/fht.rs:24-31 | one butterfly over a window, nothing else touched |
| Fht.Basic1 | crates/simd/src/fht.rs:16-22 | butterflies over every block of a tile of 512 |
| Fht.WalkPlain | crates/simd/src/fht.rs:63-78 | the stage-by-stage walk is the transform |
| Fht.WalkTiled | crates/simd/src/fht.rs:79-101 | the tiled walk is the same transform |
| Fht.Transform | crates/simd/src/fht.rs:103-134 | the transform of the window, or the exact reason for refusing it untouched |
| Rotate.Flip | crates/simd/src/rotate.rs:33-56 | an entry is negated if and only if its bit of its table word is one, words and tail |
| Rotate.BitIs | crates/simd/src/rotate.rs:33-56 | bit j of a word, tested with a mask, is the word over 2^j modulo 2 |
| Rotate.FlippedAt | crates/simd/src/rotate.rs:33-56 | entry k goes by bit k mod 64 of word k / 64 |
| Rotate.KacsWalk | crates/rabitq/src/rotate.rs:46-52 | Givens rotations of the two halves, a middle entry left alone |
| Rotate.WalkTwice | crates/rabitq/src/rotate.rs:46-52 | the walk of Givens rotations (crates/simd/src/rotate.rs:19-27) is an involution |
| Rotate.SpinTwice | crates/rabitq/src/rotate.rs:72-73 | the transform of a window, scaled by one over the root of its length, is an involution |
| Rotate.RoundUndone | crates/rabitq/src/rotate.rs:71-137 | each round and its undoing are inverse, both ways |
| Rotate.RoundTrip | crates/rabitq/src/rotate.rs:60-138 | rotation and inverse undo each other for every dimension, both ways |
| Rotate.Isometry | crates/rabitq/src/rotate.rs:60-138 | both preserve scalar products and squared distances |
| Rotate.RotateInPlace | crates/rabitq/src/rotate.rs:60-98 | the in-place rotation computes the rotation, with the flips by the bits of the four tables |
| Rotate.RotateReversedInPlace | crates/rabitq/src/rotate.rs:100-138 | the in-place inverse computes the inverse |
| Rotate.RotateThereAndBack | crates/rabitq/src/rotate.rs:60-138 | the two in-place methods, one after the other, leave the array as it was |
| Rotate.RotateBackAndThere | crates/rabitq/src/rotate.rs:60-138 | and in the other order |
| Codes.PackWord | crates/rabitq/src/extended.rs:261-267 | the word whose bit k is the chosen bit of entry k |
| Codes.PackPlane | crates/rabitq/src/extended.rs:268-276 | a plane word by word, the tail padded with zeros |
| Codes.PlanesInCommon | crates/rabitq/src/extended.rs:259-277 | ones in common of two planes are the scalar product of the bit rows, padding included |
| Codes.ReduceSumOfAnd | crates/simd/src/bit.rs:182-190 | the count of common ones in 32 bits; some addition overflows if and only if the exact count does not fit |
| Codes.Accumulate | crates/rabitq/src/extended.rs:279-289 | the weighted plane counts in 32-bit arithmetic, for all inputs; no addition overflows while the exact sum fits |
| Codes.WindowsOfFlatten | crates/rabitq/src/extended.rs:281-286 | the windows of the flattened planes are the planes |
| Codes.SlicedExact | crates/rabitq/src/extended.rs:259-289 | up to dimension 65535 the bit-sliced product is the scalar product of the codes, without wrapping |
| Codes.CodeProduct | crates/rabitq/src/extended.rs:259-289 | packing two codes and accumulating over the flat layout returns their scalar product up to dimension 65535, and no addition overflows on the way |
| Codes.ReduceSumOfXY | crates/simd/src/byte.rs:393-401 | the byte product in 32 bits; some addition overflows if and only if the exact product does not fit |
| Codes.ReduceSumOfXYBiased | crates/simd/src/byte.rs:22-48 | the sign-biased sixteen-lane form gives the same number, tail included |
| Distances.Describe | crates/rabitq/src/extended.rs:75-91 | the metadata loops compute squared lattice norm and code sum |
| Distances.DequantizeToVector | src/datatype/functions_rabitq8.rs:60-70 | the vector a code means: centred, scaled, rotated back |
| Distances.LatticePositive | crates/rabitq/src/extended.rs:75-83 | the lattice norm of a nonempty code is never zero |
| Distances.CodeDistances | crates/rabitq/src/extended.rs:155-189 | squared distance and scalar product computed from codes are those of the dequantized vectors |
| Distances.CodeCosine | crates/rabitq/src/extended.rs:191-205 | the cosine form is the negated product of the two unit directions |
| Distances.SlicedDistances | crates/rabitq/src/extended.rs:155-189 | the same on the bit-sliced product and after the inverse rotation |
| Distances.ByteDistances | crates/rabitq/src/extended.rs:155-189 | the same on the byte product |
| Distances.MeasureSliced | crates/rabitq/src/extended.rs:155-189 | packed codes, accumulated and half-processed, give the distances of the vectors the codes mean after the inverse rotation |
| Distances.MeasureBytes | crates/rabitq/src/extended.rs:155-189 | the same from the byte product, plain or sign-biased |
| ScaleSearch.GreaterIsGreater | crates/rabitq/src/extended.rs:244-247 | the cross-multiplied comparison is the comparison of numerator over root |
| ScaleSearch.TiedStepsImprove | crates/rabitq/src/extended.rs:239-248 | of tied steps, once one improves the objective so does the next |
| ScaleSearch.SplitIsCode | crates/rabitq/src/extended.rs:231-242 | the code at any scale is a code of the sweep |
| ScaleSearch.StepSums | crates/rabitq/src/extended.rs:240-242 | the increments keep numerator and squared denominator equal to their direct sums |
| ScaleSearch.BestAttained | crates/rabitq/src/extended.rs:244-250 | the recorded scale produces the recorded code |
| ScaleSearch.BestIsOptimal | crates/rabitq/src/extended.rs:207-251 | no other scale gives a greater objective |
| ScaleSearch.AllEvents | crates/rabitq/src/extended.rs:231-237 | every step of every entry, once |
| ScaleSearch.SortEvents | crates/rabitq/src/extended.rs:238 | some ordering by scale of the same events |
| ScaleSearch.Sweep | crates/rabitq/src/extended.rs:213-250 | the loop's result is optimal for any order of tied events, and is zero or a step |
| ScaleSearch.FindScale | crates/rabitq/src/extended.rs:207-251 | the returned scale is epsilon above one that is optimal over all scales, zero entries included |
| ScaleSearch.ClearKeepsCode | crates/rabitq/src/extended.rs:250 | going up by epsilon keeps the code if and only if it crosses no step |
| ScaleSearch.Clearance | crates/rabitq/src/extended.rs:250 | above every scale some positive distance, and everything below it, crosses no step |
| ScaleSearch.ApartIsClear | crates/rabitq/src/extended.rs:250 | if the vector's steps are further apart than epsilon, going up by epsilon from any of them crosses none |
| ScaleSearch.BetweenNoBetter | crates/rabitq/src/extended.rs:239-248 | raising any of the entries whose step is at one scale gives nothing better than raising none or all |
| Spacing.BelowIsCode | crates/rabitq/src/extended.rs:68-73 | the code just below any positive scale is the code at a lower scale |
| Spacing.StepDown | crates/rabitq/src/extended.rs:239-248 | taking back any one step of the best scale improves nothing |
| Spacing.StepUp | crates/rabitq/src/extended.rs:239-248 | nor does taking the first step above it |
| Spacing.Gap | crates/rabitq/src/extended.rs:239-250 | two such comparisons keep the two scales apart by more than half of one over the numerator |
| Spacing.BestIsClear | crates/rabitq/src/extended.rs:250 | so going up from the best scale by less than that crosses no step, for any vector |
| Spacing.SumAtMost | crates/rabitq/src/extended.rs:57-59 | the sum of a vector is bounded by its squared length and its dimension |
| Quantize.NegativeEntry | crates/rabitq/src/extended.rs:68-73 | a negative entry mirrors its magnitude if and only if it is not at a step |
| Quantize.CodeObjective | crates/rabitq/src/extended.rs:49-83 | at every positive scale the signed code's product with the vector and squared norm are the sums of the magnitude code it stands for |
| Quantize.ClearMirrors | crates/rabitq/src/extended.rs:68-73 | at an epsilon that crosses no step no negative entry is at a step, and the signed code stands for the best magnitude code |
| Quantize.CodeIsBest | crates/rabitq/src/extended.rs:49-100 | if epsilon crosses no step, no scale at all, zero and steps of negative entries included, gives a code of greater cosine with the vector |
| Quantize.Quantize | crates/rabitq/src/extended.rs:49-74 | the clamped signed code at epsilon above an optimal scale; it has the greatest cosine among the codes of all scales if epsilon crosses no step, in particular if epsilon is small for the vector or the vector's steps are further apart |
| Quantize.UnitIsSmall | crates/rabitq/src/extended.rs:57-59 | for a vector of length one of any dimension up to 2^30 the 32-bit machine epsilon is small |
| Quantize.Encode | crates/rabitq/src/extended.rs:49-74 | any nonzero vector of any dimension up to 2^30, normalized and quantized at the machine epsilon: no scale gives a code of greater cosine with the vector |
| Quantize.EpsilonCrosses | crates/rabitq/src/extended.rs:250 | a vector, and an epsilon far above the one in use, whose returned code is not the best |
| Hierarchical.PopMax | crates/k_means/src/hierarchical.rs:213-215 | removes an entry of greatest quotient |
| Hierarchical.MoreSeats | crates/k_means/src/hierarchical.rs:213-218 | one more seat to the greatest quotient keeps the apportionment |
| Hierarchical.ModifiedWebster | crates/k_means/src/hierarchical.rs:202-221 | seats at least one each, n in all, and no group had a better claim to another's last extra seat |
| Hierarchical.LeastClaims | crates/k_means/src/hierarchical.rs:202-221 | no other allocation leaves smaller greatest claims |
| Hierarchical.FollowCycle | crates/k_means/src/hierarchical.rs:232-246 | one cycle is followed to its end and every row of it is in place |
| Hierarchical.Partition | crates/k_means/src/hierarchical.rs:223-255 | row k is original row permutation[k]; each group's range holds exactly its rows in order |
| FastScan.LanesCancel | crates/rabitq/src/packing.rs:24-83 | the packing order and the scanning order are inverse |
| FastScan.Pack | crates/rabitq/src/packing.rs:15-45 | on nibbles, every vector's nibble of block i is its entry i, and every block is sixteen bytes |
| FastScan.Unpack | crates/rabitq/src/packing.rs:47-85 | thirty-two vectors of nibbles, each entry the vector's nibble of its block |
| FastScan.UnpackPacked | crates/rabitq/src/packing.rs:15-85 | unpacking inverts packing on nibbles |
| FastScan.PackUnpacked | crates/rabitq/src/packing.rs:15-85 | packing inverts unpacking on bytes |
| FastScan.PackThenUnpack | crates/rabitq/src/packing.rs:15-85 | packing and unpacking nibbles returns them |
| FastScan.UnpackThenPack | crates/rabitq/src/packing.rs:15-85 | unpacking and packing blocks returns them |
| FastScan.Scan | crates/simd/src/fast_scan.rs:702-753 | every lane is the sum of its look-ups in 16 bits |
| FastScan.ScanV2 | crates/simd/src/fast_scan.rs:291-338 | the two-accumulator form is the same scan |
| FastScan.ScanV3 | crates/simd/src/fast_scan.rs:187-263 | the two-blocks-at-a-time form is the same scan |
| FastScan.ScanAs | crates/simd/src/fast_scan.rs:757-759 | whichever form runs, every lane is the sum of its look-ups in 16 bits |
| FastScan.StepExact | crates/rabitq/src/bit.rs:310-311 | 257 blocks never overflow a 16-bit lane |
| FastScan.Accu | crates/simd/src/fast_scan.rs:765-769 | lane-wise 32-bit addition |
| FastScan.Accumulate | crates/rabitq/src/bit.rs:350-358 | the chunked scan, in any form, sums all look-ups in 32 bits |
| FastScan.PackedSum | crates/rabitq/src/bit.rs:350-358 | on packed codes lane v is exactly what vector v selects from the tables |
| FastScan.PackThenAccumulate | crates/rabitq/src/bit.rs:350-358 | 32 vectors packed and scanned in any form: lane v is the sum vector v selects from the tables, exactly up to 16843009 blocks and in 32 bits beyond |
| FastScan.TablesSumSigns | crates/rabitq/src/bit.rs:473-503 | table look-ups of packed signs give the signed sum of the vector, padded tail included |
| Shards.AlignUp | services/tilemaxsim_shard.py:37-40 | the next multiple of the alignment |
| Shards.ShardWriter.constructor | services/tilemaxsim_shard.py:79-104 | an empty writer |
| Shards.ShardWriter.Add | services/tilemaxsim_shard.py:122-153 | each error if and only if its condition holds; a duplicate is ignored; a tensor joins the open shard or, past the target size, closes and files it and starts a new one |
| Shards.ShardWriter.FinishShard | services/tilemaxsim_shard.py:155-197 | the shard is stored under the hash of its bytes; an existing file is never changed; corrupt if and only if a file of that name differs in length or hash |
| Shards.ShardWriter.Finish | services/tilemaxsim_shard.py:199-222 | files the last shard and publishes the document of all shards, or reports exactly when it cannot |
| ShardIndex.NoOverlap | services/tilemaxsim_shard.py:335-340 | comparing sorted neighbours decides whether all ranges are apart |
| ShardIndex.ParseShards | services/tilemaxsim_shard.py:274-291 | accepts exactly well-formed, distinctly named shards |
| ShardIndex.FileChecksIff | services/tilemaxsim_shard.py:274-290 | the checks of a shard hold if and only if it is nonempty, and name and checksum are the same digits, free of slashes, in their frames |
| ShardIndex.ParseEntries | services/tilemaxsim_shard.py:292-332 | accepts exactly well-formed entries with distinct digests |
| ShardIndex.EntryChecksIff | services/tilemaxsim_shard.py:292-326 | the checks of an entry hold if and only if it has 64 hexadecimal digits and is an aligned tensor of 16- or 32-bit floats inside its shard |
| ShardIndex.ParseIndex | services/tilemaxsim_shard.py:261-341 | accepts exactly the well-formed documents and returns what they say |
| ShardRoundTrip.WrittenAccepted | services/tilemaxsim_shard.py:122-341 | for any hash to 64 hexadecimal digits, a published document is accepted if and only if all shapes agree and no two shards have the same hash |
| ShardRoundTrip.WrittenAcceptedByBytes | services/tilemaxsim_shard.py:122-341 | where the hash tells these shards apart: if and only if all shapes agree and no two shards have the same bytes |
| ShardRoundTrip.AcceptedExample | services/tilemaxsim_shard.py:122-341 | a hash and two shards with an accepted document |
| ShardRoundTrip.RefusedExample | services/tilemaxsim_shard.py:122-341 | two different tensors with equal padded bytes: published under any hash, and refused |
| ShardRoundTrip.TensorInShard | services/tilemaxsim_shard.py:138-153 | each tensor is aligned, inside its shard, byte for byte |
| ShardRoundTrip.WrittenBytes | services/tilemaxsim_shard.py:138-197 | each entry's range of its stored file is the tensor's payload |
| ShardReads.CoalescedRanges | services/tilemaxsim_cuda_sidecar.py:416-442 | the ranges hold every item once, start and end at their items, and break only at a gap or span; disjoint items stay within the span limit |
| ShardReads.RunCovers | services/tilemaxsim_cuda_sidecar.py:416-442 | every item lies in its range, and a range of several disjoint items is within the span limit |
| ShardReads.AcceptedDisjoint | services/tilemaxsim_shard.py:335-340 | items of one shard of an accepted index are disjoint |
| ShardReads.ShardRuns | services/tilemaxsim_cuda_sidecar.py:416-442 | items of one shard of an accepted index: every item once, every read of several items within the span limit |
| ShardReads.ReadRange | services/tilemaxsim_cuda_sidecar.py:444-474 | fails exactly on a short file, a checksum mismatch or a number that is not finite, else serves exact bytes |
| ShardReads.ReadShard | services/tilemaxsim_cuda_sidecar.py:523-534 | all requested keys, each with its exact bytes, and nothing else |
| ShardLayout.ShardsFlat | services/tilemaxsim_shard.py:122-153 | the shards of a run hold the first tensor of every digest, in order, none lost or repeated |
| ShardLayout.FileOrigin | services/tilemaxsim_shard.py:155-197 | every file after a run comes from the directory unchanged, or is a shard of the run |
| ShardLayout.SmoothUnlessBlocked | services/tilemaxsim_shard.py:155-197 | every shard of a run can be filed if and only if none conflicts with the directory and no two have equal hash and different length |
| ShardLayout.FiledIntact | services/tilemaxsim_shard.py:155-197 | shards of distinct hashes end up in their own files unless the directory already held another file of the same length and hash |
| ShardStore.ReadGeneration | services/tilemaxsim_cuda_sidecar.py:476-534 | every tensor of an accepted index read back shard by shard: succeeds if and only if every entry's range passes the checks, and delivers exactly the ranges |
| ShardStore.AddAll | services/tilemaxsim_shard.py:122-153 | any tensors added in turn: succeeds if and only if each may be added and every full shard can be filed; the shards and files are those the tensors and the directory determine |
| ShardStore.StoreAndLoad | services/tilemaxsim_shard.py:122-341 | any tensors added, published, parsed and read back, decided by the tensors, the hash and the directory: published if and only if all may be added and no file is in the way; accepted if and only if hashes differ and shapes agree; read back if and only if every range passes the checks; with no foreign file under a shard's name, exactly the first payload of every digest if and only if the tensors pass |
| ShardStore.StoreAndLoadNew | services/tilemaxsim_shard.py:122-341 | shards new to the directory and of distinct hashes: the payloads come back byte for byte, or a tensor fails the checks |
| Wire.InlinesBack | devtools/tilemaxsim_reference_sidecar.py:509-526 | parsing printed inline candidates gives them back |
| Wire.InlinesForth | devtools/tilemaxsim_reference_sidecar.py:509-526 | parsed inline candidates print as what was read |
| Wire.ExternalsBack | devtools/tilemaxsim_reference_sidecar.py:574-613 | parsing printed external candidates gives them back |
| Wire.ExternalsForth | devtools/tilemaxsim_reference_sidecar.py:574-613 | parsed external candidates print as what was read |
| Frames.DecodePrinted | devtools/tilemaxsim_reference_sidecar.py:456-626 | decoding a printed request within limits returns it, all three versions |
| Frames.PrintDecoded | devtools/tilemaxsim_reference_sidecar.py:456-626 | an accepted frame is exactly what its request prints as |
| Frames.DecodeInjective | devtools/tilemaxsim_reference_sidecar.py:456-626 | no two accepted v1 or v2 frames decode to the same request |
| Frames.ScheduledFrames | devtools/tilemaxsim_reference_sidecar.py:537-566 | two accepted frames with one request differ only in spelling out the default tenant of a v3 frame |
| Frames.DefaultSpelledTwice | devtools/tilemaxsim_reference_sidecar.py:561-566 | every v3 request for the default tenant that is accepted both ways has two frames |
| Frames.TwoSpellings | devtools/tilemaxsim_reference_sidecar.py:561-566 | and such a request exists |
| Frames.AcceptedWithinLimits | devtools/tilemaxsim_reference_sidecar.py:301-324 | accepted requests keep the byte, token and candidate limits and have distinct ids |
| FrameRules.HeadIff | devtools/tilemaxsim_reference_sidecar.py:301-324 | the checks of the head, in plain numbers, both directions |
| FrameRules.OkIff | devtools/tilemaxsim_reference_sidecar.py:456-626 | the decoder's checks of a request hold if and only if plain bounds on its numbers, texts, shapes and sizes do |
| FrameRules.AcceptedIff | devtools/tilemaxsim_reference_sidecar.py:456-626 | a frame decodes to a request if and only if the request is within those bounds and the frame is its printed form |
| FrameRules.FrameStarts | devtools/tilemaxsim_reference_sidecar.py:456-481 | a printed frame begins with the magic, version, kind, id and length, byte for byte |
| FrameRules.HeadStatus | devtools/tilemaxsim_reference_sidecar.py:301-324 | which error a refused head reports |
| FrameRules.CandidateStatus | devtools/tilemaxsim_reference_sidecar.py:509-526 | which error a refused candidate list reports |
| FrameReader.Reader.Read | devtools/tilemaxsim_reference_sidecar.py:138-144 | takes the next bytes or refuses without moving |
| FrameReader.ParseRequestFrame | devtools/tilemaxsim_reference_sidecar.py:456-626 | the advancing reader computes the decoding, with the same error status; it accepts exactly the printed forms of requests within the plain bounds, each as its request |
| FrameReader.EncodeFrame | services/benchmark_tilemaxsim_ablation.py:417-450 | the loop writes the v2 frame |
| FrameReader.EncodedRoundTrip | services/benchmark_tilemaxsim_ablation.py:417-450 | decodes to what was meant if and only if the contract's length in characters is its length in bytes |
| FrameReader.EncodeAndParse | services/benchmark_tilemaxsim_ablation.py:417-450 | an acceptable request encoded and parsed arrives as meant if and only if its contract has one byte per character |
| Prefetch.NothingLost | crates/index/src/prefetcher.rs:151-188 | what was yielded followed by what is left is the whole queue |
| Prefetch.PlainPrefetcher.Drive | crates/index/src/prefetcher.rs:151-188 | any sequence of next and next_if |
| Prefetch.SimplePrefetcher.Apply | crates/index/src/prefetcher.rs:252-303 | the windowed prefetcher yields what the plain one would, pages asked for once and in order |
| Prefetch.SimplePrefetcher.Drive | crates/index/src/prefetcher.rs:233-303 | the same for any sequence, and into_iter loses nothing |
| Prefetch.SimplePrefetcher.Prefetched | crates/index/src/prefetcher.rs:259-266 | every yielded item's pages were asked for before |
| Prefetch.ReadStream.PopId | src/index/storage.rs:457-468 | the callback gives the next page of the concatenated fetch lists, none only at the end |
| Prefetch.ReadStream.Apply | src/index/storage.rs:470-495 | pop_item and pop_item_if yield what the plain prefetcher would, under any look-ahead |
| Prefetch.ReadStream.PulledPrefix | src/index/storage.rs:457-468 | under any look-ahead the pages pulled are the first pages of all items |
| Prefetch.ReadStream.NextBuffer | src/index/storage.rs:524-539 | buffers come back in the order of the concatenated fetch lists |
| Prefetch.ReadStream.ReadGuards | src/index/storage.rs:524-539 | whatever was read before, the buffers are the next pages of the concatenated fetch lists |
| Prefetch.ReadStream.DrivePartly | src/index/storage.rs:524-620 | any operations, any look-ahead, any number of guards read of each item: same items as plain, and all buffers together are the next pages |
| Prefetch.ReadStream.Drive | src/index/storage.rs:592-620 | any operations, any look-ahead: same items as plain, every guard its item's pages |
| Prefetch.ReadPartly | src/index/storage.rs:524-620 | for a whole run: each buffer is the page at the number of buffers read before it; it is the item's own if, and where no page is fetched twice only if, all earlier guards were read to their end |
| Prefetch.SameForEveryone | crates/index/src/prefetcher.rs:143-395 | for every interleaving the three prefetchers yield the same items and keep the same rest |
| Prefetch.DroppedGuardsMisread | src/index/storage.rs:524-539 | a guard dropped unread is delivered to the next item |
| Tiles.TileMaxSim | devtools/tilemaxsim_reference_sidecar.py:255-275 | the reference score, or an error for empty tensors |
| Tiles.BestIsGreatest | devtools/tilemaxsim_reference_sidecar.py:255-275 | the best product of a query row is at least every product with a document row, and one of them |
| Tiles.ScoreIsGreatest | devtools/tilemaxsim_reference_sidecar.py:255-275 | the score is the greatest sum over all choices of a document row for every query row |
| Tiles.TileExtends | services/tilemaxsim_triton.py:48-72 | a masked tile extends the product by its columns and by nothing past the dimension |
| Tiles.Similarities | services/tilemaxsim_triton.py:47-72 | the dimension loop computes whole scalar products for every remainder |
| Tiles.Program | services/tilemaxsim_triton.py:21-77 | one program's contribution is its block's share of the score |
| Tiles.GridCovers | services/tilemaxsim_triton.py:102-123 | the shares of the grid's blocks add up to the score |
| Tiles.RaggedTileMaxSim | services/tilemaxsim_triton.py:80-124 | in whatever order programs run, every document gets its reference score |
| Tiles.SlicedScores | services/tilemaxsim_cuda_sidecar.py:875-891 | slices of a concatenated group give each document's own score |
| Feistel.RoundsInverse | crates/feistel/src/lib.rs:40-42 | rounds and their undoing are inverse, both ways |
| Feistel.OneRound | crates/feistel/src/lib.rs:40-42 | a round moves the right half to the left and sets the right to the old left half xor the secret's low bits |
| Feistel.NextRound | crates/feistel/src/lib.rs:40-42 | the rounds so far followed by the next one |
| Feistel.Permutes | crates/feistel/src/lib.rs:15-44 | for any secret, even width and round count, a permutation of the range |
| Feistel.Feistel | crates/feistel/src/lib.rs:15-44 | the loop computes that permutation |
| Feistel.SampleVisitsAll | src/index/sample.rs:204-216 | for every 32-bit n the sampler visits no block twice, and every block below n if and only if n is below 2^30 |

## Left out

- Floating point rounding, NaN and infinities: reals are exact, square roots enter as parameters with their defining equation, and the scale comparison is cross-multiplied.
- Cache.GpuTensorCache.Victim: ties between equal priorities may fall either way, and the sketch's answers, which priorities are computed from, are arbitrary numbers; the sketch's hashing and aging are not modelled.
- Cache.GpuTensorCache.UploadNew: arenas are uploaded in index order, not in the order in which new tensors first name them.
- The single-tensor `acquire` of the cache, which loads its payload outside the lock, looks again, and uploads before it makes the entry; statistics counters, status reports and locks.
- Arena.GpuArena.Read: the source's second path, for lists of blocks that are not contiguous, is not modelled; the allocator never makes such lists.
- CUDA streams, pinned memory, PyTorch and Triton themselves: the arena is a byte array and copies are array writes.
- Service.TileMaxsimService.Process: deadlines, disconnection checks and slot waits are one failure of an engine, which may happen at any call of an engine, before its first score; failures between groups and non-finite scores are not modelled.
- Service.TileMaxsimService.ScoreDevice: documents are scored as slices of groups, as the source does for 32-bit floats; the kernel it uses for 16-bit floats is modelled apart, with the same score (`Tiles.RaggedTileMaxSim`). How bytes become numbers is a parameter.
- Rotate.RotateInPlace: dimensions above 65536 are excluded because the source's own assertions stop there; the round trip and isometry are proved for every dimension.
- Quantize.Encode: the vector's norm is a parameter, and a zero vector, which the source divides by its norm, is outside the model. Sums are exact: in 32-bit floats adding the machine epsilon to a scale of four or more is lost to rounding. The quick `ugly_code` scale is not modelled.
- ScaleSearch.AllEvents: events carry their step and entry instead of the quotient, and are compared by cross-multiplication.
- `binary::binarize` and `binary::accumulate`: the one-bit case of the plane product.
- FastScan.Accumulate: quantization of the tables to bytes between `compress` and the scan is not modelled.
- Hierarchical.ModifiedWebster: exact quotients instead of 32-bit floats; the heap is any structure that yields a greatest quotient.
- k-means updates, random seeding and thread pools.
- ShardIndex.ParseIndex: the document is a typed value, so JSON type tests are not modelled, and the error messages are one rejection.
- Shards.ShardWriter.FinishShard: temporary files, renames, fsync and the atomic index replacement are one step.
- ShardReads.ReadShard: full-shard verification, the payload cache and the legacy one-file path are not modelled; which payloads are finite is a parameter.
- Frames.DecodePrinted: text is kept as its UTF-8 bytes; UTF-8 validity and the finite-number test are parameters.
- Response frames, sockets and the reference sidecar's own scoring loop over a frame.
- Prefetch.ReadStream.NextBuffer: PostgreSQL's buffers and locks are page numbers; heap sequences are their pop order.
- Tiles.RaggedTileMaxSim: documents have at least one row, and atomic additions happen one at a time in any order.
- Feistel.SampleVisitsAll: shift distances are taken modulo 32, as in release builds; a debug build stops instead. Zero blocks, for which the source's logarithm stops, are outside the model.
- Remaining SIMD variants, CPU detection, PostgreSQL bindings, index build and bulk delete.
