# Radiance inference stack: a Dafny model and its proofs

The repository speeds up large-model inference by replacing simple computations with faster ones: tiled
int4 kernels, split reductions between concurrent blocks, fused layers that pass unreduced sums, streams
that overlap, caches that are updated in part, and checkpoints that are cut up and rewritten. This project
models the places where a fast or transformed form must agree with a simple one, or where a protocol must
hold on every run, and proves that it does, or exactly when it does.

Arithmetic is exact (`real`, `int`, `bv32`, `bv8`); the exponential function is any function with its laws.
Code that updates state is written as methods and classes and proved against specification functions;
concurrency is a state machine over its steps, and results about it hold for every schedule.

| file | what it models |
|---|---|
| `Basics.dfy` | shared arithmetic and sequences |
| `SplitK.dfy` | the fused split-K reduction between concurrent blocks |
| `Int4Unpack.dfy` | the bit-level code unpacker |
| `AutoRound.dfy`, `AutoRoundDecode.dfy`, `AutoRoundPrefill.dfy`, `AutoRoundLaunch.dfy` | the int4 GEMM: its reference, both kernels, and the launches |
| `DraftGate.dfy` | the draft-depth controller and its early loop break |
| `ContextMirror.dfy` | the GPU mirror of token histories |
| `Matcher.dfy`, `PackedKey.dfy` | the parallel n-gram matcher and its packed key |
| `DraftPipeline.dfy` | a whole drafting step: mirror, matcher and controller together |
| `LogSumExp.dfy` | the split softmax over chunks, splits and ranks |
| `Fp8Stream.dfy` | the fp8-stream rewrite of the decoder stack |
| `Overlap.dfy` | the two-stream GEMM and all-reduce pipeline |
| `Mxfp4.dfy`, `AwqFold.dfy`, `ContextKv.dfy` | MXFP4 quantisation, scale folding and its search, and the drafter's context |
| `Escha.dfy`, `EschaLayer.dfy`, `EschaWeights.dfy` | tensor-parallel slicing and loading of coded layers, and the weight stream |
| `ShardPacking.dfy`, `Checkpoint.dfy`, `CheckpointRewrite.dfy` | packing, writing and reading sharded checkpoints |
| `FragmentOrder.dfy`, `ProjectionMerge.dfy` | fragment-order weights and the merged projection |
| `TiledRegistry.dfy` | the table that tells a GEMM its activation's layout |
| `KvGroupSize.dfy` | the KV cache group-size search |
| `DynWidth.dfy` | the adaptive verify width |

Where the code does not do what it or its documentation says, the model follows the code, and the exact
condition is proved:

- `radiance_arnq.py` documents a guard against an expert gate. The test that lets a layer stop reducing does
  not look at the next layer's gate, and that layer, left stock, does not finish the sum
  (`Fp8Stream.EquivalentIffSafe`, `Fp8Stream.ExpertGateAfterStreamLeaks`). The same condition covers what can
  be handed a (q, scale) pair it cannot take: merged projections that are not quantised, linears that own
  their all-reduce, and linears that loading marks like ours though they fall back to aiter or are forced onto
  the per-block path (`Fp8Stream.FallbackIsHandedAPair`, `Fp8Stream.PerBlockIsHandedAPair`).
- `quantize_dflash_mxfp4.py` documents round-half-even. At the magnitudes 0.75, 1.75 and 3.5 the tie rule
  steps down past the nearer code (`Mxfp4.HalfEvenIff`).
- The draft controller's comment says a capped request whose n-gram has matched all along takes its tail for
  free. That arm is never reached (`DraftGate.DraftingMeansDisagreed`).
- The softmax kernels return not-a-number exactly when a chunk of 4096 starts with a non-empty block of 512
  minus infinities (`LogSumExp.LocalDraft`). For finite logits this depends on the sizes alone: it happens
  when overwritten vocabulary padding reaches past the chunk of the last own entry
  (`LogSumExp.HealthyIff`, `LogSumExp.PaddingBreaksConfidence`).
- `radiance_escha.py` checks that a source's width per rank is a multiple of 128 so that no transform block is
  cut. For a sliced source of several partitions each one's width would have to be
  (`EschaLayer.TransformUncutIff`, `EschaLayer.WidthCheckIsNotEnough`).
- The MXFP4 error bound of half a block's maximum, which an unclamped exponent gives, fails for some clamped
  ones (`Mxfp4.HalfMaximumIff`).
- The scale fold of `quantize_dflash_mxfp4.py` multiplies the columns of the key and value projections. The
  drafter also applies these to its context, whose norm is shared by all layers and not divided: the values
  and the normed keys that attention gets from the context change unless the channels used keep scale 1
  (`ContextKv.ContextKvIff`, `ContextKv.ContextKvChanges`). The norm of each key head does not absorb even a
  scale that all its channels share, as it adds a positive constant under its root
  (`ContextKv.KeysKeptIff`, `ContextKv.CommonScaleCancels`).
- `radiance_gdnmerge.py` merges linears that are forced onto the per-block path too. Their joined references
  then call for neither of our kernels, and the merged product goes to aiter
  (`ProjectionMerge.MergeExactIff`, `ProjectionMerge.PerBlockMergeChanges`).
- The adaptive width recovers from its own cap exactly when the floor is the full width, the margin is at
  least 1, or it is 0 with a floor of at least 1 (`DynWidth.RecoversIff`, `DynWidth.StuckAtZero`,
  `DynWidth.StuckBelowFull`).
- The checkpoint copy never ends on a truncated source file (`Checkpoint.CopyEndsIff`), and a
  single-file output written beside an index left from an earlier one is not what a reader of the directory
  gets (`CheckpointRewrite.StaleIndexWins`).

## Model

| member | source | states |
|---|---|---|
| SplitK.OwnerIsUnique | radiance_autoround_kernels.h:303-311 | every output cell is held by exactly one thread of each k-slice, so no two threads store the same partial |
| SplitK.RangesTile | radiance_autoround.hip:113 | the column ranges cover the columns, and every one of them has some |
| SplitK.SlotIndexInjective | radiance_autoround_kernels.h:309 | the flat index of the partial buffer is one-to-one on its slots and stays inside dks * M * N floats |
| SplitK.InvPreserved | radiance_autoround_kernels.h:303-337 | every step of every thread (store into its own buffer, drain, fence, barrier, atomic count, vote, acquire, load and reduce, reset) keeps the protocol invariant, where a load may return anything if its place was written since the thread's acquire |
| SplitK.AcquirePreserved | radiance_autoround_kernels.h:326-335 | nothing a reducing thread still has to load has been written since its acquire, and no step of any thread changes that |
| SplitK.LoadIsCurrent | radiance_autoround_kernels.h:326-335 | so the load of a reducing thread returns what memory holds, though the model lets one without that fence return anything |
| SplitK.PartialsArrived | radiance_autoround_kernels.h:313-328 | a range whose reduction may start has all dks partials of this launch in memory, however stores were delayed |
| SplitK.RunKeepsInv | radiance_autoround_kernels.h:303-337 | the invariant holds after any schedule, and no cell outside the matrix is ever written |
| SplitK.RangeSettled | radiance_autoround_kernels.h:322-327 | at the end exactly one block per column range has reduced, and the range counter is 0 |
| SplitK.LaunchCorrect | radiance_autoround_kernels.h:303-338 | in every schedule that finishes, each cell is written exactly once, with the sum of this launch's dks partials times its row scale; nothing else is written; all counters are back at 0 |
| SplitK.OrderIrrelevant | radiance_autoround_kernels.h:330-337 | two finished runs under different schedules and different initial memory give the same output |
| SplitK.NeverStuck | radiance_autoround_kernels.h:320-327 | until every thread has returned some step is enabled: the barriers cannot deadlock |
| SplitK.RunsAreBounded | radiance_autoround_kernels.h:303-337 | no schedule is longer than the work left: every thread's stores, drains, barriers and reduction steps are used up one by one |
| SplitK.CanFinish | radiance_autoround_kernels.h:303-337 | from every reachable state some schedule finishes the launch; with the bound, every schedule that keeps going does |
| SplitK.LaunchFinishes | radiance_autoround_kernels.h:303-338 | a launch can always be run to its end, with the correct result |
| SplitK.EveryLaunchCorrect | radiance_autoround.py:57-71 | counters zeroed once suffice for every launch of any later sequence of launches of any shapes |
| Int4Unpack.Lut4Byte | radiance_autoround_kernels.h:80-90 | one byte of the four-way lookup is the table entry of that byte's code, for every word |
| Int4Unpack.UnpackCorrect | radiance_autoround_kernels.h:93-98 | for all 32-bit words, unpacked byte j is the table entry of nibble j |
| Int4Unpack.UnpackExact | radiance_autoround_kernels.h:93-98 | unpacked byte j decodes, as e4m3, to exactly nibble j minus 8 |
| AutoRound.RefIsScaledGroupSum | radiance_autoround.py:85-93 | scaling each group's dot product once and the row once equals the reference, which scales every term |
| AutoRound.FlatSumIs | radiance_autoround.py:85-93 | the reference of output (m, n) is the sum over k of value(A[m*K+k]) * As[m] * (code k of column n - 8) * S[(k/128)*N+n], read straight from the flat arrays |
| AutoRound.ReadsOnly | radiance_autoround.py:85-93 | an output depends on its own row of activations and row scale, its own column of words, and every N-th group scale from its column on, and on nothing else |
| AutoRound.ScaleEntryLocal | radiance_autoround_kernels.h:170 | two problems that differ in one group scale have the same outputs in all other columns |
| AutoRound.FillCodes | radiance_autoround.py:87-90 | the reference's strided loop over nibble positions fills the whole code matrix, each code in its place |
| AutoRound.WeightAt | radiance_autoround_kernels.h:186-209 | a kernel's unpacked byte for code b of word j has the reference's weight value |
| AutoRound.WmmaStep | radiance_autoround_kernels.h:225-233 | one 16-wide matrix step on staged bytes extends eight dot products by sixteen terms |
| AutoRound.FoldGroup | radiance_autoround_kernels.h:234-238 | folding a finished group extends the scaled sums by that group |
| AutoRoundDecode.SlabsCovered | radiance_autoround_kernels.h:133-135 | the rounded-up slab ranges of the dks blocks reach past the last slab, by less than one slab a block |
| AutoRoundDecode.SlicesTile | radiance_autoround_kernels.h:133-135 | the first k blocks together sum exactly the slabs up to the k-th boundary: no slab is skipped or counted twice |
| AutoRoundDecode.StageA | radiance_autoround_kernels.h:171-179 | the staging loop fills the activation tile; every read is in bounds, rows past M repeat row M - 1 |
| AutoRoundDecode.StageW | radiance_autoround_kernels.h:186-210 | the staging loop fills the weight tile with unpacked bytes; columns past N repeat column N - 1 |
| AutoRoundDecode.ComputeSlab | radiance_autoround_kernels.h:214-242 | every lane's accumulators advance by one scale group |
| AutoRoundDecode.KLoop | radiance_autoround_kernels.h:150-279 | a block's accumulators end as the scaled sums over its slab range, for every tile height |
| AutoRoundDecode.StoreLane | radiance_autoround_kernels.h:287-298 | a thread stores exactly its own cells inside the matrix |
| AutoRoundDecode.AccIsPart | radiance_autoround_kernels.h:303-311 | the accumulator a thread stores is the partial sum the split-K machine expects of its block |
| AutoRoundPrefill.SlabSumIsGroupSum | radiance_autoround_kernels.h:441-444 | folding once per 64-wide slab equals folding once per 128-wide group |
| AutoRoundPrefill.StageA | radiance_autoround_kernels.h:457-463 | the unguarded activation staging fills its buffer exactly, in bounds |
| AutoRoundPrefill.StageW | radiance_autoround_kernels.h:464-478 | the unguarded weight staging fills its buffer exactly when the tile width is even |
| AutoRoundPrefill.FoldPerSlab | radiance_autoround_kernels.h:481-524 | the shipped arm: one slab folded at once |
| AutoRoundPrefill.FoldPerGroup | radiance_autoround_kernels.h:526-563 | the other arm: the pending sum is carried over the first slab of a group and folded after the second |
| AutoRoundPrefill.KLoop | radiance_autoround_kernels.h:436-564 | both arms keep every lane at the sums of the slabs done |
| AutoRoundPrefill.PrefillTile | radiance_autoround_kernels.h:436-564 | after the K loop every lane of a tile holds the scaled sums over all groups, in both arms |
| AutoRoundPrefill.OwnerIff | radiance_autoround_kernels.h:579-604 | a cell of a tile belongs to exactly one lane |
| AutoRoundPrefill.StoreTile | radiance_autoround_kernels.h:579-604 | the epilogue, guarded or not, stores exactly the tile's cells inside the matrix |
| AutoRoundLaunch.ShippedFormatFaithful | radiance_autoround_kernels.h:80-98 | the bit-level unpacker meets what the kernels assume of a weight format |
| AutoRoundLaunch.StoreBlock | radiance_autoround_kernels.h:287-298 | a decode block stores exactly its column range |
| AutoRoundLaunch.OwnCellsAre | radiance_autoround_kernels.h:303-309 | the cells a thread must store are those inside the matrix of the DTM fragments it accumulates, each at one place of one fragment |
| AutoRoundLaunch.StoreLoop | radiance_autoround_kernels.h:303-311 | the store loop issues exactly those cells, each with its partial sum |
| AutoRoundLaunch.DecodeUnsplit | radiance_autoround_kernels.h:116-298 | the unsplit decode launch returns in every cell the reference, the sum over the flat arrays, for every tile height that covers M |
| AutoRoundLaunch.DecodeSlice | radiance_autoround_kernels.h:131-311 | when the tile height covers M, every thread of a block stores exactly the cells the protocol has it store, each with the block's partial sum |
| AutoRoundLaunch.AllSlices | radiance_autoround_kernels.h:133-135 | all blocks' slab ranges together are the whole K range |
| AutoRoundLaunch.SplitResult | radiance_autoround_kernels.h:330-337 | the sum of the partials times the row scale is the reference |
| AutoRoundLaunch.SplitDecodeCorrect | radiance_autoround_kernels.h:303-338 | the split decode launch, with tiles tall enough for M and under every schedule, writes each cell once, with the reference, the sum over the flat arrays |
| AutoRoundLaunch.PrefillGemm | radiance_autoround_kernels.h:436-604 | the prefill launch returns in every cell the reference, the sum over the flat arrays, for every even tile width and both folding arms |
| AutoRoundLaunch.RouteInDomain | radiance_autoround.hip:51-154 | the launcher always picks an instantiated kernel inside its domain: the tile covers M, the scratch holds every partial, a zeroed counter exists per range, the prefill width is even |
| AutoRoundLaunch.RouteCall | radiance_autoround.hip:51-154 | the launcher's own steps arrive at that kernel |
| DraftGate.RunMeans | radiance_draft.py:178-202 | after any number of slots the gate's arrays mean what they should: which slot stopped a request and why |
| DraftGate.StopSlot | radiance_draft.py:182-202 | the stop slot is the first slot where the n-gram agrees or the product of earlier confidences is below TAU, else the forward cap or the width; the action is the n-gram exactly when agreement stopped it |
| DraftGate.DraftingMeansDisagreed | radiance_draft.py:192-202 | a request still drafting has its agreement flag down, so the cap never hands out a free n-gram tail |
| DraftGate.CapVerifies | radiance_draft.py:194-202 | a request that reaches the cap is verified at the cap |
| DraftGate.ForwardsLeast | patch_mtp_loopbreak.py:26-31 | the loop runs the fewest forwards after which every request has decided, and never more than the cap |
| DraftGate.StoppedIsFrozen | radiance_draft.py:185-193 | later slots cannot change a stopped request's slot or action |
| DraftGate.ShortCircuitInvisible | radiance_draft.py:309-342 | the drafts assembled after the early break equal those of running all forwards |
| DraftGate.DraftShape | radiance_draft.py:330-341 | a draft is never empty nor longer than the width, and is a drafter prefix, plus the n-gram tail exactly when agreement stopped it |
| DraftGate.Drafter.GreedySample | radiance_draft.py:141-205 | one slot updates the gate of every request by one step and raises the stop flag when all have decided |
| DraftGate.Drafter.Decide | radiance_draft.py:181-204 | the per-slot array updates, field by field |
| DraftGate.Drafter.StartGate | radiance_draft.py:178-180 | slot 0 resets every request's state |
| DraftGate.Drafter.Propose | radiance_draft.py:207-225 | the loop with its early break produces the first tokens of the full run, as many as needed |
| DraftGate.Drafter.Postprocess | radiance_draft.py:309-342 | each request is trimmed to its stop slot and given its n-gram tail |
| DraftGate.Drafter.ProposeDrafts | radiance_draft.py:239-254 | a whole call returns what running all forwards would have given |
| DraftGate.AgreementMeans | radiance_draft.py:181-182 | the n-gram agrees in every slot below k exactly when the drafter's first k tokens are the n-gram's |
| DraftGate.AgreedSlotWins | radiance_draft.py:181-190 | agreement in the slot a request is drafting is what makes it take the n-gram there, and its draft is then the drafter's tokens up to the agreed one and the rest of the n-gram |
| DraftGate.GateStep | radiance_draft.py:182-202 | the elementwise array step is one row step per request |
| DraftGate.BatchCeil | radiance_draft.py:69-79 | the ceiling is the depth of the last schedule entry reached, the first entry's below all, at least 1 |
| DraftGate.CeilingUnique | radiance_draft.py:69-79 | a sorted schedule has one ceiling for every batch size |
| ContextMirror.Mirror.UpdateRow | radiance_draft.py:282-295 | copying the unseen tail makes the row hold the request's history and touches no other row |
| ContextMirror.Mirror.Prepare | radiance_draft.py:277-298 | after a batch row i holds request i's history, and the table knows exactly the live requests |
| ContextMirror.Mirror.Serve | radiance_draft.py:277-298 | over any run of batches with joins, leaves and reshuffles the matcher reads exactly the requests' own histories |
| Matcher.Lane | radiance_draft_gpu.py:30-36 | a lane finds the longest suffix match ending at its position |
| Matcher.KeyBits | radiance_draft_gpu.py:37-43 | for positions below 2^20 the shift-and-or key is the sum form, below 2^31, and the mask takes the position out again |
| PackedKey.OrIsSum | radiance_draft_gpu.py:37 | or-ing a number below 2^k into a multiple of 2^k adds it |
| PackedKey.AndIsRemainder | radiance_draft_gpu.py:43 | masking the low k bits is the remainder by 2^k |
| PackedKey.UnpacksIff | radiance_draft_gpu.py:37-43 | a packed position unpacks exactly when it is below 2^20 |
| Matcher.PackOrder | radiance_draft_gpu.py:37 | a larger key is a longer match, or an equally long later one |
| Matcher.ScanBlock | radiance_draft_gpu.py:30-37 | a block contributes the maximum over its lanes |
| Matcher.Scan | radiance_draft_gpu.py:26-37 | whatever the order of the atomic updates the key names the longest match, the latest among equals, or is 0 when there is none |
| Matcher.KeyNamesBest | radiance_draft_gpu.py:37-43 | the maximum of all lanes' keys unpacks to the best match |
| Matcher.BestUnique | radiance_draft_gpu.py:9-14 | there is at most one best match |
| Matcher.Gather | radiance_draft_gpu.py:40-46 | the continuation after the match is copied, as much as fits, -1 elsewhere |
| Matcher.ContinuationUnique | radiance_draft_gpu.py:40-46 | what is said of a request's continuation fixes it |
| Matcher.MatchGpu | radiance_draft_gpu.py:49-59 | every row gets the continuation of its best match: length min(nspec, n - 1 - q), empty exactly when there is no match |
| Matcher.MatchOffersATail | radiance_draft_gpu.py:43-46 | a match always offers at least one token, and suffix and continuation stand together in the history |
| DraftPipeline.AgreeIff | radiance_draft.py:181-182 | the gate's agreement in a slot says that the longest suffix match of the request's own history has a token for that slot, the drafter's own |
| DraftPipeline.AssembledServed | radiance_draft.py:309-342 | what the controller assembles from true matches is the drafter's tokens up to the first slot where the history agrees or the confidence has run out, then, where it agrees, what the history says |
| DraftPipeline.DraftBatch | radiance_draft.py:239-254 | one step, from mirror update over matching and gated drafting to the assembled drafts: every draft is a drafter prefix and, where agreement stopped the request, the continuation of the longest suffix match in its own history; every drafted token is kept exactly when no history of the batch has three tokens |
| DraftPipeline.LongestIs | radiance_draft.py:299-303 | the longest history is below three tokens exactly when all histories are |
| DraftPipeline.ServedUnique | radiance_draft.py:309-342 | what is said of a draft fixes it: no other draft would be served |
| DraftPipeline.ServeBatches | radiance_draft.py:239-342 | the same over any run of batches with joins, leaves and reshuffles of rows |
| LogSumExp.RunningStep | radiance_draft_gpu.py:71-78 | one block of the online sum keeps maximum and rescaled sum exact, and a leading block of minus infinities poisons the sum |
| LogSumExp.CapChunk | radiance_draft_gpu.py:66-80 | a chunk's partial is its exact maximum and sum, or not a number exactly when its first block is all minus infinity |
| LogSumExp.CombineChunks | radiance_draft_gpu.py:103-113 | combining the 64 chunks gives the exact maximum and sum of the row |
| LogSumExp.CombineExact | radiance_draft_gpu.py:87-90 | combining exact partials of any segments gives the exact partial of the whole |
| LogSumExp.CaptureLocal | radiance_draft_gpu.py:116-124 | a shard's maximum and sum are exact, and a number exactly when no chunk starts with a block of minus infinities |
| LogSumExp.ReciprocalIsSoftmax | radiance_draft_gpu.py:89-91 | one over the sum is the softmax probability of the maximum |
| LogSumExp.ExpGrows | radiance_draft_gpu.py:71-78 | an exponential with E(1) > 1 grows strictly |
| LogSumExp.FirstTopIs | radiance_draft.py:111-117 | the first maximum is the first entry that no other one exceeds, in numbers |
| LogSumExp.LargestIsMostProbable | radiance_draft_gpu.py:89-91 | the first largest entry has the largest softmax probability, and with a growing exponential a larger one than all before it |
| LogSumExp.CaptureGpu | radiance_draft_gpu.py:83-100 | the gathered path returns the softmax probability of the first maximum, the largest logit and the most probable entry, for rows up to 64 * 4096 |
| LogSumExp.PaddingWeightless | radiance_draft.py:106-108 | overwritten padding changes neither maximum nor sum |
| LogSumExp.HealthyIff | radiance_draft_gpu.py:66-80 | for a shard with finite logits the confidence is a number exactly when it owns an entry and its padding does not reach past the chunk of its last own entry |
| LogSumExp.PaddingBreaksConfidence | radiance_draft.py:106-108 | 4096 finite logits and 32 padding entries: the confidence is not a number |
| LogSumExp.Rank | radiance_draft.py:111-123 | a rank's three numbers are exact for its own entries |
| LogSumExp.WhichRank | radiance_draft.py:126-128 | the first rank holding the maximum holds the first maximum of the whole row |
| LogSumExp.AcrossRanks | radiance_draft.py:124-127 | the cross-rank sum is the whole row's, or not a number exactly when some rank's is |
| LogSumExp.LocalDraft | radiance_draft.py:94-129 | drafted token and confidence are the first largest logit of all ranks, which is the most probable token, and its softmax probability, for any number of ranks |
| Fp8Stream.LayerAgrees | radiance_arnq.py:218-252 | one streamed layer keeps the two runs in step: equal states, or a partial sum where the next layer finishes it |
| Fp8Stream.StreamPreserves | radiance_arnq.py:218-365 | in the sound cases the streamed stack computes what the stock stack does, for every list of layers and whatever the layers compute |
| Fp8Stream.EquivalentIffSafe | radiance_arnq.py:304-365 | the rewrite changes nothing if and only if no layer leaks a partial sum (on two or more ranks) and no pair reaches a projection or linear that cannot take one: a merged one not quantised, one marked by loading but not on the folded path, one that owns its all-reduce |
| Fp8Stream.GuardsSuffice | radiance_arnq.py:21-24 | without expert gates, and with every marked linear on the folded path, the rewrite is sound |
| Fp8Stream.ExpertGateAfterStreamLeaks | radiance_arnq.py:313-340 | a concrete two-layer stack that installation accepts and breaks |
| Fp8Stream.FallbackIsHandedAPair | radiance_mxfp4.py:784-821 | a down projection that is 32 more than a multiple of 64 wide on a rank is marked but falls back to aiter, is handed a pair, and the rewrite breaks the layer |
| Fp8Stream.PerBlockIsHandedAPair | radiance_mxfp4.py:784-821 | a gate-up projection forced onto the per-block path is handed a pair, and the rewrite breaks the layer |
| Fp8Stream.ReducedOnce | radiance_arnq.py:322-341 | every row-parallel output is all-reduced exactly once unless it leaks, and a hand-off is partial exactly when the next layer is flagged |
| Fp8Stream.RunRejects | radiance_arnq.py:191-198 | a misplaced pair, one at an aiter or per-block linear included, stops the run, whatever the layers compute |
| Fp8Stream.RunCounts | radiance_arnq.py:218-252 | in a run with leaks the residual holds exactly that many unreduced sums more |
| Fp8Stream.DecoderLayer.constructor | radiance_arnq.py:322-359 | a layer as loaded carries no flags |
| Fp8Stream.StopReducing | radiance_arnq.py:318-341 | the two all-reduces an eligible layer stops doing, and the flag set on the next layer |
| Fp8Stream.FuseQuantisation | radiance_arnq.py:342-356 | which layers get the quantising activation and the quantising norm |
| Fp8Stream.InstallLayer | radiance_arnq.py:307-359 | one pass of the loop leaves the layer final and the next one marked |
| Fp8Stream.Install | radiance_arnq.py:304-365 | all flags end as the configuration alone determines |
| Fp8Stream.RunStack | radiance_arnq.py:218-252 | running the patched layers is the streamed run |
| Fp8Stream.InstallAndRun | radiance_arnq.py:218-365 | install, then run: the output is the stock stack's |
| Fp8Stream.FlagsMean | radiance_arnq.py:304-359 | the flags of every layer in the loaded model's own terms: routes, biases, widths, who reduces, what the next layer is |
| Fp8Stream.RouteMeans | radiance_mxfp4.py:766-796 | which linears run folded, per-block or on aiter |
| Fp8Stream.StockOrder | radiance_arnq.py:218-252 | the order of a stock layer's operations, spelled out for every configuration |
| Fp8Stream.EarlierLayersSame | radiance_arnq.py:218-252 | changing one norm of a layer changes nothing in the layers before it, stock or streamed |
| Fp8Stream.AttentionSame | radiance_arnq.py:243-248 | changing a layer's second norm leaves its attention and the residual after it as they were, stock or streamed |
| Fp8Stream.NormsMatter | radiance_arnq.py:243-248 | each of a layer's two norms by itself changes what the layer gives |
| Overlap.SlicesTile | radiance_aroverlap.py:113 | the slice bounds are ordered and cover all rows and elements |
| Overlap.Scratch.Grow | radiance_aroverlap.py:68-72 | a buffer is never shrunk and ends large enough |
| Overlap.Scratch.Issue | radiance_aroverlap.py:80-128 | the two streams' work for a call, operation by operation, and scratch large enough for it |
| Overlap.RowReads | radiance_aroverlap.py:115-119 | output element n of row m is computed from row m of the input |
| Overlap.SameRow | radiance_aroverlap.py:18-20 | so it is the same for inputs that have that row in common, whatever they hold elsewhere |
| Overlap.GemmFills | radiance_aroverlap.py:115-119 | a finished slice extends the correct part of the product scratch |
| Overlap.ReduceStores | radiance_aroverlap.py:123-125 | an all-reduce reads a slice its GEMM wrote |
| Overlap.StepKeepsInv | radiance_aroverlap.py:97-128 | every start and completion on either stream keeps the invariant |
| Overlap.RunKeepsInv | radiance_aroverlap.py:97-128 | so does every schedule |
| Overlap.EffectWithin | radiance_aroverlap.py:80-128 | an operation writes nothing outside its footprint and its own part of the result |
| Overlap.EffectReads | radiance_aroverlap.py:80-128 | where two memories agree on its footprint it writes the same to both |
| Overlap.NoRace | radiance_aroverlap.py:126-127 | the footprints of two operations running at the same time have no entry in common that one of them writes |
| Overlap.EveryScheduleCorrect | radiance_aroverlap.py:75-128 | every schedule of every list of calls, from any memory contents, ends with each result equal to the unsliced operation's: element n of row m is the all-reduced product of input row m |
| Overlap.NeverStuck | radiance_aroverlap.py:108-125 | events cannot deadlock the streams |
| Overlap.CanFinish | radiance_aroverlap.py:108-125 | from every reachable state some schedule reaches the end |
| Overlap.RunsAreBounded | radiance_aroverlap.py:108-125 | no schedule is longer than the work left |
| Mxfp4.FloorLog2 | quantize_dflash_mxfp4.py:76 | the exponent is the one of the largest power of two not above the value |
| Mxfp4.ExponentMeans | quantize_dflash_mxfp4.py:73-77 | the stored exponent is 127 for a block of zeros, else puts the largest magnitude between 4 and 8 scale units as far as the byte allows |
| Mxfp4.MagCodeIsBand | quantize_dflash_mxfp4.py:81-89 | the code of a magnitude is a step function with the thresholds given |
| Mxfp4.NearestIff | quantize_dflash_mxfp4.py:83-89 | the code is a nearest one except at exactly 0.75, 1.75 and 3.5, where it is not |
| Mxfp4.HalfEvenIff | quantize_dflash_mxfp4.py:59 | the documented round-half-even holds except at exactly those three magnitudes |
| Mxfp4.ErrorBound | quantize_dflash_mxfp4.py:72-93 | with an unclamped exponent every element moves by less than half the block's largest magnitude; zeros stay |
| Mxfp4.HalfMaximumIff | quantize_dflash_mxfp4.py:72-93 | the bound of half the maximum holds for every block with a given maximum exactly outside three ranges of maxima at the ends of the exponent's span |
| Mxfp4.BlockFixed | quantize_dflash_mxfp4.py:72-106 | requantising any dequantised block gives the same values back, for every code and every exponent byte up to 254 |
| Mxfp4.RequantiseFixed | quantize_dflash_mxfp4.py:58-106 | the same for whole stored rows: quantise after dequantise is a projection |
| Mxfp4.RowRoundTrip | quantize_dflash_mxfp4.py:70-106 | a row comes back block by block, the packing between them lossless |
| Mxfp4.NibbleOps | quantize_dflash_mxfp4.py:92-101 | the shifts and masks on bytes pack and unpack two codes |
| Mxfp4.NibblesRoundTrip | quantize_dflash_mxfp4.py:92-101 | packing codes into bytes loses nothing in either direction |
| Mxfp4.UnpackInto | quantize_dflash_mxfp4.py:97-101 | the two strided assignments fill the code buffer |
| Mxfp4.QuantiseTensor | quantize_dflash_mxfp4.py:58-71 | chunked and unchunked calls agree; a row length that is no multiple of 32 is an error |
| AwqFold.ConvCommutes | dflash2/qwen3_dflash2.py:26-98 | for any base kernel, number of taps, groups and block length: dividing the convolution's input channels and compensating its coefficient projection leaves both sides' coefficients as they were and only divides the output |
| AwqFold.GroupedConv | dflash2/qwen3_dflash2.py:26-46 | the convolution as it is run, tap by tap over the whole output: coefficients by side, tap and group, tokens shifted, blocks masked |
| AwqFold.FoldPreserves | quantize_dflash_mxfp4.py:13-27 | norm, prepare, projections, whatever is computed from them, finish: a whole side is as before when the norm is divided, the coefficient projection compensated and the projections scaled, for any tokens and non-zero scales |
| AwqFold.AttentionFold | quantize_dflash_mxfp4.py:154-163 | the fold of a whole attention side, finish included, changes nothing but the context's keys and values, and nothing at all where those keep their scale |
| ContextKv.ContextKvIff | paroquant/drafter/train_drafter.py:102-106 | what attention receives from the context, values and normed keys, survives the fold if and only if every channel that the values or a head that is not dead use keeps scale 1 |
| ContextKv.KeysKeptIff | paroquant/drafter/train_drafter.py:103-105 | a head's keys behind its norm survive exactly when they are zero anyway or every channel the head uses keeps scale 1; a scale common to all its channels does not go unnoticed, as the norm adds a positive constant under its root |
| ContextKv.SameOverIff | paroquant/drafter/train_drafter.py:47-48 | the comparison without roots is equality of the normed entries |
| ContextKv.CommonScaleCancels | paroquant/drafter/train_drafter.py:47-48 | without that constant a common scale would cancel |
| ContextKv.ContextKvChanges | paroquant/drafter/train_drafter.py:102-106 | scales 2 and 1/2, a context of two channels, and the value and key that change |
| AwqFold.CompensationNeeded | quantize_dflash_mxfp4.py:21-27 | without the compensation the fold is wrong |
| AwqFold.DownFoldPreserves | quantize_dflash_mxfp4.py:179-183 | the down fold leaves the gated mlp as it was |
| AwqFold.MlpFoldsPreserve | quantize_dflash_mxfp4.py:166-183 | both mlp folds together leave the whole mlp side, finish included, as it was |
| AwqFold.Sampled | quantize_dflash_mxfp4.py:118-119 | the sampled rows are every (rows / max_rows)-th row, max_rows of them, or all when there are no more |
| AwqFold.CandidateBalanced | quantize_dflash_mxfp4.py:125-126 | every candidate scale has product 1, so 1 is its geometric mean and its only one, given that what the raised magnitudes are divided by is their geometric mean |
| AwqFold.CandidateExample | quantize_dflash_mxfp4.py:125-126 | magnitudes 1 and 4 at exponent 1 have the geometric mean 2 and give the scale (1/2, 2) |
| AwqFold.SearchScale | quantize_dflash_mxfp4.py:109-131 | scale, exponent and error returned are those of the first candidate with the least weighted error over the sampled rows; nothing is returned only without candidates |
| AwqFold.MeasureError | quantize_dflash_mxfp4.py:128 | the error measured entry by entry: squared deviation times squared magnitude |
| AwqFold.ErrorZeroIff | quantize_dflash_mxfp4.py:128 | the error is never negative, and zero exactly when every weight whose channel counts is given back |
| AwqFold.NormalisedMean | quantize_dflash_mxfp4.py:121-122 | the normalised magnitudes have mean 1 and the proportions of the measured ones |
| AwqFold.FirstBestUnique | quantize_dflash_mxfp4.py:129-130 | there is one first best candidate |
| AwqFold.SearchNeverWorse | quantize_dflash_mxfp4.py:116-131 | with exponent 0 among the candidates the choice is at least as good as no scaling |
| Escha.Take | radiance_escha.py:291-292 | a group is the shortest run of partitions reaching the source's width |
| Escha.CreateGroups | radiance_escha.py:288-298 | the nested loops build the greedy grouping |
| Escha.GroupIff | radiance_escha.py:288-297 | the widths can be grouped exactly when each of their running totals is a running total of the partitions |
| Escha.GroupsInOrder | radiance_escha.py:288-298 | the groups are the partitions in order and add up to the sources |
| Escha.ShardIndex | radiance_escha.py:338-346 | the loop finds the source whose span contains the shard's first column |
| Escha.SourceHoldsPartition | radiance_escha.py:319-346 | that source's group contains the partition |
| Escha.ShardIndexExact | radiance_escha.py:319-346 | every partition of source k's group leads to source k |
| Escha.GroupStart | radiance_escha.py:288-298 | source i's group starts at the column where the sources before it end, and is as wide as it |
| Escha.LoadColumns | radiance_escha.py:374-379 | the loader's loop cuts one piece per partition and joins them |
| Escha.SlicesAreBlocks | radiance_escha.py:369-379 | on whole tiles, slicing the code tensor is slicing the columns |
| Escha.PiecesTile | radiance_escha.py:375-378 | the ranks' pieces of a partition, put together, are the partition |
| Escha.SliceIsPieces | radiance_escha.py:374-379 | a rank's slice is its pieces in partition order |
| Escha.CoverageIff | radiance_escha.py:428 | the covered columns equal the partitions' total exactly when every partition is a whole number of tiles |
| Escha.CheckForcesTiles | radiance_escha.py:428-432 | passing the total-width check forces whole 16-column tiles |
| Escha.RowsTile | radiance_escha.py:362-367 | row-parallel ranks tile the input axis |
| Escha.RowTilesMatch | radiance_escha.py:362-367 | tile rows and per-input vectors are cut at the same places |
| EschaLayer.CodedLinear.CreateWeights | radiance_escha.py:259-304 | creation succeeds exactly when the input width is a multiple of 128 and the widths, per rank unless row-parallel, can be grouped |
| EschaLayer.WidthsMean | radiance_escha.py:280-284 | a row-parallel layer takes the sources' widths whole, any other one its part of each |
| EschaLayer.CodedLinear.LoadCode | radiance_escha.py:348-388 | the loader keeps this rank's part of a code tensor: whole, its tile columns or its tile rows; it fails exactly when a piece leaves the tensor |
| EschaLayer.CodedLinear.LoadVector | radiance_escha.py:348-388 | the loader keeps this rank's part of each of the four scale vectors, output-side or input-side, whole where the other axis is sharded |
| EschaLayer.CodedLinear.Load | radiance_escha.py:348-388 | loading every source succeeds exactly when each part can be cut, and leaves those parts |
| EschaLayer.CodedLinear.Process | radiance_escha.py:390-439 | the load checks pass exactly when every shard is complete, int16, has the expected K and IC, is a multiple of 128 wide, and the widths add up; the code and the four vector lists are then collected |
| EschaLayer.ShardGiven | radiance_escha.py:418-439 | a source's kernel is told the width in bits its code has, and given all that was loaded |
| EschaLayer.CodedLinear.Apply | radiance_escha.py:441-452 | the sources' kernels fill one output buffer side by side |
| EschaLayer.CodedLinear.Serve | radiance_escha.py:259-452 | create, load every source, check and compute: it fails exactly when the layer is not accepted, and else returns the sources' outputs side by side |
| EschaLayer.LoadedExactly | radiance_escha.py:369-432 | an accepted column-parallel layer at tp > 1 has whole 16-column tiles, widths that add up, code slices encoding exactly the sliced columns, and the matching slices of the output-side vectors |
| EschaLayer.EveryColumnOnce | radiance_escha.py:428-452 | source i fills exactly the output columns of its own group of partitions |
| EschaLayer.RowLoadedExactly | radiance_escha.py:362-367 | an accepted row-parallel layer has its code and input-side vectors cut at the same inputs, the rank's own |
| EschaLayer.InputsAre | radiance_escha.py:362-367 | these are inputs rank * ic up to rank * ic + ic, sixteen to a tile row |
| EschaLayer.TransformUncutIff | radiance_escha.py:411-416 | with the width check passed, every block of every rank's slice is a block of the source exactly when nothing is sliced or every partition of the source is a multiple of 128 |
| EschaLayer.WidthCheckIsNotEnough | radiance_escha.py:411-416 | an accepted layer of two 64-wide partitions on two ranks, and the block of its slice that is none of the source's |
| EschaWeights.ClassifyInjective | radiance_escha.py:486-497 | a half of a pair determines its name |
| EschaWeights.ClassifyIff | radiance_escha.py:480-497 | a name is half of a pair exactly when it is the embedding's or the head's, in front of either suffix |
| EschaWeights.ClassifyOther | radiance_escha.py:486-497 | every other name passes through |
| EschaWeights.GetAllWeights | radiance_escha.py:484-503 | the generator fails exactly when some half stays alone; otherwise others pass through in place and each pair leaves once, at its second half, dequantised with its own scale |
| ShardPacking.PackShards | fp8_mtp.py:117-130 | the loop is the greedy packing, and a packing |
| ShardPacking.GreedyPacks | fp8_mtp.py:117-130 | order is kept, nothing is lost, every shard fits or is a single tensor |
| ShardPacking.GreedyIsOptimal | fp8_mtp.py:117-130 | no order-preserving packing of that kind uses fewer shards |
| Checkpoint.LittleRoundTrip | fp8_mtp.py:82 | eight little-endian bytes give back the length |
| Checkpoint.LengthLimit | fp8_mtp.py:148 | eight bytes count up to 2^64 |
| Checkpoint.LayOut | fp8_mtp.py:138-144 | the header gives each name the stretch of the data where it was last written, and the format under its reserved name |
| Checkpoint.DescribesUnique | fp8_mtp.py:138-144 | the tensors determine the header |
| Checkpoint.CopyRange | fp8_mtp.py:154-159 | the streaming loop ends having copied exactly the range |
| Checkpoint.CopyEndsIff | fp8_mtp.py:158-159 | it ends exactly when the source holds all the bytes |
| Checkpoint.BlobIsAligned | fp8_mtp.py:145-146 | the padded header is a multiple of eight bytes |
| Checkpoint.WriteSafetensors | fp8_mtp.py:132-159 | a written file is length, header, data; it fails exactly when the header is too long for its length field |
| Checkpoint.HeaderReadsBack | fp8_mtp.py:80-83 | the header reads back with its data offset |
| Checkpoint.TensorReadsBack | fp8_mtp.py:80-89 | every tensor reads back as the bytes it was given; one under the reserved name does not read back |
| CheckpointRewrite.BuildOrder | fp8_mtp.py:192-202 | the output order is the source order with each new scale after its weight |
| CheckpointRewrite.OrderDistinctIff | fp8_mtp.py:192-202 | the output names are distinct exactly when the source has none of the new scales' names |
| CheckpointRewrite.ShardNamesDiffer | fp8_mtp.py:218-221 | different shards get different file names, none of them the index |
| CheckpointRewrite.ShardNameExamples | fp8_mtp.py:218-221 | shards 1 and 2 of 12, and shard 1234 of 1234 |
| CheckpointRewrite.WriteShard | fp8_mtp.py:220-225 | writing a shard leaves the earlier files as they were and points its names at it; it fails exactly when its header is too long |
| CheckpointRewrite.WriteSharded | fp8_mtp.py:215-229 | every tensor written reads back through index, header and offsets; it fails exactly when some shard's header is too long |
| CheckpointRewrite.WriteSingle | fp8_mtp.py:210-213 | the single file reads back unless the directory has an index; it fails exactly when its header is too long |
| CheckpointRewrite.StaleIndexWins | fp8_mtp.py:103-115 | beside an index a single file is not read for the names the index places elsewhere |
| CheckpointRewrite.OpenSource | fp8_mtp.py:94-115 | opening an indexed or a single-file directory places every tensor where a fresh read would; it fails exactly when one cannot be placed |
| CheckpointRewrite.OpenShards | fp8_mtp.py:105-112 | with headers remembered per file, every name of the index is placed where a fresh read of its file would |
| CheckpointRewrite.LocatedReads | fp8_mtp.py:85-115 | reading through a location is reading the directory |
| CheckpointRewrite.Gather | fp8_mtp.py:186-209 | each name gets its new bytes, or its stretch of the source; it fails exactly on a name with neither |
| CheckpointRewrite.Rewrite | fp8_mtp.py:161-229 | from opening the source to the written output: it goes through exactly when the source opens, what is copied has offsets and the headers fit; then untouched tensors read as in the source, replaced ones and their scales as the new bytes |
| CheckpointRewrite.UntouchedReads | fp8_mtp.py:161-229 | a tensor that is not replaced reads from the output as from the source |
| FragmentOrder.FromInto | radiance_mxfp4.py:109-139 | the two index maps are inverse and stay inside the buffer |
| FragmentOrder.PermuteW | radiance_mxfp4.py:109-125 | byte x of the fragment order is the checkpoint byte that the exchanged axes name |
| FragmentOrder.FragmentByte | radiance_mxfp4.py:109-125 | byte (((t*ks+k)*2+half)*16+row)*4+b of the fragment order is byte b of that half of k-step k in row 16*t+row of the checkpoint |
| FragmentOrder.UnpermuteW | radiance_mxfp4.py:128-139 | and back |
| FragmentOrder.PermuteRoundTrip | radiance_mxfp4.py:109-139 | the two orders are inverse byte permutations for all N and K divisible by 16 |
| FragmentOrder.PermuteConcat | radiance_gdnmerge.py:185-187 | permuting commutes with stacking weights of whole 16-row tiles |
| ProjectionMerge.RowRefOfCat | radiance_mxfp4.py:610-616 | row references may be computed before or after joining the scale tables |
| ProjectionMerge.RowRefIsMaximum | radiance_mxfp4.py:610-616 | a row's reference is the largest of its scales |
| ProjectionMerge.QuantisedCat | radiance_gdnmerge.py:61-83 | the merged product of one kernel is the two products side by side |
| ProjectionMerge.PlainCat | radiance_gdnmerge.py:79-83 | so is the plain one |
| ProjectionMerge.InRowsCat | radiance_gdnmerge.py:185-188 | stacking stored weights stacks the weights, in either layout |
| ProjectionMerge.GdnModule.MergeOne | radiance_gdnmerge.py:99-154 | the merge happens exactly when the pair is mergeable, folded, per-block or plain, stacks both linears' data and releases them, and otherwise changes nothing |
| ProjectionMerge.GdnModule.Forward | radiance_gdnmerge.py:57-83 | one product, by the kernel its references call for, cut at the first linear's width |
| ProjectionMerge.ServedCat | radiance_gdnmerge.py:76-83 | in either layout, the joined operands' product is the two side by side when both linears have a reference for every row, or few tokens are served |
| ProjectionMerge.MergeExactIff | radiance_mxfp4.py:374-381 | for two linears of ours that can be merged, the merge gives back both products, whatever the kernels, if and only if both run the folded path or so few tokens are served that all goes to aiter |
| ProjectionMerge.JoinedPath | radiance_mxfp4.py:374-381 | a join with a linear of two references has neither one per row nor two, and goes to aiter |
| ProjectionMerge.PerBlockMergeChanges | radiance_mxfp4.py:782-808 | two linears of 16 rows forced onto the per-block path, which merging changes |
| ProjectionMerge.GdnModule.MergeThenForward | radiance_gdnmerge.py:48-154 | merge, then run: the outputs are the joined product cut in two, and each is what its own linear gave if the two are plain, both run the folded path, or few tokens are served |
| TiledRegistry.Registry.Take | radiance_mxfp4.py:52-58 | taking removes the entry and answers tiled, row-major, or a shape error |
| TiledRegistry.TableMeans | radiance_mxfp4.py:34-58 | an address is on the table exactly when its last tiled filling has not been read |
| TiledRegistry.RightIff | radiance_mxfp4.py:34-58 | in every history a GEMM reads its activation in the right layout exactly when tiled activations are read once, in their shape, and none is left unread when its address is filled row-major and read |
| TiledRegistry.Run | radiance_mxfp4.py:48-58 | running a history against the table gives those readings |
| KvGroupSize.EvenSplit | patch_kv_group_size.py:99-100 | cutting a bucket evenly into the groups size g gives makes groups of at most g, and any size in between gives as many |
| KvGroupSize.EffectiveIsCanonical | patch_kv_group_size.py:99-102 | a size that is not its own largest group has a smaller size with the same splits that is |
| KvGroupSize.NonCanonicalIsWorse | patch_kv_group_size.py:101-102 | and is strictly worse than it when a request costs anything |
| KvGroupSize.Search | patch_kv_group_size.py:97-109 | the loop finds a size no size of any kind within the limit beats, and nothing only if none is within it |
| KvGroupSize.OptimalUnique | patch_kv_group_size.py:106-109 | all optimal sizes cost the same |
| KvGroupSize.Measure | patch_kv_group_size.py:99-107 | groups, blocks and largest group of a size, counted bucket by bucket |
| KvGroupSize.MeasureCosts | patch_kv_group_size.py:84-92 | the largest page and the blocks each bucket needs, counted spec by spec |
| KvGroupSize.PickGroupSize | patch_kv_group_size.py:71-121 | the choice in every case: left alone, forced, no configuration, no costs, no allowed size, or optimal and equal to the largest group it leads to |
| DynWidth.EmaAlwaysInRange | patch_dynwidth.py:70-79 | over any history the average lies in [0, D + 1] |
| DynWidth.RoundClimbs | patch_dynwidth.py:70-99 | a fully accepted round below full width lifts the average by at least ALPHA * (MARGIN + 1) |
| DynWidth.Recovers | patch_dynwidth.py:70-99 | after ceil(D / (ALPHA * (MARGIN + 1))) fully accepted rounds a request is at full width again, whether or not the cap applied in them |
| DynWidth.StuckAtZero | patch_dynwidth.py:82-99 | without margin and floor a request at average 0 never recovers |
| DynWidth.StuckBelowFull | patch_dynwidth.py:82-99 | with a margin of -1 an average of exactly the full width stays where it is, one row short, however many rounds are fully accepted |
| DynWidth.RecoversIff | patch_dynwidth.py:82-99 | for every integer margin and floor, full width is certain after some number of fully accepted rounds if and only if the floor is the full width, or the margin is at least 1, or it is 0 and the floor at least 1 |
| DynWidth.ShippedKnobsRecover | patch_dynwidth.py:63-67 | with the shipped knobs a request offered eight drafts is back at full width after eight fully accepted rounds |
| DynWidth.Scheduler.Observe | patch_dynwidth.py:70-79 | what one observation does to the average |
| DynWidth.CutAtMeans | patch_dynwidth.py:98-99 | a list cut at w keeps its first w drafts, or for a negative w all but the last -w |
| DynWidth.Scheduler.CapSpecWidth | patch_dynwidth.py:82-99 | the list is trimmed in place to a prefix of min(len, max(MIN, ceil(EMA) + MARGIN)); a negative width counts from the end |
| DynWidth.Scheduler.UpdateDraftTokenIds | patch_dynwidth.py:48-53 | a request's own list is set, then capped |
| DynWidth.Scheduler.UpdateAfterSchedule | patch_async_dynwidth.py:20-27 | the shared placeholder list is never changed, and each request keeps its own prefix of it |

## Left out

- Floating-point rounding, bf16 and fp8 accumulation order, e4m3 not-a-number bytes, and numbers that fit a float only approximately: arithmetic is exact.
- `LogSumExp.MostProbable`: strictly more probable than the entries before it only for an exponential with E(1) > 1, from which strict growth is derived; the laws themselves ask only that it does not fall.
- The lane registers of the matrix instruction: it is modelled as eight dot products on the staged bytes.
- The measurement hooks (`ABLATE`) and the decode kernel's other loop order, which no launcher instantiates.
- Threads between two barriers of the staging and compute phases run one after the other; only the split-K tail interleaves them. The output matrix is a two-dimensional array there.
- Environment overrides of the launch routing (`RADIANCE_AR_DECODE_KS` and the like): the default rules are modelled, thresholds are parameters.
- The bodies of libr4d kernels and of the GEMM and all-reduce the Python wrappers call: they are not part of this model and appear as arbitrary functions.
- The draft controller's paths when sampling is local to vLLM and when an exception falls back to stock drafting; reuse of a request id.
- `radiance_arnq.py`'s branches for `layer_scale` and sequence-parallel layers: such layers are given the patched forward, which lacks both branches, so the results are stated for stacks without them.
- `radiance_mxfp4.py` with `RADIANCE_MXFP4_W4A8_MIN_M` above 0 (its default is 256): stock calls of few rows then go to aiter, which pairs never do. The fp8 stream's results are stated for values of at most 0. Also `RADIANCE_MXFP4_HOIST_QUANT`, off by default, with which even the stock run hands pairs to linears that cannot take them, and the merged projection to the folded kernel whatever its references.
- Pipeline parallelism, auxiliary hidden states and the single-rank switch of the fp8 stream: with them installation does nothing.
- The decode GEMM configuration of `radiance_mxfp4.py`, and which calls of the stack produce and read tiled activations.
- `Overlap.EveryScheduleCorrect`: assumes an exact all-reduce per element and a row-wise GEMM; the 6-bit all-reduce quantises per call, so slicing moves its block boundaries.
- What the allocator does with buffers outgrown in `radiance_aroverlap.py`: all calls' buffers are placed at the same addresses, the worst case.
- The name forms of escha shard ids, the configuration lookups, and which device a tensor is on.
- The `bias` an escha layer adds, the `escha_config` tensors it keeps unread, and its conversions between float types.
- JSON text: printing and parsing are any pair where parsing undoes printing, trailing blanks included. The order in which a parsed object lists its keys is a parameter of the rewrite.
- The requantisation arithmetic of `fp8_mtp.py`: the new tensors' bytes are given, so the stop on a draft-head weight the source lacks is not modelled. The source directory is a snapshot: rewriting a directory onto itself is outside the model.
- The `metadata` entry of a checkpoint's index, the configuration and tokenizer files beside it.
- Request scheduling around the width cap, and grammar validation of draft tokens.
- The text patching of vLLM's files, logging, tracing, checking modes, graph capture, and memory allocation failures.
- Request counts, token ids and sizes are unbounded integers, except for the matcher's packed key, which is shown to stay below 2^31.
