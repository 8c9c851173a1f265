# Verified models of the miinfer benchmark kernels

This project models three computations that the programs under `bench/` write out in full, and proves
what they are for.

**Gated DeltaNet.** The oracle runs a linear recurrence on a state matrix a head in two ways: one token
at a time, and a chunk at a time through a triangular system that is inverted by in-place forward
substitution. `GdnOracle.Compare` proves that both leave equal states and equal outputs for every head
count, state size, token count, initial state, positive decays and every chunk length dividing the
token count. `GdnRecurrence` is the recurrence for one state column, `TriangularSystem` and `GdnChunk` say why
a chunk computes it, and `ForwardSubstitution`, `GdnBuild`, `GdnSolve`, `GdnEmit`, `GdnChunkwise` and
`GdnRecurrent` are the loops. `GdnSplitCalls` proves that a sequence may be cut into calls,
`GdnRepack` that the head-major to token-major repack is a transposition that the recurrence cannot notice.
`GdnFlat` writes the recurrence out a second time, entry by entry on the flat buffers with the source's index
expressions, and proves that both kernels compute exactly that.

**Split-K attention.** Work items over (head, token, split) keep a running maximum, a rescaled sum and
a rescaled accumulator; a second stage merges the splits. `Softmax`, `OnlineSoftmax`, `MergeAlgebra`
and `TileSoftmax` are the algebra, `Butterfly`, `WaveDot` and `Wave64` the lane reductions, and each
`Stage1...` module holds kernels that are proved to fill their slots with the exact state of their
share. `SplitK.Compare` puts everything together: eleven kernels, any order of workgroups, any number
of splits, then the looping stage 2, row by row against the one-pass reference kernel.
`SplitKLanes.CompareLanes` does the same for the stage 2 that is limited to 64 lanes. The kernels that stage
rows in LDS are barrier programs (`BarrierMachine`, `LdsPipeline`): race freedom is proved phase by
phase, a race-free program is proved deterministic over all interleavings, and the loaded rows are
proved to be exactly the split, in order. `AttentionFlat` writes attention out on the flat buffers and proves that
slots and output rows hold it at the source's addresses, and that it depends on no other cell.

**K-quants.** `KQuant` holds the decoders of Q4_K, Q5_K and Q6_K blocks, `KExpand` the expanded Q4_K
layout, `KLossless` that decoding loses nothing, `Q8Activation` the quantisation of activations, and
`QuantDot` and `QuantError` the factored integer product, what it equals and how far it can be from
the exact product, and `QuantFlat` both on the flat buffers, column by column.

State that the programs rewrite in place is an `array` here, changed by methods with loops
and invariants; a kernel's private registers are local variables. Read-only buffers are sequences.

## What does not hold

The stage 2 of `bench/suffix_attention_bakeoff.cpp` reduces maximum and denominator over 64 lanes, one
split a lane, but sums the values of all splits. With more than 64 splits its result is the right one
times the weight of all positions over the weight of the positions whose splits own a lane.
`SplitKLanes.KernelLaneLimit` proves, for every stage-1 kernel, that it is right for every value cache
exactly when 64 of the chunks that kernel cuts cover the token's causal length. The table of that
program runs it with 96 to 256 splits (lines 2084 to 2087); `SplitKLanes.ProgramLaunchFails` proves that
every row of those runs is wrong for some value cache. The rows with 384 and 512 splits exceed the
workspace, allocated for 256 (line 2026), before the lane limit matters.

A workgroup of stage 1 returns without writing when its longest causal length exceeds the cache, and
stage 2, which knows no capacity, then merges what the workspace held. So a query-tiled kernel fails a
token that fits when a later token of its block does not, and every kernel, query-tiled or not, lets
stage 2 overwrite rows of tokens that do not fit, which the reference kernel leaves alone.
`CacheLimit.RowIsRight` proves that a row is the reference kernel's from every initial workspace and
output exactly when the longest causal length of its workgroup fits the cache, `CacheLimit.LaunchIsRight`
that all rows are exactly when the launch fits, and `CacheLimit.BlockBeyondCache` gives a launch that fails.
`SplitKLanes.LanesRowIsRight` is the same for the lane-limited stage 2, both conditions together.

## What is assumed

`exp` is any function with exp(0) = 1 and exp(a + b) = exp(a) exp(b); positivity follows. Only
`Attention.SumAtMostCount` also needs exp(x) <= 1 for x <= 0. `log` is any function that exp inverts
on the decays that occur. `-INFINITY` is a case of its own. Head counts, head dimension, split counts,
unroll factors, tile sizes and wave geometry are parameters, related only as the launch code relates them.

## Model

| member | source | states |
|---|---|---|
| `Layout.AtInjective` | bench/m12_gdn_oracle.cpp:20-22 | addresses of two cells coincide only for equal row and column |
| `Layout.AtSurjective` | bench/m12_gdn_oracle.cpp:20-22 | every address of a buffer is the address of some row and column |
| `GdnRecurrence.RunSplits` | bench/m12_gdn_oracle.cpp:42-63 | running m tokens and then n from the carried column is running m + n |
| `GdnRecurrence.EmitSplits` | bench/m12_gdn_oracle.cpp:64-70 | a later token emits the same output from the carried column |
| `GdnRecurrence.StateClosedForm` | bench/m12_gdn_oracle.cpp:52-63 | each state entry after r tokens is the decayed initial entry plus the sum over earlier tokens of decayed key times delta |
| `GdnRecurrence.ProjectionClosedForm` | bench/m12_gdn_oracle.cpp:53-58 | the inner product of any vector with the state after r tokens has the same closed form |
| `GdnProblem.RecurredIsUnique` | bench/m12_gdn_oracle.cpp:38-73 | the recurrence fixes every cell of both result buffers |
| `GdnProblem.OutputAddress` | bench/m12_gdn_oracle.cpp:64-67 | dimension dim of a token and head lies at (head * tokens + token) * size + dim of the output |
| `GdnFlat.EntriesAre` | bench/m12_gdn_oracle.cpp:52-63 | each state entry after n tokens is the decayed entry plus key entry times gated correction, every factor read from the flat buffers at the source's index |
| `GdnFlat.OutputIsCell` | bench/m12_gdn_oracle.cpp:64-70 | each output is the sum of state entries times query entries, scaled, again on the flat buffers |
| `GdnFlat.RecurredIsComputed` | bench/m12_gdn_oracle.cpp:38-73 | state entry [row, dim] and output [token, dim] of every head sit at the source's addresses and hold that flat recurrence |
| `GdnFlat.ComputedIsRecurred` | bench/m12_gdn_oracle.cpp:38-73 | no other buffers satisfy the column-by-column statement |
| `GdnRecurrent.StepColumn` | bench/m12_gdn_oracle.cpp:52-63 | decay, read with the key and rank-one write change one column exactly as one step of the recurrence, no other cell |
| `GdnRecurrent.StepHead` | bench/m12_gdn_oracle.cpp:43-63 | all columns of one head take one step; nothing outside the head changes |
| `GdnRecurrent.EmitHead` | bench/m12_gdn_oracle.cpp:64-70 | output[(head * tokens + token) * size + dim] is the scaled reading of state column dim with the query; no other output cell changes |
| `GdnRecurrent.Recurrent` | bench/m12_gdn_oracle.cpp:38-73 | the whole kernel leaves state and output determined by the recurrence, and cell for cell by the flat definition, key heads shared modulo |
| `GdnDecay.ExpOfSum` | bench/m12_gdn_oracle.cpp:96-97 | exp of the cumulative logarithm is the product of the decays |
| `GdnDecay.ExpOfDifference` | bench/m12_gdn_oracle.cpp:99-99 | exp of a difference of cumulative logarithms is the product of the decays in between |
| `TriangularSystem.SolutionIsUnique` | bench/m12_gdn_oracle.cpp:126-148 | a unit lower triangular system has one solution |
| `TriangularSystem.InverseSolves` | bench/m12_gdn_oracle.cpp:136-148 | applying the right inverse to a right-hand side solves the system |
| `TriangularSystem.PrefixSuffices` | bench/m12_gdn_oracle.cpp:139-139 | summing only source <= row loses nothing, the inverse being lower triangular |
| `ForwardSubstitution.EliminateStep` | bench/m12_gdn_oracle.cpp:128-133 | subtracting one finished row keeps the partial row equation |
| `ForwardSubstitution.ForwardSubstitute` | bench/m12_gdn_oracle.cpp:126-134 | in place, the matrix becomes unit lower triangular and a right inverse of I + strict_lower(system) |
| `GdnBuild.PairRow` | bench/m12_gdn_oracle.cpp:98-113 | system and intra entries of a row are the decay-weighted key and query products |
| `GdnBuild.KeyValueRow` | bench/m12_gdn_oracle.cpp:114-121 | decayed keys and gated values of a row |
| `GdnBuild.BuildChunk` | bench/m12_gdn_oracle.cpp:87-124 | the built matrices are the chunk system of the token stream, inverse starts as the identity |
| `GdnSolve.SolveChunk` | bench/m12_gdn_oracle.cpp:136-148 | every row of the solved values and keys is the combination of the right-hand sides with the inverse's entries up to the diagonal |
| `GdnSolve.CorrectChunk` | bench/m12_gdn_oracle.cpp:150-162 | corrected values are solved values less the solved keys' reading of the incoming state |
| `GdnChunk.DeltasSolve` | bench/m12_gdn_oracle.cpp:52-63 | the deltas of the token recurrence satisfy the chunk system |
| `GdnChunk.CorrectedIsDelta` | bench/m12_gdn_oracle.cpp:136-162 | so the corrected values, computed from the incoming state only, are exactly those deltas |
| `GdnChunk.OutputIsEmit` | bench/m12_gdn_oracle.cpp:164-181 | inter plus intra part of a row is what the recurrence emits for that token |
| `GdnChunk.UpdateIsRun` | bench/m12_gdn_oracle.cpp:182-193 | decaying the state once and adding the weighted corrections is running the whole chunk |
| `GdnCorrections.CorrectedAreDeltas` | bench/m12_gdn_oracle.cpp:136-162 | the same for the matrices the loops built, every value dimension at once |
| `GdnEmit.EmitChunkCell` | bench/m12_gdn_oracle.cpp:169-179 | the cell at (head * tokens + start + row) * size + dim becomes what the recurrence emits; no other cell changes |
| `GdnEmit.UpdateCell` | bench/m12_gdn_oracle.cpp:184-191 | one state cell as the loops update it |
| `GdnChunkwise.PrepareChunk` | bench/m12_gdn_oracle.cpp:87-162 | build, invert, solve and correct one chunk of one head |
| `GdnChunkwise.EmitChunk` | bench/m12_gdn_oracle.cpp:164-181 | all outputs of the chunk at their addresses in the flat output, no other output cell |
| `GdnChunkwise.UpdateChunk` | bench/m12_gdn_oracle.cpp:182-193 | the head's state slice after the chunk, no other state cell |
| `GdnChunkwise.Chunkwise` | bench/m12_gdn_oracle.cpp:75-196 | for every size, head count, and chunk length dividing the token count: final state and output are those of the token recurrence, and cell for cell those of the flat definition |
| `GdnOracle.Compare` | bench/m12_gdn_oracle.cpp:220-252 | both kernels from copies of one state end with equal states and equal outputs, cell for cell, and they are those of the flat definition |
| `GdnOracle.ChunkLengthIsIrrelevant` | bench/m12_gdn_oracle.cpp:80-195 | two chunk lengths that divide the token count give the same buffers |
| `GdnSplitCalls.SplitCallsAgree` | bench/m12_gdn_oracle.cpp:38-73 | two calls, the second from the first one's state, leave the state and outputs of one call over all tokens |
| `GdnRepack.Repack` | bench/m12_gdn_chunk_bench.cpp:165-187 | cell [head][token][d] of the head-major buffer ends in cell [token][head][d] of the other, addresses written out, each cell written once |
| `GdnRepack.RepackProblem` | bench/m12_gdn_chunk_bench.cpp:165-187 | query, key, value, beta and decay are all repacked |
| `GdnRepack.RepackRoundTrip` | bench/m12_gdn_chunk_bench.cpp:165-187 | repacking back restores the buffer |
| `GdnRepack.PackedTokenIsToken` | bench/m12_gdn_chunk_bench.cpp:92-127 | every head reads the same token from either layout |
| `GdnRepack.RepackedRecurrence` | bench/m12_gdn_chunk_bench.cpp:92-127 | the recurrence over the repacked buffers and the recurrence over the originals allow the same final states and outputs, no others |
| `Butterfly.PartnerIsXor` | bench/suffix_attention_bakeoff.cpp:82-96 | the partner lane the reductions use is lane XOR offset, for every offset of the loops |
| `Butterfly.DescendReduces` | bench/suffix_attention_bakeoff.cpp:82-96 | after offsets 2^(k-1) down to 1 every lane of a block holds the whole block combined |
| `Butterfly.Reduce` | bench/suffix_attention_bakeoff.cpp:1418-1421 | for any 2^k lanes and any number of sub-waves the shuffle loop gives each sub-wave its own total |
| `Butterfly.ReduceQuads` | bench/suffix_attention_bakeoff.cpp:1085-1087 | offsets 1 then 2 give each group of four lanes its own total |
| `Butterfly.TreeIsFold` | bench/suffix_attention_bakeoff.cpp:82-96 | combining pairwise is combining one after the other |
| `Butterfly.AllReduce` | bench/suffix_attention_bakeoff.cpp:82-96 | over a whole wave every lane ends with all lanes combined |
| `Wave64.WaveMax` | bench/suffix_attention_bakeoff.cpp:90-96 | d_wave_max returns the maximum of 64 lanes |
| `Wave64.WaveSum` | bench/suffix_attention_bakeoff.cpp:82-88 | d_wave_sum returns the sum of 64 lanes |
| `WaveDot.LanesCover` | bench/suffix_attention_bakeoff.cpp:158-165 | the lanes' slices cover the vectors exactly once |
| `WaveDot.WaveDots` | bench/suffix_attention_bakeoff.cpp:158-165 | the reduced lane products are the inner product of query and key, per sub-wave |
| `Softmax.MaxScoreIsMax` | bench/suffix_attention_bakeoff.cpp:158-191 | the running maximum bounds all scores seen and is one of them |
| `Softmax.ShiftSum` | bench/suffix_attention_bakeoff.cpp:168-191 | moving the reference maximum rescales the weight sum by one factor |
| `Softmax.ShiftAcc` | bench/suffix_attention_bakeoff.cpp:168-191 | ... and the accumulated values by the same factor |
| `OnlineSoftmax.PushSummary` | bench/suffix_attention_bakeoff.cpp:168-191 | one branchy update extends the exact state of a range by one position |
| `OnlineSoftmax.BranchlessIsPush` | bench/suffix_attention_bakeoff.cpp:274-287 | the branchless update is the branchy one |
| `OnlineSoftmax.MergeSummaries` | bench/suffix_attention_bakeoff.cpp:892-931 | merging the states of adjacent ranges gives the state of their union |
| `MergeAlgebra.MergeCommutes` | bench/suffix_attention_bakeoff.cpp:892-931 | merging commutes |
| `MergeAlgebra.MergeAssociates` | bench/suffix_attention_bakeoff.cpp:892-931 | merging associates, empty splits included |
| `MergeAlgebra.MergeIdentity` | bench/suffix_attention_bakeoff.cpp:892-931 | the empty split is the identity |
| `MergeAlgebra.MergeOrderIrrelevant` | bench/suffix_attention_bakeoff.cpp:892-931 | merging many parts gives the same state in any order |
| `TileSoftmax.TileMerges` | bench/suffix_attention_bakeoff.cpp:660-693 | a tile reduced at its own maximum and folded in with alpha and beta extends the exact state by the tile |
| `TileSoftmax.TileRescales` | bench/suffix_attention_bakeoff.cpp:1100-1142 | a tile weighed directly at the new maximum does the same |
| `Attention.SumAtLeastOne` | bench/suffix_attention_halfwave_multitoken.cpp:104-115 | after one position or more the running sum is at least 1, so the zero-denominator fallback is never taken |
| `Attention.SumAtMostCount` | bench/suffix_attention_halfwave_multitoken.cpp:104-115 | ... and at most the number of positions |
| `Attention.NormalisedIsMean` | bench/suffix_attention_halfwave_multitoken.cpp:127-129 | accumulator over sum is sum exp(s)v / sum exp(s), without any maximum |
| `Attention.MeanIsBetween` | bench/suffix_attention_halfwave_multitoken.cpp:127-129 | each ungated coordinate lies between the bounds of that coordinate of V |
| `Attention.AttendIsBetween` | bench/suffix_attention_halfwave_multitoken.cpp:127-129 | the same over a token's causal prefix |
| `Attention.ReciprocalInverts` | bench/suffix_attention_halfwave_multitoken.cpp:127-127 | inv_sum times a positive sum is 1; it is 0 for any other sum |
| `Attention.SigmoidOdds` | bench/suffix_attention_halfwave_multitoken.cpp:131-136 | the gate y at x satisfies y = (1 - y) exp(x), which fixes it |
| `Attention.CellIsGated` | bench/suffix_attention_halfwave_multitoken.cpp:131-136 | a gated cell y of value x satisfies y = (x - y) exp(g), g being the gate's cell (token * heads + head) * dim + d; without a gate y = x |
| `Attention.StoreRow` | bench/suffix_attention_halfwave_multitoken.cpp:127-139 | the same of every stored cell, at that address of the output; no cell outside the row changes |
| `AttentionFlat.QueryRowAt` | bench/suffix_attention_halfwave_multitoken.cpp:77-79 | entry d of a query row is cell (token * heads + head) * dim + d of the query buffer |
| `AttentionFlat.CachedRowAt` | bench/suffix_attention_halfwave_multitoken.cpp:85-89 | entry d of a cached row is cell (kv * capacity + pos) * dim + d of the key or value cache |
| `AttentionFlat.ScoreIsFlat` | bench/suffix_attention_halfwave_multitoken.cpp:92-101 | the score is the scaled sum of products of those cells, kv being head / (heads / kvHeads) |
| `AttentionFlat.ExactIsFlat` | bench/suffix_attention_halfwave_multitoken.cpp:104-125 | the exact state of a range: its maximum is the largest flat score, sum and accumulator are the sums of exp(score - max) and of exp(score - max) times value cells |
| `AttentionFlat.ItemIsFlat` | bench/suffix_attention_halfwave_multitoken.cpp:262-264 | a split's exact state is that of positions [split * chunk, min((split + 1) * chunk, base + token + 1)), or the empty state |
| `AttentionFlat.SlotAt` | bench/suffix_attention_halfwave_multitoken.cpp:266-267 | a slot is cell (split * tokens + token) * heads + head of maximum and sum, and that row of the accumulators |
| `AttentionFlat.DoneSlotIsComputed` | bench/suffix_attention_bakeoff.cpp:193-198 | the two together: what every stage-1 contract promises, at the source's addresses |
| `AttentionFlat.AttendIsFlat` | bench/suffix_attention_halfwave_multitoken.cpp:91-129 | attention is sum exp(score) value / sum exp(score) over the positions up to base + token, on the flat buffers |
| `AttentionFlat.DoneIsComputed` | bench/suffix_attention_halfwave_multitoken.cpp:77-139 | so every output cell is that average under its gate cell |
| `AttentionFlat.AttendIsLocal` | bench/suffix_attention_halfwave_multitoken.cpp:73-91 | attention depends only on the token's and head's own query cells and on the kv head's cache cells up to the token's position |
| `AttentionFlat.OtherQueryCell` | bench/suffix_attention_halfwave_multitoken.cpp:77-79 | overwriting any other query cell leaves it unchanged |
| `AttentionProblem.ChunkCovers` | bench/suffix_attention_halfwave_multitoken.cpp:262-264 | num_splits chunks of ceil(length / num_splits) reach exactly the length |
| `AttentionProblem.ChunkIsLeast` | bench/suffix_attention_halfwave_multitoken.cpp:262-262 | ceil(length / num_splits) is the least chunk size whose num_splits chunks reach the length |
| `AttentionProblem.SplitsDisjoint` | bench/suffix_attention_halfwave_multitoken.cpp:262-264 | two splits never share a position |
| `AttentionProblem.SlotInjective` | bench/suffix_attention_halfwave_multitoken.cpp:266-267 | (split, token, head) determines its slot and the other way round |
| `AttentionProblem.ExactNext` | bench/suffix_attention_halfwave_multitoken.cpp:338-362 | one more cached position extends the exact state of a (token, head) |
| `Stage1.StoreSlot` | bench/suffix_attention_bakeoff.cpp:193-198 | the three partial buffers hold the result in the slot; no other slot changes |
| `Stage1.ItemRange` | bench/suffix_attention_bakeoff.cpp:130-145 | k_start and k_end are the split's share; a split beyond the causal length is empty |
| `Stage1Direct.OneWave` | bench/suffix_attention_bakeoff.cpp:103-199 | candidate A fills its slot with the exact state of its split, also at the source's addresses, and touches no other slot |
| `Stage1Direct.Fast` | bench/suffix_attention_bakeoff.cpp:205-296 | the same for the branchless candidate |
| `Stage1Tile64.Tile` | bench/suffix_attention_bakeoff.cpp:635-695 | one 64-position tile, reduced across lanes, extends the exact state |
| `Stage1Tile64.Blocked` | bench/suffix_attention_bakeoff.cpp:572-703 | candidate D fills its slot exactly |
| `Stage1HalfWave.Consume` | bench/v2_0017_hierarchical_gqa_bakeoff.cpp:338-367 | the update loop over a staged group of positions |
| `Stage1HalfWave.Unrolled` | bench/v2_0017_hierarchical_gqa_bakeoff.cpp:235-424 | candidate J: for every unroll factor, main loop and remainder fill both heads' slots exactly |
| `Stage1Streams.ScaledQueryScores` | bench/suffix_attention_halfwave_multitoken.cpp:285-287 | scaling the query in advance gives the scaled inner product |
| `Stage1Streams.Ultrafast` | bench/suffix_attention_halfwave_multitoken.cpp:229-415 | the pre-scaled kernel fills both slots exactly |
| `Stage1Streams.RowsAhead` | bench/v2_0017_pipelined_stream_bakeoff.cpp:301-314 | a pointer moved by n rows is the address of n positions further |
| `Stage1Streams.Advance` | bench/v2_0017_pipelined_stream_bakeoff.cpp:369-370 | both pointers stand on the loop's position after every increment |
| `Stage1Streams.Streamed` | bench/v2_0017_pipelined_stream_bakeoff.cpp:237-428 | the pointer-incremented kernel visits its split once, in order, and fills both slots exactly |
| `QueryBlocks.SeenNext` | bench/suffix_attention_bakeoff.cpp:514-518 | a position beyond a token's causal length changes nothing, a visible one is pushed |
| `QueryBlocks.SeenIsItem` | bench/suffix_attention_bakeoff.cpp:468-473 | cutting from the block's longest length leaves each token its own share, also when the split lies beyond its prefix |
| `QueryBlocks.LongerChunkCovers` | bench/suffix_attention_bakeoff.cpp:468-473 | splits cut from a longer length cover a shorter one |
| `QueryBlocks.FinishBlock` | bench/suffix_attention_bakeoff.cpp:550-564 | one store a token, the last partly filled block included; no slot of another block changes |
| `Stage1Queries.QueryTiled` | bench/suffix_attention_bakeoff.cpp:440-565 | candidate C fills the slots of all its tokens exactly |
| `Stage1Queries.RegisterBlocked` | bench/suffix_attention_bakeoff.cpp:1170-1334 | candidate H does, with positions and scores in blocks |
| `Stage1Queries.MultiQuery` | bench/suffix_attention_bakeoff.cpp:1678-1976 | the multi-query kernel does, with unrolled loop and tail |
| `Stage1Flash.LoadTile` | bench/suffix_attention_bakeoff.cpp:1035-1055 | 64 lanes striding over the tile load every cell, zero beyond the split |
| `Stage1Flash.QuadDots` | bench/suffix_attention_bakeoff.cpp:1059-1087 | four lanes a query give every query its inner product |
| `Stage1Flash.FlashUpdate` | bench/suffix_attention_bakeoff.cpp:1093-1142 | one masked tile extends a token's exact state; an all-masked tile leaves it |
| `Stage1Flash.Flash` | bench/suffix_attention_bakeoff.cpp:955-1160 | candidate G fills the slots of its tokens exactly, splits cut from the launch's longest length |
| `BarrierMachine.ReachableAgrees` | bench/v2_0017_hierarchical_gqa_bakeoff.cpp:709-851 | in every reachable state of a race-free barrier program each thread has loaded what it would load running alone |
| `BarrierMachine.EveryRunEndsAlike` | bench/v2_0017_hierarchical_gqa_bakeoff.cpp:709-851 | all interleavings end with the same memory and the same loaded values |
| `BarrierMachine.EveryRunCanFinish` | bench/v2_0017_hierarchical_gqa_bakeoff.cpp:709-851 | no interleaving gets stuck, and all take the same number of steps |
| `BarrierMachine.Execute` | bench/v2_0017_hierarchical_gqa_bakeoff.cpp:709-851 | a run whose next thread is left open at every step is one of those interleavings |
| `LdsPipeline.WorkIsRaceFree` | bench/v2_0017_hierarchical_gqa_bakeoff.cpp:724-797 | between two barriers no thread touches a cell another thread writes, when the two buffers differ |
| `LdsPipeline.PingPongIsSound` | bench/v2_0017_hierarchical_gqa_bakeoff.cpp:709-851 | this holds for every phase of prefetch, main loop and remainder |
| `LdsPipeline.SingleBufferedIsSound` | bench/v2_0017_hierarchical_gqa_bakeoff.cpp:505-624 | and for the single-buffered candidate |
| `LdsPipeline.BufferAtEntry` | bench/v2_0017_hierarchical_gqa_bakeoff.cpp:712-728 | at every main-loop entry, in every interleaving, the current buffer holds K and V of exactly the next UNROLL positions |
| `LdsPipeline.PingPongDelivers` | bench/v2_0017_hierarchical_gqa_bakeoff.cpp:709-851 | every thread loads its lane of each position of [k_start, k_end) exactly once, in order |
| `LdsPipeline.SingleBufferedDelivers` | bench/v2_0017_hierarchical_gqa_bakeoff.cpp:505-624 | the same with one buffer |
| `Stage1Group.GatherRow` | bench/v2_0017_hierarchical_gqa_bakeoff.cpp:740-748 | a sub-wave's lanes together hold the cached row |
| `Stage1Group.GroupItem` | bench/v2_0017_hierarchical_gqa_bakeoff.cpp:435-860 | for every interleaving and any initial LDS the workgroup fills the slots of all its heads exactly |
| `Launches.RunItem` | bench/v2_0017_hierarchical_gqa_bakeoff.cpp:236-860 | any of the kernels finishes its own slots when its tokens fit the cache, and changes no other slot |
| `Launches.ReachIs` | bench/suffix_attention_bakeoff.cpp:468-469 | a workgroup's longest causal length: base plus the end of its token block, cut at the launch; for flash the launch's |
| `Launches.FinishedIsComputed` | bench/suffix_attention_bakeoff.cpp:193-198 | whichever kernel ran, a finished slot holds the flat state of its positions at its address |
| `Launches.Stage1All` | bench/v2_0017_hierarchical_gqa_bakeoff.cpp:236-860 | a launch of any kernel, in any order of the workgroups, leaves every slot exact where the workgroup fits the cache and as it was elsewhere |
| `Stage2.SplitStride` | bench/suffix_attention_halfwave_multitoken.cpp:165-166 | stage 2 addresses the slot that stage 1 wrote |
| `Stage2.GlobalMax` | bench/suffix_attention_halfwave_multitoken.cpp:163-172 | the first pass finds the maximum over all splits |
| `Stage2.GlobalSum` | bench/suffix_attention_halfwave_multitoken.cpp:174-185 | the second pass is the rescaled sum over splits with positions |
| `Stage2.MergeSplits` | bench/suffix_attention_halfwave_multitoken.cpp:143-224 | the output row is the merge of the slots under the gate cells, at the source's addresses; no other cell changes |
| `SplitMerge.LoopMergeIsMergeAll` | bench/suffix_attention_halfwave_multitoken.cpp:162-212 | the looping merge is the n-ary merge, normalised |
| `SplitMerge.AnyDivisionAnyOrder` | bench/suffix_attention_halfwave_multitoken.cpp:162-212 | any division of the positions, its parts in any order, merges to the exact mean |
| `Stage2.PiecesMergeToAttention` | bench/suffix_attention_halfwave_multitoken.cpp:162-212 | pieces of the causal prefix merge to attention, for any chunk size that covers it |
| `Stage2.SplitsMergeToAttention` | bench/suffix_attention_halfwave_multitoken.cpp:162-212 | so do the finished slots |
| `Stage2.DenominatorAtLeastOne` | bench/suffix_attention_halfwave_multitoken.cpp:174-209 | over finished slots the merged maximum is a number and the merged denominator at least 1 |
| `SplitK.OnePass` | bench/suffix_attention_halfwave_multitoken.cpp:53-140 | the reference kernel writes gated attention, every cell of it the flat average under its gate cell, or nothing when the token does not fit the cache |
| `SplitK.ReferenceAll` | bench/v2_0017_hierarchical_gqa_bakeoff.cpp:55-142 | the reference kernel over its grid: gated attention in the rows of tokens that fit the cache, cell for cell the flat one, the other rows as they were |
| `SplitK.Stage2All` | bench/v2_0017_hierarchical_gqa_bakeoff.cpp:147-230 | stage 2 over its grid and over any workspace: every row is the gated merge of its slots |
| `OutputRows.RowsAreAll` | bench/suffix_attention_halfwave_multitoken.cpp:53-224 | the rows are the whole output |
| `SplitK.StagedRowFits` | bench/suffix_attention_halfwave_multitoken.cpp:143-415 | where the longest causal length of its workgroup fits the cache, the row both stages leave is the reference kernel's |
| `SplitK.Staged` | bench/suffix_attention_halfwave_multitoken.cpp:143-415 | stage 1 by any kernel in any order, then stage 2: every row, also of tokens that exceed the cache |
| `SplitK.Compare` | bench/suffix_attention_halfwave_multitoken.cpp:53-415 | for every launch and num_splits >= 1, each row whose workgroup fits the cache equals the reference kernel's and is the flat gated average; when the launch fits, the outputs are equal |
| `CacheLimit.StaleRow` | bench/suffix_attention_halfwave_multitoken.cpp:162-212 | slots that stage 1 never wrote can make stage 2 write any row at all |
| `CacheLimit.RowIsRight` | bench/suffix_attention_bakeoff.cpp:468-469 | a row equals the reference kernel's from every initial workspace and output if and only if the longest causal length of its workgroup fits the cache |
| `CacheLimit.LaunchIsRight` | bench/suffix_attention_halfwave_multitoken.cpp:143-224 | all rows do if and only if the launch fits the cache |
| `CacheLimit.BlockBeyondCache` | bench/suffix_attention_bakeoff.cpp:440-469 | a launch on the program's geometry where the first token fits, its block does not, and some workspace leaves a wrong row, while the one-token kernel is always right |
| `Stage2Lanes.LaneMergeInflates` | bench/suffix_attention_bakeoff.cpp:892-931 | maximum and denominator over 64 lanes, values over all splits: the exact mean times the inflation of the reached positions |
| `Stage2Lanes.InflationIsOne` | bench/suffix_attention_bakeoff.cpp:892-911 | the inflation is at least 1, and 1 exactly when every position is reached |
| `Stage2Lanes.LaneOutputIsRight` | bench/suffix_attention_bakeoff.cpp:892-931 | for one input, and chunks of any size that covers the causal length, the output is right if and only if 64 chunks cover it or attention vanishes |
| `Stage2Lanes.SixtyFourSplitsSuffice` | bench/suffix_attention_bakeoff.cpp:892-931 | with at most 64 splits it is always right |
| `Stage2Lanes.LaneLimitIsExact` | bench/suffix_attention_bakeoff.cpp:892-931 | for chunks of any size that covers the causal length it is right for every value cache if and only if 64 of them cover it |
| `SplitKLanes.KernelLaneLimit` | bench/suffix_attention_bakeoff.cpp:892-931 | for every stage-1 kernel: right for every value cache if and only if 64 of the chunks it cuts cover the token's causal length |
| `SplitKLanes.LanesRowIsRight` | bench/suffix_attention_bakeoff.cpp:892-931 | a row of that pipeline equals the reference kernel's from every initial workspace and output if and only if its workgroup fits the cache, and 64 of its chunks cover the causal length or attention vanishes |
| `SplitKLanes.ProgramLaunchFails` | bench/suffix_attention_bakeoff.cpp:2080-2090 | at the program's own sizes with 96 splits or more every row is wrong for some value cache, whichever kernel ran |
| `Stage2Lanes.MergeOverLanes` | bench/suffix_attention_bakeoff.cpp:874-945 | over any workspace with a number in one of the first 64 splits, the row is the lane-limited merge of its slots, gated |
| `SplitKLanes.StagedLanes` | bench/suffix_attention_bakeoff.cpp:2344-2352 | stage 1 by any kernel in any order, then this stage 2: every row with a number in a lane is the lane-limited merge of the slots stage 1 leaves, gated |
| `SplitKLanes.StagedLanesFits` | bench/suffix_attention_bakeoff.cpp:2344-2352 | where the workgroup fits the cache those slots are the kernel's own chunks and there is a number in a lane |
| `SplitKLanes.CompareLanes` | bench/suffix_attention_bakeoff.cpp:2344-2352 | a row whose workgroup fits the cache equals the reference kernel's with at most 64 splits, or when 64 chunks cover the causal length; with at most 64 splits and a launch that fits, the outputs are equal |
| `KQuant.QuantDecodersAgree` | bench/m24_projection_bakeoff.cpp:110-128 | mx_affine_quant and q4_value read the same nibble at every element |
| `KQuant.ScaleDecodersAgree` | bench/m24_projection_bakeoff.cpp:130-139 | mx_scale_min is q4_scale and q4_minimum for every group |
| `KQuant.ScaleIsSixBits` | bench/m12_dense_stage_bench.cpp:75-85 | scales and minimums are below 64 |
| `KQuant.ScaleFields` | bench/m12_dense_stage_bench.cpp:75-85 | scales and minimums as integers: low six bits of a byte, or a nibble plus 16 times the top two bits of another |
| `KQuant.NibbleField` | bench/m12_dense_stage_bench.cpp:89-92 | a Q4_K element as an integer: low or high nibble of byte index / 64 * 32 + index % 32 |
| `KQuant.Q5QuantIs` | bench/m24_projection_bakeoff.cpp:119-127 | a Q5_K element is its nibble plus its own high bit, below 32 |
| `KLossless.Q6Range` | bench/m24_projection_bakeoff.cpp:141-152 | a Q6_K element is between -32 and 31 |
| `KLossless.Q6QuantIs` | bench/m24_projection_bakeoff.cpp:141-152 | a Q6_K element as an integer: which nibble of which low byte plus 16 times which two bits of which high byte, less 32 |
| `KLossless.Q6Lossless` | bench/m24_projection_bakeoff.cpp:141-152 | blocks whose 256 elements decode alike have equal low and high bytes |
| `KLossless.Q5Lossless` | bench/m24_projection_bakeoff.cpp:110-128 | the same for Q5_K |
| `KExpand.PlacesPermute` | bench/q4k_layout_bench.cpp:66-69 | the order of the expanded nibbles is a permutation of the elements |
| `KExpand.ExpandBlock` | bench/q4k_layout_bench.cpp:56-69 | every scale, minimum and nibble lands in its place |
| `KExpand.ExpandAll` | bench/q4k_layout_bench.cpp:53-69 | for any number of blocks |
| `KExpand.ExpansionKeepsValues` | bench/m12_dense_stage_bench.cpp:87-94 | the expanded block has q4_value at every element |
| `KExpand.ExpansionMatchesMx` | bench/m24_projection_bakeoff.cpp:110-139 | and what mx_affine_quant and mx_scale_min decode |
| `KExpand.ContractExpand` | bench/q4k_layout_bench.cpp:58-69 | packing an expanded block gives the canonical block back |
| `KExpand.ExpansionIsValid` | bench/q4k_layout_bench.cpp:59-68 | every expansion has six-bit scales and minimums and four-bit nibbles |
| `KExpand.ExpandContract` | bench/q4k_layout_bench.cpp:58-69 | every such block is an expansion of its packing, so expansion is a bijection onto them |
| `KExpand.ExpansionIsInjective` | bench/q4k_layout_bench.cpp:58-69 | different canonical blocks never expand to the same block |
| `Q8Activation.MaxAbsAttained` | bench/m24_projection_bakeoff.cpp:163-167 | the maximum of a group is the magnitude of one of its activations |
| `Q8Activation.PeakIsExact` | bench/m24_projection_bakeoff.cpp:169-188 | an activation of that magnitude becomes 127 or -127 by its sign and is restored exactly |
| `Q8Activation.GroupPeaks` | bench/m24_projection_bakeoff.cpp:163-188 | in a group that is not all zero some activation is quantised to 127 or -127 |
| `Q8Activation.ClampIsIdle` | bench/m24_projection_bakeoff.cpp:187-188 | the clamp to [-127, 127] never changes a value |
| `Q8Activation.RoundNearest` | bench/m24_projection_bakeoff.cpp:187-188 | the rounding takes a nearest integer, of two equally near ones the one farther from zero |
| `Q8Activation.QuantizedNear` | bench/m24_projection_bakeoff.cpp:163-188 | each restored activation is within d / 2 |
| `QuantDot.WeightIsQ4Value` | bench/m12_dense_stage_bench.cpp:87-94 | the weight the product uses is q4_value |
| `QuantDot.RunFactors` | bench/m24_projection_bakeoff.cpp:179-202 | sixteen columns: scale and step factor out of the integer sum |
| `QuantDot.GroupValue` | bench/m24_projection_bakeoff.cpp:163-202 | one group as the loops compute it |
| `QuantDot.ExpectedValue` | bench/m24_projection_bakeoff.cpp:154-207 | the row total over all groups |
| `QuantFlat.ColumnAt` | bench/m24_projection_bakeoff.cpp:160-178 | column i of a call meets element i % 256 of weights[row * (columns / 256) + i / 256] and input[token * columns + i] |
| `QuantFlat.ColumnIs` | bench/m24_projection_bakeoff.cpp:163-202 | the column's scale, quant and minimum in the fields of that block, its step the largest activation of its group of 32 over 127 |
| `QuantFlat.RowTermIsFlat` | bench/m24_projection_bakeoff.cpp:154-207 | the value is the sum over columns of d * scale * q times the restored activation, less dmin * minimum times the rounded sum for every group, all at those indices |
| `QuantFlat.RowTermIsClose` | bench/m24_projection_bakeoff.cpp:154-207 | without loss in half precision it is within sum |d scale q| step / 2 of the exact product of those weights and activations |
| `QuantFlat.MxExpectedValue` | bench/m24_projection_bakeoff.cpp:154-207 | mx_expected_value on the flat weight and input buffers has that value and that distance |
| `QuantError.BlockedIsColumnwise` | bench/m24_projection_bakeoff.cpp:154-207 | the blocked sum is the column-by-column one for any rounding: slopes on restored activations, less one lowered sum a group |
| `QuantError.LoweredAreOffsets` | bench/m24_projection_bakeoff.cpp:163-202 | without loss the lowered sums are the minimums on the raw activations, column by column |
| `QuantError.ExpectedValueIsClose` | bench/m24_projection_bakeoff.cpp:154-207 | distance from the exact product, for any rounding of half-precision fields |
| `QuantError.ErrorBound` | bench/m24_projection_bakeoff.cpp:154-207 | without loss in half precision at most the sum of |d scale q| d_group / 2 |
| `QuantError.Q6SlopesAreWeights` | bench/m24_projection_bakeoff.cpp:192-196 | in Q6_K rows that is the sum of |w| d_group / 2 |

## Left out

- Rounding of `float` and `double`: every number is a real; the tolerance checks of the programs are replaced by equalities.
- The sentinel `-1e30f` of the tile-64 kernel: a lane beyond the split holds minus infinity outright.
- Overflow of 32-bit positions and 64-bit addresses: indices are natural numbers.
- Half precision: scale fields are given reals; rounding a step or a sum to half is a parameter of `QuantDot`, `QuantError` and `QuantFlat`, rounding of cached keys and values is not modelled.
- GdnBuild.BuildChunk: the scratch matrices of one chunk are two-dimensional arrays, so flat addressing is modelled for the persistent state, inputs and outputs only.
- GdnRepack.Repack: one loop nest a buffer, where the program fills several buffers in one nest.
- Stage1HalfWave.Unrolled: the two sub-waves of a wave are updated one after the other; their registers are disjoint. The same kernel with unroll factor 1 is the half-wave candidate without unrolling.
- Stage1.StoreSlot: one thread's loop stores the lanes' parts of the accumulator.
- Stage2Lanes.MergeOverLanes: when none of the first 64 splits of a row saw a position, possible only where stage 1 wrote nothing, the row is left unconstrained; in floating point it is zero or not a number.
- Stage1Flash.LoadTile: the tile load is one loop over rounds and lanes of a single wave, not a barrier program.
- LdsPipeline.FillOps: the loading threads are tid < UNROLL * 32; the program writes 128, which is the same for its UNROLL of 4.
- BarrierMachine.Execute: loads from global memory are constants of the program, and reductions inside a wave happen after its loads; neither can be observed by another thread.
- The candidates `gqa6_lds` and `tile32` of `bench/suffix_attention_bakeoff.cpp`: strided staging, masks and updates are those of kernels modelled here.
- `normalize_rows`, synthetic inputs, option parsing, statistics, JSON output, streams, graphs, events and device memory: no deep property or no visible body.
- Every `launch_*` function, `PrefillV2Model`, the packers and the tokenizer: their bodies are not part of this model.
