# TileOPs reference programs: a Dafny model

TileOPs ships GPU kernels together with plain reference programs for them, a validator for its
manifest, and a harness that attributes device time to benchmark iterations. This project models
those three and proves what they promise; `dafny verify dfyconfig.toml` verifies all of it.

**Recurrences** (`Sums`, `DeltaNet`, `Mamba2`, `Mamba2Stages`, `Engram`). Each kernel family has a fast
blocked form and a one-token-at-a-time form of the same recurrence. Over exact reals, for one batch
element and head, the two are the same function: DeltaNet's WY form against the delta rule, Mamba-2's
chunked pass (monolithic and staged) against the state-space recurrence, and Engram's streaming decode
against causal dilated convolution. The exponential is any function with exp(0) = 1 and
exp(a+b) = exp(a)·exp(b); softplus, silu and the activations are arbitrary functions. DeltaNet's state is
kept transposed, one row per value channel.

**Mixture of experts** (`Segments`, `Blocks`, `MoeRouting`, `MoeLayouts`, `MoeLayoutWriter`,
`MoePipeline`). The tight permutation is a stable counting sort and the block-aligned one keeps whole
blocks per expert; the layout writer and the readers agree on valid rows; and permute, experts,
unpermute compute the dense mixture, as does the loop over experts. An expert is an arbitrary function
of its index and a row.

**Manifest validator** (`Collections`, `DtypeResolution`, `DtypeGraph`, `DtypeDiagnosis`, `GuardAnalysis`,
`GuardPrecision`, `Broadcast`). Dtype resolution is complete and independent of declaration order, its diagnosis is exact,
the guard analysis is sound against a short-circuit semantics of rules and its false reports are
characterised, and broadcasting is the least
upper bound of the broadcastable order.

**Timing** (`Sorting`, `BusyTime`, `SampleReport`, `Attribution`, `AttributionExact`). A collecting
session is a class with its id stack, its outstanding records and what has been handed back. Whatever
order records arrive in and whatever is lost, a sample reads its own iteration's work only, and all of it if
nothing is lost.

**Quantization and windows** (`Nibbles`, `Int4Quant`, `CausalWindows`, `ContextParallel`). The int4 error
bound and packing round trip, and the key windows of packed sequences and their slicing across ranks.

Where a step of the original can fail, the model returns an `Option` or a `Result`.

Some properties hold only under a condition, which is then proved exactly:

- Sequence ids by scatter and prefix sum are right exactly when no sequence but the first is empty
  (`CausalWindows.IdsRightIff`), and at stride one so are the windows (`CausalWindows.StrideOneRightIff`; any
  stride: `CausalWindows.WindowsRightIff`). The lengths drawn at `workloads/fp8_lightning_indexer.py:108` may be
  zero.
- Streaming Engram decode is the causal convolution exactly when the state reaches every non-zero tap
  (`Engram.StreamingIsCausalIff`). The state is the recent history only with room for at least one row
  (`Engram.StateIsRecent`, `Engram.StateWithoutRoom`).
- The clamp in the chunk state is idle exactly for A ≤ 0 or no positive step after the first
  (`Mamba2Stages.ClampIdleIff`).
- List indexing accepts negative expert ids and the mask of the expert loop does not: the pipeline and the
  loop agree on all inputs exactly when no id is negative (`MoePipeline.ProgramsAgreeIff`).
- The guard analysis reports every name that can be read while absent, and, for operands without a nested "or", one
  that cannot exactly where the operands before every unguarded use contradict each other
  (`GuardPrecision.FaultPossibleIff`, `GuardPrecision.FalseAlarm`).

Where the code and its documentation disagree, the model follows the code:

- `workloads/moe.py:165-167` says padding rows of the per-row layout carry the sentinel. The code at line 201
  writes the expert's id over a partial tile's padding too; only the trailing tile keeps the sentinel, so the
  aligned layouts agree on valid rows and on that tile and nowhere else
  (`MoeLayoutWriter.AlignedLayoutsAgreeIff`).
- `workloads/mamba.py:588-589` says one state is emitted before each chunk. With no chunks the initial state is
  emitted all the same (`Mamba2Stages.StatePassing`).

## Model

| member | source | states |
|---|---|---|
| `DeltaNet.ChunkScanIsTokenScan` | workloads/linear_attention.py:221-261 | Folding any number of chunks with w = A⁻¹(βK) and u = A⁻¹(βV) gives, from any starting state, the outputs and the state of running the decode step token by token |
| `DeltaNet.ChunkIsTokens` | workloads/linear_attention.py:247-260 | One chunk of the kernel, with the inverse prepared for it, outputs what its tokens output one by one and leaves the state they leave |
| `DeltaNet.ChunkSizeIrrelevant` | workloads/linear_attention.py:42-48 | Two chunk sizes that both divide the length give the same outputs and the same final state |
| `DeltaNet.UnitLowerInverseInverts` | workloads/linear_attention.py:277-282 | Forward substitution inverts every unit lower triangular matrix |
| `DeltaNet.InverseUnique` | workloads/linear_attention.py:280 | Any right inverse a solver may return for such a matrix is that one |
| `DeltaNet.TokensSolveWy` | workloads/linear_attention.py:277-279 | The values the delta rule writes token by token satisfy the chunk's triangular system A d = β(V − K·S) |
| `DeltaNet.ChunkValuesAreTokenValues` | workloads/linear_attention.py:253 | With that inverse, the kernel's corrected values u − w·S are the values the delta rule writes |
| `DeltaNet.PrepareWy` | workloads/linear_attention.py:264-284 | Refused exactly when the length is not a whole number of chunks; otherwise both results are the stacked inverses of the chunks' matrices |
| `DeltaNet.Kernel2` | workloads/linear_attention.py:237-261 | The chunk loop returns the folded chunk scan: outputs of the whole chunks followed by zeros, and the last state |
| `DeltaNet.WUApart` | workloads/linear_attention.py:221-234 | w comes from the first inverse and the keys, u from the second and the values |
| `DeltaNet.ReferenceProgram` | workloads/linear_attention.py:35-48 | From a zero state the chunkwise program outputs exactly what the token-by-token recurrence outputs, whatever the chunk size |
| `DeltaNet.TokenScanSplit` | workloads/linear_attention.py:287-310 | Running the decode step over a sequence is running it over a prefix and then over the rest from the state reached |
| `DeltaNet.GatedReferenceProgram` | workloads/linear_attention.py:153-181 | The gated loop computes the iterated gated step from a zero state |
| `DeltaNet.GatedStepIsDecayedDecode` | workloads/linear_attention.py:172-180 | For every gate, scale and beta, a gated step is a delta-rule step from the state with every entry times exp(g): the same new state, and the outputs times scale |
| `DeltaNet.GatedScanUngated` | workloads/linear_attention.py:171-181 | With zero gates and unit scale the gated recurrence is the delta rule, outputs and state |
| `Mamba2.Forward` | benchmarks/ops/bench_mamba2_e2e.py:36-131 | The whole chunked pass returns the outputs of the stepwise state-space recurrence run from the initial state given, or from all zeros, for every number of chunks and chunk length; refused exactly without a whole, positive number of chunks |
| `Mamba2.ChunkIsTokens` | benchmarks/ops/bench_mamba2_e2e.py:80-131 | A chunk's history term plus masked intra-chunk sum, and its carried state, are what its tokens compute in turn, using only exp(0) = 1 and exp(a+b) = exp(a)·exp(b) |
| `Mamba2.StateAtIsTokenState` | benchmarks/ops/bench_mamba2_e2e.py:91-112 | The state carried into every chunk is the state the recurrence has reached there |
| `Mamba2.OutputsAreTokenOutputs` | benchmarks/ops/bench_mamba2_e2e.py:114-131 | The concatenated chunk outputs are the recurrence's outputs |
| `Mamba2.StateDot` | benchmarks/ops/bench_mamba2_e2e.py:49-51 | Reading any state of the run against C is the decayed initial reading plus the decayed contributions of the tokens so far |
| `Mamba2.CausalMasks` | benchmarks/ops/bench_mamba2_e2e.py:88-126 | Coupling and decay are each zero from a later token to an earlier one |
| `Mamba2.Decode` | workloads/mamba.py:610-657 | Overwrites the state in place with the decayed state plus dt·B·x and returns the new state read out against C |
| `Mamba2.StepIsDecode` | workloads/mamba.py:643-657 | For a scalar A and dt repeated over the head, the decode reference is one step of the recurrence |
| `Mamba2.DecodeEntry` | workloads/mamba.py:643-653 | Every entry of the decode update is one scalar step of the recurrence with that entry's own A and that channel's own dt |
| `Mamba2Stages.StagedForward` | workloads/mamba.py:446-607 | All separately defined stages composed, from raw step sizes through bias, softplus and clamp to outputs and final state: they compute the stepwise recurrence over the clamped steps, and with the default bounds what the monolithic pass computes |
| `Mamba2Stages.StepSizesAgree` | workloads/mamba.py:468-474 | From 0 and without an upper bound the step size stage gives the monolithic pass's steps |
| `Mamba2Stages.MaskedStateIsLastSequence` | workloads/mamba.py:569-577 | With packed sequences a chunk passes on the state its last sequence's tokens leave when run one by one from zero |
| `Mamba2Stages.NoSequenceNoState` | workloads/mamba.py:569-577 | A chunk that ends outside every sequence passes on the zero state |
| `Mamba2Stages.StatePassing` | workloads/mamba.py:581-607 | Emits exactly the state before each chunk, first the initial state given or zeros, and the state after the last one; with no chunks it still emits the initial state |
| `Mamba2Stages.ClampIdleIff` | workloads/mamba.py:562-564 | For non-negative steps, the max=0 clamp changes nothing exactly when A ≤ 0 or no step after the chunk's first is positive |
| `Mamba2Stages.WeightClamped` | workloads/mamba.py:562-573 | A kept token's weight is its step times its decay to the chunk's end, held at exp(0) where it would grow; a masked one's is zero |
| `Mamba2Stages.StageChunkStateAgrees` | workloads/mamba.py:544-578 | Without sequence ids the clamped chunk state is the monolithic pass's chunk state |
| `Mamba2Stages.StageChunkScanAgrees` | workloads/mamba.py:482-541 | The chunk scan fed by the coupling and cumsum stages is the monolithic pass's |
| `Mamba2Stages.CarriedIsStateAt` | workloads/mamba.py:598-607 | Carrying the staged chunk states through gives the states the monolithic pass enters its chunks with |
| `Mamba2Stages.StagedOutputsAgree` | workloads/mamba.py:660-673 | Staged scans from those states output what the monolithic pass outputs |
| `Mamba2Stages.StepsNonNegativeIff` | workloads/mamba.py:474 | The step-size clamp makes every step non-negative, whatever comes in, exactly when both its bounds are |
| `Mamba2Stages.ClampIsNearest` | workloads/mamba.py:474 | A clamped step is the value within the bounds nearest to the unclamped one, and the upper bound should they cross |
| `Engram.DecodeStep` | workloads/engram.py:256-286 | The tap loop and the two state branches compute the step's output and the next state |
| `Engram.StateIsRecent` | workloads/engram.py:268-283 | From an empty state, after t steps the state is the last min(t, max_conv_len) values, for max_conv_len ≥ 1 |
| `Engram.StateWithoutRoom` | workloads/engram.py:276-283 | With max_conv_len = 0 it is not: the state holds one value |
| `Engram.StepIsCausal` | workloads/engram.py:256-266 | When the state reaches as far as the non-zero taps, a step's convolution is the zero-padded causal dilated convolution of the full history |
| `Engram.StreamingIsCausalIff` | workloads/engram.py:256-266 | Streaming equals the causal convolution for every history and step exactly when no non-zero tap lies further back than max_conv_len, zero included |
| `Engram.EnoughRoomReaches` | workloads/engram.py:261-266 | max_conv_len ≥ (w−1)·dilation is always enough |
| `Engram.ZeroDilation` | workloads/engram.py:262-265 | With dilation 0 no tap but the newest is read, whatever the state |
| `Engram.ForwardIsCausal` | workloads/engram.py:154-157 | The forward pass's padded convolution is the causal convolution at dilation 1 and width 4 |
| `Engram.StreamingIsForward` | workloads/engram.py:154-159 | At dilation 1 and width 4 each streamed output is the forward pass's output |
| `MoeRouting.PermuteTight` | workloads/moe.py:641-680 | Refused exactly when an id names no expert; otherwise counts, running offsets, every pair's slot and, in that slot, the pair's token row |
| `MoeRouting.OwnersIndex` | workloads/moe.py:653-669 | Ids are list indices: -E to E-1, negative ones counted from the end |
| `MoeRouting.FwdIdxStable` | workloads/moe.py:665-670 | Different pairs get different slots, and pairs of one expert keep flat order |
| `MoeRouting.FwdIdxOnto` | workloads/moe.py:665-673 | Every slot is some pair's, and holds that pair's row i div K |
| `MoeRouting.FwdIdxSegment` | workloads/moe.py:657-670 | A pair is expert e's exactly when its slot lies in [offsets[e], offsets[e+1]) |
| `MoeRouting.CountsTotal` | workloads/moe.py:653-659 | The expert counts add up to the pairs |
| `MoeRouting.SlotsDistinct` | workloads/moe.py:611-614 | In any segments with room for their experts' pairs, no two pairs share a slot |
| `MoeRouting.PermuteAlign` | workloads/moe.py:592-638 | Each flat index appears exactly once, in its slot, every other slot holds the sentinel, and each block names the expert whose padded segment its first slot is in |
| `MoeRouting.SegmentsAligned` | workloads/moe.py:603-606 | Every padded segment starts and ends on a block boundary |
| `MoeRouting.FindOwner` | workloads/moe.py:619-631 | The binary search finds the one expert whose segment holds the position, also with empty experts; its default answer is never used |
| `MoeRouting.BlockRouted` | workloads/moe.py:611-631 | Every real entry of block b was routed to expert_ids[b] |
| `Segments.OwnerUnique` | workloads/moe.py:624 | No position lies in two segments |
| `MoeLayouts.MakeExpertSizes` | workloads/moe.py:105-140 | Shares and offsets of a distribution, which always sum to the rows asked for, so the closing assertion never fails; refused for an unknown distribution or no experts |
| `MoeLayouts.SharesPositiveIff` | workloads/moe.py:123-133 | Every share is positive exactly when there are at least as many rows as experts |
| `MoeLayouts.SkewedShape` | workloads/moe.py:128-133 | Skewed: past the top fifth one row each; the top ones equal, but that the first also takes what does not divide |
| `MoeLayouts.TopIsFifth` | workloads/moe.py:130 | The top experts are a fifth, rounded down, and at least one |
| `MoeLayouts.UniformShape` | workloads/moe.py:124-126 | Uniform: all but the last equal, and the last less than a row per expert more |
| `MoeLayouts.GroupedGemm` | workloads/moe.py:219-256 | Each row is computed by the last expert the metadata gives it to, or zero if none, and then gated if there is an activation; refused exactly for an unknown layout or, after it, an unknown activation |
| `MoeLayouts.ClipFromEnd` | workloads/moe.py:245 | Slice bounds: negative ones count from the end, and both ends are clipped |
| `MoeLayouts.ActivatedZero` | workloads/moe.py:209-216 | Rows nobody computes stay zero through the activation, whatever it does to zero |
| `MoeLayouts.GatedHalves` | workloads/moe.py:209-216 | Each output column is its own gate's activation times its own up column |
| `MoeLayouts.GatedScales` | workloads/moe.py:209-216 | Scaling the up half scales the row, whatever the activation |
| `MoeLayoutWriter.MakeLayout` | workloads/moe.py:143-206 | Which error, if any, a preset is refused with, and otherwise the metadata and valid rows it stands for |
| `MoeLayoutWriter.RoundingRecoversStart` | workloads/moe.py:243-244 | Rounding each stored end up to the alignment recovers the next segment's start |
| `MoeLayoutWriter.PsumReadsValid` | workloads/moe.py:240-246 | The stored ends give a row to an expert exactly when it is valid, and then to the one whose segment it is in |
| `MoeLayoutWriter.AlignedLayoutsAgreeIff` | workloads/moe.py:195-206 | The two aligned presets mark the same rows valid, and their readers agree on a row exactly when it is valid or in the trailing tile |
| `MoeLayoutWriter.MaskedReadsValid` | workloads/moe.py:237-239 | The masked reader computes exactly the valid rows, each slab by its own expert |
| `MoeLayoutWriter.TightReadsAll` | workloads/moe.py:181-185 | The tight reader gives every row to an expert whose running share it lies in, however few the rows and although shares may then be zero or negative; with a row for every expert to the one whose segment it is in |
| `MoePipeline.Staged` | workloads/moe.py:641-701 | The reference permute, experts on the tight segments and the reference unpermute, in that order: every token gets Σ_k w[t,k]·f_{id[t,k]}(h[t]) |
| `MoePipeline.ExpertLoop` | benchmarks/ops/bench_fused_moe_experts.py:158-173 | The mask and index-add loop leaves the same mixture in the buffer, whatever the buffer held before, also for tokens that pick one expert twice |
| `MoePipeline.LoopIsMixture` | benchmarks/ops/bench_fused_moe_experts.py:160-172 | Adding up expert by expert is adding up pick by pick |
| `MoePipeline.StagedRow` | workloads/moe.py:240-246 | On segments given by their running ends, a pair's slot holds its own expert's output for its own token |
| `MoePipeline.Unpermute` | workloads/moe.py:683-701 | Every token gets its pairs' rows, each scaled by its weight, added up |
| `MoePipeline.ProgramsAgreeIff` | benchmarks/ops/bench_fused_moe_experts.py:158-173 | For ids that index the experts, pipeline and loop mix the same rows on all hidden states, weights and experts exactly when no id is negative, or rows have no coordinates |
| `MoePipeline.NegativePickDiffers` | benchmarks/ops/bench_fused_moe_experts.py:161 | For every negative id, weights and experts on which the two differ |
| `MoePipeline.StagedAndLoop` | benchmarks/ops/bench_fused_moe_experts.py:158-173 | When every pick names an expert the two programs return the same rows |
| `DtypeResolution.ResolveTensorDtypeOptions` | scripts/validate_manifest.py:3289-3332 | Options for every declared tensor exactly when the declarations are readable and resolvable; they solve every expression and are non-empty and free of duplicates |
| `DtypeResolution.ResolvedOffers` | scripts/validate_manifest.py:3239-3286 | In a resolved signature every tensor has exactly the names its tokens offer: a name itself, a reference's names, or a reference's promoted names |
| `DtypeResolution.ResolveOptions` | scripts/validate_manifest.py:3312-3332 | The same for any declaration order; the pass bound is never exhausted |
| `DtypeResolution.ResolvePass` | scripts/validate_manifest.py:3317-3331 | A pass keeps what is resolved solved and ranked, and without progress every pending tensor is stuck |
| `DtypeResolution.SolutionIsMeaning` | scripts/validate_manifest.py:3239-3286 | A solution of a resolvable signature is the recursive meaning of its expressions |
| `DtypeResolution.SolutionUnique` | scripts/validate_manifest.py:3292-3299 | Hence there is only one, whatever the declaration order |
| `DtypeResolution.StuckIsUnresolvable` | scripts/validate_manifest.py:3327-3331 | A stuck pass means no ranking of the references exists |
| `DtypeResolution.ExpandPromoteIntToFloat` | scripts/validate_manifest.py:3222-3236 | Nothing integral is left, every other name is as it was, float32 is there exactly where it or an integral name was, and nothing is there twice |
| `DtypeResolution.PromotedNames` | scripts/validate_manifest.py:3232 | Which names promotion gives, name by name |
| `DtypeResolution.PromotedOrder` | scripts/validate_manifest.py:3231-3235 | They come in the order in which the input first has something that becomes them |
| `DtypeResolution.DedupOrder` | scripts/validate_manifest.py:3279-3286 | What is kept is kept in the order of first occurrence |
| `DtypeResolution.OptionsForTensor` | scripts/validate_manifest.py:3239-3286 | A dtype expression expands token by token, or to nothing when a token is unknown or unresolved |
| `DtypeResolution.ExpandOffers` | scripts/validate_manifest.py:3258-3278 | It expands exactly when every token is known, and then to exactly what its tokens offer |
| `DtypeGraph.ResolvableIff` | scripts/validate_manifest.py:3292-3299 | A signature is resolvable exactly when every name is a dtype, every reference is declared and no references go round in a circle |
| `DtypeGraph.DiagnosisExplains` | scripts/validate_manifest.py:2191-2203 | Over known names and bare same_as references, resolution fails exactly when there is a dangling reference or a cycle for the diagnosis to report |
| `DtypeDiagnosis.Diagnose` | scripts/validate_manifest.py:2165-2250 | Reports exactly the dangling references and exactly the cycles, each once, is never empty, and is generic exactly when there is neither |
| `DtypeDiagnosis.Walk` | scripts/validate_manifest.py:2212-2236 | A walk is a chain of different tensors, and why it stopped is where its last edge leads |
| `DtypeDiagnosis.AllCyclesReported` | scripts/validate_manifest.py:2205-2237 | Once every start has been visited, every cycle has been reported |
| `DtypeDiagnosis.CyclesDisjoint` | scripts/validate_manifest.py:2216-2226 | Two cycles that share a tensor are the same set |
| `DtypeDiagnosis.SuffixIsCycle` | scripts/validate_manifest.py:2216-2218 | The part of the walk from the repeated tensor on is a cycle |
| `GuardAnalysis.FaultsAreReported` | scripts/validate_manifest.py:948-1028 | For every rule, every set of absent inputs and every behaviour of the opaque parts, an absent input read outside a presence test is one the analysis reports |
| `GuardAnalysis.UnguardedUses` | scripts/validate_manifest.py:986-1001 | The two passes over the nodes, told apart by identity, collect exactly the optional names that are not guarded and occur somewhere other than as the subject of "is None" or "is not None" |
| `GuardAnalysis.UsesAreUntested` | scripts/validate_manifest.py:990-1001 | Skipping the operands of presence tests by identity is skipping the tests themselves |
| `GuardAnalysis.GuardScopes` | scripts/validate_manifest.py:948-965 | Each operand of a top-level "or" is paired with exactly the optional names X for which an operand before it is "X is None" |
| `GuardAnalysis.CheckShapeRule` | scripts/validate_manifest.py:1018-1021 | A rule's report is exactly the optional names that occur outside presence tests in an operand with no "X is None" operand before it |
| `GuardAnalysis.UsesEscape` | scripts/validate_manifest.py:968-1001 | The uses are the optional names with an occurrence that is not the subject of a bare presence test |
| `GuardPrecision.ReportsAreReal` | scripts/validate_manifest.py:1018-1021 | With no "is not None" operand and no nested "or", a name is reported exactly when some evaluation reads it while it is absent |
| `GuardPrecision.FaultPossibleIff` | scripts/validate_manifest.py:1018-1021 | In general the rule can read X while absent exactly when an operand uses it unguarded and the operands before it do not contradict each other |
| `GuardPrecision.UsesAreFaults` | scripts/validate_manifest.py:986-1001 | In a tree without "or" every use is a fault of some evaluation in which that name alone is absent |
| `GuardPrecision.FalseAlarm` | scripts/validate_manifest.py:1018-1021 | A rule whose earlier operands contradict each other is reported although it never reads the name |
| `GuardAnalysis.ReportedIff` | scripts/validate_manifest.py:1018-1021 | A name is reported exactly when some operand uses it untested and no earlier operand is "X is None" for it |
| `GuardAnalysis.GuardedArePresent` | scripts/validate_manifest.py:948-965 | When evaluation gets past an operand that guards a name, the name is present |
| `GuardAnalysis.FaultsAreUses` | scripts/validate_manifest.py:968-1001 | A fault happens only at a name the tree uses outside a presence test |
| `Broadcast.BroadcastShapes` | scripts/validate_manifest.py:2716-2749 | The result is the least upper bound of the shapes; it fails exactly when they have no upper bound |
| `Broadcast.BroadcastableIsJoin` | scripts/validate_manifest.py:2752-2770 | src is broadcastable to dst exactly when dst is the broadcast of the two |
| `Broadcast.BroadcastableFromRight` | scripts/validate_manifest.py:2752-2770 | The padded comparison is the order read from the last dimension, missing dimensions counting as 1 |
| `Broadcast.BroadcastableTransitive` | scripts/validate_manifest.py:2752-2770 | The order is transitive, zero-sized dimensions included |
| `Broadcast.BroadcastableAntisymmetric` | scripts/validate_manifest.py:2752-2770 | The order is antisymmetric |
| `Broadcast.OrderIrrelevant` | scripts/validate_manifest.py:2716-2749 | The result does not depend on the order or repetition of the arguments |
| `Broadcast.GroupingIrrelevant` | scripts/validate_manifest.py:2716-2749 | Broadcasting some of the shapes first changes neither success nor the result |
| `AttributionExact.MeasurePhase` | benchmarks/timing.py:296-333 | A whole phase, records in any batches: whatever is lost, a returned sample reads its own iteration's work only; if nothing is lost, all of it, and refusal happens exactly when another thread's launch did work or an iteration has nothing to time |
| `AttributionExact.LossNeverMixes` | benchmarks/timing.py:407-417 | Under any loss of kernels or correlations, no iteration is given work that is not its own, and nothing but preparation is set aside as preparation |
| `AttributionExact.AttributionIsExact` | benchmarks/timing.py:407-417 | In any delivery order each verdict gets exactly its own work: iterations theirs, preparation nobody's, another thread's launches orphans |
| `AttributionExact.DeliveredLabels` | benchmarks/timing.py:193-194 | Every correlation id ends up with the one label it was issued under, whatever the order of the records |
| `AttributionExact.IterationIsExact` | benchmarks/timing.py:461-469 | The reading of an iteration's claimed kernels is the reading of what it issued |
| `AttributionExact.ShortIsUnmeasurable` | benchmarks/timing.py:433-434 | A phase comes up short exactly for a reason in the script |
| `AttributionExact.KernelsConserved` | benchmarks/timing.py:407-417 | For any kernels and labels, orphans, preparation and the iterations' groups are together all the kernels, none twice |
| `AttributionExact.CountsConserved` | benchmarks/timing.py:419-469 | Whenever samples are returned their kernel counts, the excluded copies and the preparation kernels add up to all kernels |
| `AttributionExact.BusyWithinLatency` | benchmarks/timing.py:461-467 | No sample is busy longer than its latency |
| `AttributionExact.SampleMeasures` | benchmarks/timing.py:461-467 | A sample's latency is the length of the shortest interval that holds the timed kernels, its busy time the size of the union of theirs, its count their number |
| `AttributionExact.SampleLeavesOut` | benchmarks/timing.py:419-431 | Left out of a sample are exactly the copies, unless the case counts them, and their time is what is reported as uncounted |
| `AttributionExact.AttributedRowIsConsistent` | benchmarks/benchmark_base.py:132-180 | A report row published from attributed samples has no negative gap and percentiles around its median |
| `Attribution.AttributedSamples` | benchmarks/timing.py:388-469 | One sample per iteration from the kernels it claims, or the failure: lost records are considered only once something is short |
| `Attribution.CollectAttributed` | benchmarks/timing.py:472-507 | Runs at most three phases, each with four times the buffer, retries only on reported loss, and the last phase decides |
| `Attribution.BufferSizes` | benchmarks/timing.py:486-500 | The three phases ask for 256 KB, 1 MB and 4 MB |
| `Attribution.ClaimKernels` | benchmarks/timing.py:407-417 | Orphans and, per iteration, claimed kernels, in record order |
| `Attribution.SetCopiesAside` | benchmarks/timing.py:419-431 | Copies leave their group and are measured; a group of nothing else disappears |
| `Attribution.Collector.CollectRepeats` | benchmarks/timing.py:321-327 | Runs each iteration under its own label after its preparation under another, and leaves the id stack empty |
| `Attribution.Collector.BufferCompleted` | benchmarks/timing.py:167-195 | Appends the batch's kernels and copies and adds its correlations |
| `Attribution.ReadConcat` | benchmarks/timing.py:167-195 | Reading two batches one after the other is reading them as one |
| `BusyTime.BusyNs` | benchmarks/timing.py:364-377 | The sweep over sorted intervals returns the size of the union of the intervals |
| `BusyTime.BusyOrderIrrelevant` | benchmarks/timing.py:364-377 | Busy time does not depend on record order |
| `BusyTime.BusyWithinSpan` | benchmarks/timing.py:356-377 | Busy time is at most the span |
| `BusyTime.SpanIsShortest` | benchmarks/timing.py:356-361 | The span is the length of the shortest interval that holds every kernel |
| `BusyTime.BusyWithinTotal` | benchmarks/timing.py:364-377 | Busy time is at most the sum of the durations |
| `BusyTime.BusyIsTotal` | benchmarks/timing.py:364-377 | Kernels that do not overlap are busy for exactly the sum of their durations |
| `BusyTime.BusyOfBoth` | benchmarks/timing.py:419-431 | Kernels and copies together are busy at least as long as either and at most their sum |
| `BusyTime.CoverIff` | benchmarks/timing.py:364-377 | An instant is in the union exactly when some interval covers it |
| `SampleReport.BuildResult` | benchmarks/benchmark_base.py:132-180 | Refused without samples or with a non-positive median; otherwise the measured part, the notes on how it was measured and throughput, later keys replacing earlier ones |
| `SampleReport.MeasuredRow` | benchmarks/benchmark_base.py:146-163 | Exactly which keys the measured part carries and what they hold |
| `SampleReport.MedianMonotone` | benchmarks/benchmark_base.py:140-150 | A bound that holds sample by sample holds between the medians, for odd and even counts |
| `SampleReport.MedianNegated` | benchmarks/benchmark_base.py:140-141 | The median prefers neither side: negating the samples negates it |
| `SampleReport.RanksAreTenths` | benchmarks/timing.py:566-568 | The percentile ranks are a tenth and nine tenths of the last index, to the nearest whole rank |
| `SampleReport.RoundsToNearest` | benchmarks/timing.py:568 | Rounding gives a nearest integer, the even one of two equally near |
| `SampleReport.SpreadBracketsMedian` | benchmarks/timing.py:556-568 | p10 ≤ median ≤ p90 at the nearest ranks used, ties to even |
| `SampleReport.PublishedRowIsConsistent` | benchmarks/benchmark_base.py:140-180 | When no sample is busy longer than its latency and the notes name no measurement, the published gap is not negative, the percentiles bracket the median, and the published rate times busy time is the work |
| `Int4Quant.ErrorBound` | workloads/gemm.py:115-130 | Every weight is recovered to within half its group's scale, through the rounded zero point and both clamps |
| `Int4Quant.CodeIsNearest` | workloads/gemm.py:120-124 | No other code of 0..15 would decode closer to the weight, even for weights outside the group's range |
| `Int4Quant.ScaledInRange` | workloads/gemm.py:116-119 | The zero point is in range before it is clamped, and a scaled weight is at most half a step out of range |
| `Int4Quant.ScaleIsLeast` | workloads/gemm.py:116-118 | The scale is the smallest that is at least 1e-12 and whose fifteen steps span the group and zero |
| `Int4Quant.ZeroIsExact` | workloads/gemm.py:119-130 | A zero weight comes back as exactly zero |
| `Int4Quant.QuantizeWeight` | workloads/gemm.py:102-131 | Refused exactly for a width that is no whole number of groups, then for an odd width; otherwise every row is recovered from its bytes, scales and zero points, and there is nothing but the rows |
| `Int4Quant.MatrixIsRecovered` | workloads/gemm.py:115-131 | For every row: unpacking its bytes and decoding gives the dequantized row, within half a scale of the original and exact on zeros |
| `Nibbles.UnpackPack` | benchmarks/ops/bench_gemm.py:330-334 | Unpacking returns every code in order |
| `CausalWindows.IdsRightIff` | workloads/fp8_lightning_indexer.py:32-38 | The scatter and prefix sum give every row the sequence that contains it exactly when no sequence but the first is empty |
| `CausalWindows.IdOfRow` | workloads/fp8_lightning_indexer.py:35-38 | A row's id falls short of its sequence by exactly the empty sequences before it, the very first aside |
| `CausalWindows.SeqIdx` | workloads/fp8_lightning_indexer.py:32-38 | The scatter and sum compute the count of marked rows up to each row, or the index error |
| `CausalWindows.CausalWithinSequence` | workloads/fp8_lightning_indexer.py:62-74 | For queries numbered from zero and any stride the causal end never passes the sequence's end, so the final minimum changes nothing |
| `CausalWindows.LastRowSeesAll` | workloads/fp8_lightning_indexer.py:119-124 | The last row of a non-empty sequence sees all its keys, one for every whole stride of its tokens |
| `CausalWindows.WindowIsCausal` | workloads/fp8_lightning_indexer.py:62-71 | A query sees exactly those keys of its sequence all of whose tokens are at or before it |
| `CausalWindows.WindowsNest` | workloads/fp8_lightning_indexer.py:62-71 | Inside a sequence windows grow with the row |
| `CausalWindows.WindowsDisjoint` | workloads/fp8_lightning_indexer.py:62-101 | Windows of different sequences share no key |
| `CausalWindows.KeyEnds` | workloads/fp8_lightning_indexer.py:40-75 | Each row's end is the smaller of its causal end and the end its id looks up |
| `CausalWindows.Windows` | workloads/fp8_lightning_indexer.py:119-141 | What every row's window is, right id or not: its causal window, or all the keys of the earlier sequence it is taken for; an empty last sequence is the index error |
| `CausalWindows.WindowsRightIff` | workloads/fp8_lightning_indexer.py:119-141 | Windows are right exactly when every row has its own sequence's id or reaches no key, with no keys between the two sequences |
| `CausalWindows.StrideOneRightIff` | workloads/fp8_lightning_indexer.py:119-141 | At stride one windows are returned and right exactly when no sequence but the first is empty |
| `ContextParallel.SlicesPartition` | workloads/fp8_lightning_indexer.py:143-149 | Each row lies in exactly one rank's short or long slice |
| `ContextParallel.RankWindows` | workloads/fp8_lightning_indexer.py:143-169 | A rank's two slices, one after the other; refused for an odd length, without rows, or when no row reaches a key |
| `ContextParallel.RankRowsIncrease` | workloads/fp8_lightning_indexer.py:151-162 | A rank's rows come in increasing row order |
| `ContextParallel.RanksWorkEqually` | workloads/fp8_lightning_indexer.py:143-162 | For one sequence at stride 1 every rank gets the same total window length |

## Left out

- Floating-point rounding, dtype casts, devices and memory layouts: tensor arithmetic is over exact reals, times in microseconds and milliseconds are exact, and `0.1 * last` is a tenth.
- Batch and head axes and the mapping of heads to groups: one batch element and head (or group) is modelled, and each is computed alike.
- `linalg.inv` is modelled by forward substitution; by `DeltaNet.InverseUnique` any inverse it could return is the same.
- Mamba2Stages.MaskedStateIsLastSequence: for sequence ids that form one run at the end of the chunk, as packed sequences do; for other ids only the masked sum itself is modelled.
- RMS norms, gates and projections of Engram: a step starts from its gated and normalized value.
- Engram.StreamingIsCausalIff: for dilation at least 1; with dilation 0 only what a step reads is stated (`Engram.ZeroDilation`).
- `scale` defaults and the initial tensors of the workload classes: parameters.
- GLA recurrences and the backward references: further instances of the same recurrences, with no blocked form beside them here.
- Expert matrices: an expert is an arbitrary function of its rows, and silu and gelu arbitrary functions of a number.
- MoePipeline.Staged: `FusedMoEExpertsFwdOp` and the GPU routines the benchmark runs in the same order (`benchmarks/ops/bench_fused_moe_experts.py:235-239`) are not part of this model; the stages are the reference programs.
- MoeRouting.PermuteAlign: the rounding up of counts is exact integer division, where the code divides in floating point; a block size of at least one is required.
- YAML loading, parsing of dtype expressions and rules, and the other schema checks: resolution starts from token lists and the guard analysis from expression trees.
- Names bound inside a rule (walrus, lambda and comprehension targets): the analysis walks them as uses, the evaluation semantics does not bind them.
- The wording and sorting of reported errors; reports are sets or lists of what is named.
- CUPTI, CUDA events, profiler fallbacks, L2 flushing and how the dropped-record count is obtained: the records a launch produces and the count are given.
- Overlapping phases: correlation ids are numbered per phase and no record of one phase reaches another.
- Kernel names and case parameters; how a case counts its work and captures its notes: the figures are given.
- The random generation of sequence lengths, weights and routing; lengths and ids are parameters.
- int32 wrap-around of offsets and ids.
- Grouped-GEMM batch splitting and mean pooling over chunks: easier variants of the segment proofs here.
- Report rendering, JUnit parsing, Nsight Compute, git and cache plumbing.
