# Verified model of the inference engine

A Dafny model of the parts of the engine where correctness spans many functions:
the graph executor and its liveness planner, speculative (MTP) decoding and the
front ends above it, the tokenizers and the streaming stop matcher, and the graph
rewrite and file format. `dafny verify dfyconfig.toml` checks everything.

## The files

- `Graph`, `Wrappers`: the serialised graph and small shared types.
- `Liveness`, `Fusion`: the plan of `prepare_execution` and the conditions for
  fusing chains.
- `Executor`, `ExecutorMemory`, `ExecutorRun`, `Passes`, `Refusals`, `PoolLog`,
  `Calls`, `Segments`, `Stopping`, `FusionEffects`: the node loop over a heap of
  buffers; its storage invariant; every step; whole, fused and segmented passes; when
  they fail; the calls made of the buffer pool; sequences of engine calls; the
  execution context with its loops and cursor; stopped and suspended passes; and the
  buffers that fusions save.
- `Checkpoint`, `Decoding`, `Engine`: recurrent-state checkpoints, the target model
  as a fold over tokens, and the engine's state machine over a KV cache whose tail
  is unconstrained.
- `Generation`, `StopMatcher`, `StopGeneration`, `Serving`: the token loop, text
  stops, and prefix-cached serving.
- `SpecLaw`, `Candidates`, `Sampler`, `Softmax`, `SpecStep`: the law of speculative
  sampling over the reals, the penalties, filters and draws it is instantiated with,
  and the sampled step whose draws have exactly that law.
- `ByteAlphabet`, `PreTokenizer`, `PreTokenizerLaws`, `Bpe`, `Tokenizer`,
  `TokenizerLaw`: byte-level BPE.
- `Rwkv`, `RwkvLiteral`: the trie tokenizer and its vocabulary literals.
- `GraphIo`, `GraphFormat`, `GraphFiles`: the binary graph format, its bytes, its
  reader and its writer.
- `Qsa`, `QsaIndexer`, `QsaAttach`: the QSA companion rewrite.

Code that works by changing state is a class or a method with loops, proved against
a function of its inputs or old state; what the code is for is then proved about
those functions. Kernels, models and `exp` are arbitrary functions. What a backend,
the buffer pool or a random draw decides is an arbitrary choice that the proofs
quantify over. A fused dispatch is the composition of its parts, an assumption that
is built into the model's dispatch functions.

## What the proofs found

Where the code does not do what it suggests, the lemmas named give the exact
condition under which it does (for merging, a sufficient one) and an input for which
it does not.

- Serving with a reused prefix answers one kind of request that a fresh engine
  refuses: a single new token whose budget the remaining context cuts
  (`Serving.ReuseIsTransparentExactly`, `Serving.ReuseCanDiffer`). With two new
  tokens, or room for the budget, it never differs (`Serving.ReuseIsTransparent`).
- A reply whose first token is EOS loses the bytes held back for stop matching
  (`StopGeneration.FlushIsSkippedExactly`, `StopGeneration.FlushIsSkipped`).
- The newline alternative of the pre-tokenizer stops after the first newline run,
  where the expression quoted above it takes the longest match
  (`PreTokenizer.NewlinesAreLongestExactly`, `PreTokenizer.NewlinesStopEarly`).
- In the staged profile letters directly in front of a CJK run take it along,
  although the comment says CJK runs are isolated first
  (`PreTokenizer.WordEndsBeforeCjkExactly`, `PreTokenizer.WordTakesCjkAlong`). The
  model follows the code in both.
- A piece ends inside a character when the byte given back by the blanks alternative
  is only a part of the last blank, as for overlong spaces
  (`PreTokenizer.PieceOnBoundaryExactly`, `PreTokenizer.OverlongSpaceIsCut`).
- A chunk whose second or later piece is not in the vocabulary is encoded with its
  first bytes doubled (`TokenizerLaw.RoundTripExactly`, `TokenizerLaw.RoundTripCanFail`).
- Precision words are narrowed to a byte before validation, so a file holding 256
  loads as FP32 (`GraphIo.PrecisionsAreNarrowed`).
- A vocabulary line that repeats an id for another string breaks decoding of the
  earlier string, unless a later line gives that string another id
  (`Rwkv.ConsistentExactly`, `Rwkv.RepeatedIds`).
- Rejecting a segment while a pass is suspended strands the pass until a whole pass
  resets the cursor (`Segments.RejectionStrands`).
- Rebinding an input whose old storage a RESHAPE still views, without a cleanup in
  between, makes the next reset give back storage it must not
  (`Passes.RebindSafeExactly`, `Passes.RebindCanFail`). The engine cleans up first.
- Merging by rounds equals merging one pair at a time when every rule that uses a
  symbol ranks after the rules that produce it, and can differ when not
  (`Bpe.RoundsAreOneAtATime`, `Bpe.OrderIsNeeded`).
- A uniform draw of exactly 0, a case of chance 0 over the reals, accepts a draft of
  target probability 0, and no other draw does (`Sampler.ZeroDrawAccepts`).

## Model

| member | source | states |
|---|---|---|
| `Liveness.NoTouchAfterLastUse` | graph/execute.cpp:252-275 | no node reads, through views of any depth, storage whose last use has passed |
| `Liveness.LastUseIsATouch` | graph/execute.cpp:252-275 | the last use is a real one: the plan releases no later than it must |
| `Liveness.KeptExactly` | graph/execute.cpp:261-318 | a tensor is kept if and only if a graph output or pinned tensor may be a view of it |
| `Liveness.ReleaseExactly` | graph/execute.cpp:203-329 | the release step of every tensor, characterised by the graph alone (if and only if) |
| `Liveness.ProtectedIsKept` | graph/execute.cpp:203-309 | storage that a state kernel may write, by opcode, and all it views is never released |
| `Liveness.ViewsHoldTheirSource` | graph/execute.cpp:244-275 | what a view shows, by opcode, with CONTIGUOUS under conservative liveness, is released no earlier than the view |
| `Liveness.PinsExactly` | graph/execute.cpp:203-309 | which tensors a node pins and which nodes leave nothing to release, by opcode (if and only if) |
| `Liveness.FindLastUses` | graph/execute.cpp:252-275 | the two last-use loops compute the view-aware last use |
| `Liveness.FindKept` | graph/execute.cpp:261-318 | the keep loops mark exactly the kept tensors |
| `Liveness.PinStorage` | graph/execute.cpp:282-302 | one protected node pins what its state contract names, or else all it touches |
| `Liveness.PrepareRelease` | graph/execute.cpp:203-329 | the queue lists each released tensor once, after its release step, and nothing else; a blocking node empties it |
| `Fusion.SoleReader` | graph/hc_deferred_rms.h:19-34 | a sole use leaves no second reader and no second edge in the one reader |
| `Fusion.UpTripleIsGatePair` | graph/hc_deferred_rms.h:36-66 | an up/sigmoid/reduce chain is also a sigmoid/reduce pair |
| `ExecutorMemory.PlanIsSafe` | graph/execute.cpp:203-329 | the planned schedule outlives every reader and every view of every tensor |
| `ExecutorMemory.NeverReleasingIsSafe` | graph/execute.cpp:203-251 | keeping everything is a safe schedule too |
| `ExecutorMemory.Root` | graph/execute.cpp:783-814 | a tensor that borrows leads through its views to one owner that is still live |
| `ExecutorMemory.ReadsAreValues` | graph/execute.cpp:783-1001 | what a dispatched node reads is what its inputs denote |
| `ExecutorMemory.AcquireKeeps` | graph/execute.cpp:783-814 | a fresh buffer aliases no live one and keeps the invariant |
| `ExecutorMemory.BorrowKeeps` | graph/execute.cpp:783-814 | a run-time borrow keeps single ownership and every value |
| `ExecutorMemory.DispatchKeeps` | graph/execute.cpp:783-1001 | dispatch leaves the node with its denoted value and changes no other |
| `ExecutorMemory.ClassificationIsExact` | graph/execute.cpp:535-556 | the storage comparison calls a tensor borrowed if and only if it does not own its buffer |
| `ExecutorMemory.ReleaseFirstEffect` | graph/execute.cpp:1205-1239 | releasing a batch frees each owned buffer once, drops each view, and touches nothing else |
| `ExecutorMemory.ReleaseBatchKeeps` | graph/execute.cpp:1184-1239 | a release batch keeps the invariant and moves the release frontier |
| `ExecutorRun.PlannedQueue` | graph/execute.cpp:203-359 | the planner's queue matches its schedule |
| `ExecutorRun.FusedGateKeeps` | graph/execute.cpp:948-951 | a fused sigmoid/reduce writes the reduce's denoted value |
| `ExecutorRun.DeclinedGateKeeps` | graph/execute.cpp:951-964 | a declined one materialises the sigmoid first, with the same result |
| `ExecutorRun.UpBlockKeeps` | graph/execute.cpp:920-931 | up/sigmoid/reduce, accepted or declined |
| `ExecutorRun.InjectBlockKeeps` | graph/execute.cpp:932-947 | inject/RMS, accepted or declined |
| `ExecutorRun.MoeBlockKeeps` | graph/execute.cpp:932-947 | MoE/inject/RMS, accepted or declined |
| `ExecutorRun.MoeChainContinues` | graph/hc_deferred_rms.h:89-111 | a deferred MoE always meets its deferred inject |
| `ExecutorRun.FinishChain` | graph/execute.cpp:1175-1239 | the batch after a chain releases exactly what fell due during it |
| `ExecutorRun.StepKeeps` | graph/execute.cpp:635-1259 | every iteration of the node loop keeps the invariant, with any chain pending |
| `ExecutorRun.RunKeeps` | graph/execute.cpp:635-1259 | so does every run, also one stopped by a refused acquisition |
| `Passes.ResetReturnsEverything` | graph/execute.cpp:518-597 | reset and cleanup return every acquired buffer and none of the caller's |
| `Passes.PassIsSafe` | graph/execute.cpp:452-1269 | no read, write or release of dead storage in any pass, for any pool, borrowing and fusion outcome |
| `Passes.OutputsSurvive` | graph/execute.cpp:261-318 | graph outputs are live at the end and never eliminated by fusion |
| `Passes.PassComputesGraph` | graph/execute.cpp:452-1269 | a tensor is gone at the end if and only if the plan releases it or fusion eliminated it; every other one, outputs included, is live with the value the graph denotes; what is live besides is owned by a kept tensor |
| `Passes.PlannedPassComputesGraph` | graph/execute.cpp:109-360 | planner and executor together, for every well-formed graph: the same result |
| `Passes.ReleasedOnTime` | graph/execute.cpp:1175-1239 | stopped after any node, a pass holds nothing that the plan has released by then |
| `Refusals.RunFails` | graph/execute.cpp:783-814 | a run that fails has just been refused a buffer that some node needed |
| `Refusals.PassCompletes` | graph/execute.cpp:452-1269 | with a pool that refuses nothing every pass completes and computes the graph, fused, declined, borrowed or copied |
| `Refusals.SegmentsComplete` | graph/execute.cpp:1261-1310 | so does every pass in segments |
| `Passes.FusionIsInvisible` | graph/execute.cpp:482-505 | any two mixes of fusions free the same tensors and leave the same values in all others, eliminated intermediates apart |
| `Passes.UnfusedRunSplits` | graph/execute.cpp:482-505 | an unfused run may be cut after any node |
| `Passes.SegmentedIsWhole` | graph/execute.cpp:1261-1310 | any unfused segmentation, complete or not, ends in the very state of one uncut run |
| `Passes.SegmentedPassComputesGraph` | graph/execute.cpp:1261-1310 | with fusions inside segments, the same tensors are released and all others hold their denoted values |
| `PoolLog.Balanced` | graph/execute.cpp:452-1269 | in a log that replays, each buffer is acquired as often as released, but for what was out before or is still |
| `PoolLog.AcquiredOnce` | graph/execute.cpp:452-1269 | each acquired buffer is released by the next call about it, or never and is still out |
| `PoolLog.ReleasedOnce` | graph/execute.cpp:452-1269 | each release is of a buffer acquired before, or out from the first, with no call about it in between |
| `PoolLog.RunSeals` | graph/execute.cpp:635-1259 | the pool log of any run replays, and the caller's buffers are not in it |
| `PoolLog.ResetSeals` | graph/execute.cpp:515-597 | so does that of the resets, in either mode |
| `Calls.MayBegin` | graph/execute.cpp:515-597 | whatever the previous call kept, the next pass may start once its inputs are rebound |
| `Calls.CallIsSound` | engine/engine.cpp:80-159 | one call, whole or in segments and wherever it stops: no dead storage is touched, a finished pass has computed the graph, a failed one was just refused a buffer, and exactly the caller's buffers and those of kept tensors stay live, contents and bindings unchanged |
| `Calls.RunConserves` | engine/engine.cpp:80-159 | so does every call of any sequence, each with its own bindings, kernels, segments, stopping point, reuse and cleanup; the pool's log replays from the buffers out at first to those kept at last |
| `Calls.EngineConserves` | engine/engine.cpp:80-159 | from a fresh engine on, every acquired buffer is given back by the next pool call about it or is owned by a kept tensor, and nothing else is given back |
| `Passes.RebindSafeExactly` | engine/engine.cpp:80-142 | rebinding inputs before cleanup is sound if and only if no RESHAPE still views an input's old storage |
| `Passes.RebindCanFail` | engine/engine.cpp:80-142 | a graph, state and rebinding where it is not |
| `Segments.SuspendedMeansContiguous` | graph/execute.cpp:1271-1310 | among any calls, whole passes and rejections included, a suspended pass is contiguous segments from node 0 under one identity, and the state is exactly theirs |
| `Segments.AcceptedInOrder` | graph/execute.cpp:1276-1310 | an accepted segment continues such a chain or opens one: no other order is ever accepted |
| `Segments.CompletedInSegments` | graph/execute.cpp:1271-1310 | whatever calls came before, a pass that began in a startable state and was completed in segments has computed the graph; without fusions, in the state of one uncut pass |
| `Segments.AcceptedFails` | graph/execute.cpp:1271-1310 | an accepted call, whole or a segment, fails only where the pool refused a buffer |
| `Segments.WholeCompletes` | graph/execute.cpp:1271-1274 | execute_graph completes the graph from a startable state if the pool refuses nothing |
| `Segments.InOrderIsAccepted` | graph/execute.cpp:1276-1310 | segments requested in order are all accepted and succeed if the pool refuses nothing, and have run exactly those segments |
| `Segments.RejectionStrands` | graph/execute.cpp:1271-1303 | after one rejection a suspended pass accepts no segment and changes nothing, until a whole pass resets the cursor |
| `Stopping.FusesExactly` | graph/execute.cpp:482-505 | a stopped pass fuses nothing, a segment only what its pass asks for and never a MoE chain, a whole pass everything |
| `Stopping.StoppedExactly` | graph/execute.cpp:482-505 | an unfused run through a node has computed exactly the nodes through it: what fell due is gone, the rest is readable with its value, later tensors are untouched |
| `Stopping.StoppedCall` | graph/execute.cpp:1257-1259 | so has a call that asks to stop at a node, which fuses nothing |
| `Stopping.SuspendedExactly` | graph/execute.cpp:1276-1310 | so has a suspended pass whose segments do not fuse, up to the node it resumes at, whatever calls came before |
| `FusionEffects.GateTakes` | graph/execute.cpp:948-964 | a gate pair takes one buffer if and only if it is switched on, has rows enough and is accepted, and else two |
| `FusionEffects.UpTakes` | graph/execute.cpp:918-964 | an up chain takes one, two or three buffers, exactly by which parts of it are fused |
| `Segments.ExecContext.Classify` | graph/execute.cpp:532-556 | classification by loop agrees with the predicate |
| `Segments.ExecContext.Reset` | graph/execute.cpp:518-597 | the reset loops, views cleared before owners are released |
| `Segments.ExecContext.RunNodes` | graph/execute.cpp:635-1259 | the node loop refines the step function |
| `Segments.ExecContext.ExecuteGraph` | graph/execute.cpp:1271-1274 | a whole pass, optionally stopped early: state and cursor as the call function says |
| `Segments.ExecContext.ExecuteSegment` | graph/execute.cpp:1276-1310 | a segment call: cursor, identity, failure and the run it makes, as the call function says |
| `Checkpoint.RecurrentCheckpoint.Capture` | engine/recurrent_checkpoint.h:15-43 | every non-empty listed buffer is recorded once with its bytes, or the device snapshot is |
| `Checkpoint.RecurrentCheckpoint.Restore` | engine/recurrent_checkpoint.h:45-58 | all spans are checked before any write; success writes back exactly the saved bytes |
| `Checkpoint.RestoreUndoes` | engine/recurrent_checkpoint.h:45-58 | restoring undoes any change of contents |
| `Decoding.FoldPrefix` | engine/engine.cpp:1144-1334 | a longer run extends a shorter one: a KV prefix never changes |
| `Decoding.MissingPairs` | engine/engine.cpp:903-975 | the entries sync_mtp writes are the missing (token, previous hidden) pairs |
| `Decoding.GreedyAt` | engine/sampler.cpp:246-254 | every token of a greedy reply is the arg-max after those before it |
| `Decoding.GreedyRunContinues` | engine/engine.cpp:1484-1566 | a greedy run is how the greedy reply begins, and the rest is the reply after it |
| `Engine.LLMEngine.Reset` | engine/engine.cpp:279-333 | a fresh engine, whatever the KV buffers still hold |
| `Engine.LLMEngine.RunTarget` | engine/engine.cpp:1144-1334 | a batch appends one row and one state update per token |
| `Engine.LLMEngine.SyncMtp` | engine/engine.cpp:903-975 | the MTP cache holds exactly the pairs (token t+1, hidden t), its length and the pending row agree; position 0 and a preserved draft entry included |
| `Engine.LLMEngine.PrefillHidden` | engine/engine.cpp:1144-1334 | target side only; when it refuses |
| `Engine.LLMEngine.PrefillChunk` | engine/engine.cpp:1336-1482 | one chunk keeps target and MTP state in step |
| `Engine.LLMEngine.Prefill` | engine/engine.cpp:1026-1142 | any chunk limit gives the same state and token; when it refuses |
| `Engine.LLMEngine.Decode` | engine/engine.cpp:1484-1566 | one token; when it refuses |
| `Engine.LLMEngine.Draft` | engine/engine.cpp:1608-1674 | drafting leaves the synchronised MTP prefix and the first entry intact; under arg-max the drafts are the draft model's own |
| `Engine.LLMEngine.Verify` | engine/engine.cpp:1747-1787 | which inputs are kept, what is output, and the sampler history; under arg-max a draft is refused only if it differs or the reply stopped |
| `Engine.LLMEngine.RollBack` | engine/engine.cpp:1792-1827 | prefix state, checkpoint with replay, and truncation all leave the state and hidden rows of the kept inputs alone |
| `Engine.LLMEngine.CheckpointFits` | engine/recurrent_checkpoint.h:45-58 | a checkpoint taken before the batch restores the state after any inputs |
| `Engine.LLMEngine.StatelessIsUnchanged` | engine/engine.cpp:1822-1827 | truncation is only used when no recurrent state can have changed |
| `Engine.LLMEngine.VerifyBatch` | engine/engine.cpp:1676-1827 | checkpoint, verification and rollback together |
| `Engine.LLMEngine.SpeculativeDecode` | engine/engine.cpp:1568-1847 | every invariant is kept; consumed tokens, stop and bound on outputs; under arg-max the outputs are plain decoding's, and as many as the draft model's proposals agree with; when it refuses |
| `Generation.ReplyEnds` | examples/cli_common.cpp:588-621 | a reply that has ended is the whole greedy reply; one that has not is shorter |
| `Generation.Advance` | examples/cli_common.cpp:589-608 | one round, with or without MTP, consumes and outputs alike; with MTP under arg-max it gives out every draft up to the first that differs |
| `Generation.DecodeLoop` | examples/cli_common.cpp:588-621 | however it samples, the loop goes on until EOS or the budget and fails only for want of context; under arg-max it ends with the greedy reply exactly if that fits |
| `Generation.GenerateTokens` | examples/cli_common.cpp:534-626 | however it samples, a reply goes on until EOS or the budget, and there is one if the budget fits; under arg-max the same ids with and without MTP, for any draft model: the greedy reply, if and only if it fits; text and EOS flag |
| `Serving.CommonPrefix` | examples/server.cpp:291-296 | the longest common prefix |
| `Serving.Reuse` | examples/main.cpp:427-436 | keeps the cache if it begins the prompt and rebuilds otherwise |
| `Serving.ReuseIsTransparentExactly` | examples/server.cpp:365-392 | reuse answers as a fresh engine does, except in one exactly described case (if and only if) |
| `Serving.ReuseIsTransparent` | examples/server.cpp:365-392 | never with two new tokens, or when the context leaves room for the whole budget |
| `Serving.ReuseCanDiffer` | examples/server.cpp:365-392 | a model and a request where reuse answers and a fresh engine refuses |
| `Serving.Server.Handle` | examples/server.cpp:359-434 | the cached tokens are what the engine consumed; any request is refused or gets a complete reply sampled as asked, and gets one if it is well-formed and its budget fits; a greedy one is answered exactly when its reply fits, with that reply and its text |
| `Serving.Serve` | examples/server.cpp:504-516 | over any run of requests, every greedy reply a fresh engine would give is given, and every request whose budget fits gets a complete reply |
| `Serving.Session.Turn` | examples/main.cpp:414-487 | a turn appends both messages or leaves the history; its reply is complete, however sampled, and comes if the budget fits; under arg-max exactly when it succeeds, and its text |
| `SpecLaw.CorrectionMass` | engine/sampler.cpp:394-403 | a proposal is rejected exactly as often as the correction has mass, so the zero-mass fallback never shows |
| `SpecLaw.CorrectionRestoresTarget` | engine/sampler.cpp:377-404 | acceptance plus correction returns the target distribution for any proposal distribution |
| `SpecLaw.VerdictFactors` | engine/engine.cpp:1747-1787 | the verdict on one draft does not depend on later drafts |
| `SpecLaw.StepKeepsLaw` | engine/engine.cpp:1610-1787 | one speculative step of any depth, completed by later steps, has the target's joint law |
| `SpecLaw.SpeculationKeepsLaw` | engine/engine.cpp:1568-1847 | whole speculative generation has the target's joint law, for any draft model and any depths |
| `Candidates.RankedExactly` | engine/sampler.cpp:42-71 | the ranking holds every token once with its own logit |
| `Candidates.InsertTake` | engine/sampler.cpp:55-64 | how one more candidate changes the best k |
| `Candidates.SortedUnique` | engine/sampler.cpp:67-71 | a ranking is determined by its elements |
| `Candidates.TopK` | engine/sampler.cpp:52-64 | the bounded heap holds the first k of the full ranking |
| `Candidates.PrepareCandidates` | engine/sampler.cpp:42-109 | top-k, then exactly those above the min-p threshold, then the shortest prefix reaching the top-p mass |
| `Softmax.RankedInOrder` | engine/sampler.cpp:67-71 | higher logits come first, and lower ids among equal ones |
| `Softmax.SurvivorsExactly` | engine/sampler.cpp:73-109 | a token has a chance if and only if it is among the top k, hot enough for min-p, and before the top-p mass is reached |
| `Softmax.SurvivorsInProportion` | engine/sampler.cpp:73-76 | and the survivors' chances are as the exponentials of their tempered logits |
| `Sampler.LawIsUnique` | engine/sampler.cpp:142-166 | logits and parameters determine the distribution |
| `Sampler.LawIsDistribution` | engine/sampler.cpp:142-166 | it is non-negative and sums to one |
| `Sampler.DistributionOf` | engine/sampler.cpp:142-166 | the output vector is that distribution |
| `Sampler.PenalisedExactly` | engine/sampler.cpp:280-293 | the penalised logit of a token by how often it occurs in the window: the repetition penalty divides positive and multiplies other logits, presence counts once, frequency every time |
| `Sampler.PenaltyNeverRewards` | engine/sampler.cpp:280-293 | with a repetition penalty of at least 1 and non-negative others no token gains, and exactly which tokens lose |
| `Sampler.PenaltyBelowOneRewards` | engine/sampler.cpp:287-290 | a penalty below 1 raises exactly the repeated tokens whose logit is not 0 |
| `Sampler.RepeatingCostsMore` | engine/sampler.cpp:291-292 | more occurrences never raise a logit, and lower it exactly if there is a frequency penalty |
| `Sampler.Sampler.CountTokens` | engine/sampler.cpp:319-334 | counts over the window of history and extra history together |
| `Sampler.Sampler.Probabilities` | engine/sampler.cpp:304-350 | the law of the logits penalised by history plus extra history |
| `Sampler.SharedContext` | engine/sampler.cpp:304-350 | extra history and committed history give the same distribution |
| `Sampler.Sampler.Sample` | engine/sampler.cpp:256-302 | the logits are restored; the token is an arg-max or a draw from the kept candidates of the penalised logits |
| `Sampler.SampleProbabilities` | engine/sampler.cpp:352-374 | the first positive weight whose cumulative mass reaches the draw |
| `Sampler.DrawInterval` | engine/sampler.cpp:362-373 | a token is drawn on an interval of exactly its weight (if and only if) |
| `Sampler.SameChance` | engine/sampler.cpp:118-166 | a uniform draw samples a token directly exactly on an interval as long as its entry of the distribution (if and only if) |
| `Sampler.SpeculativeSample` | engine/sampler.cpp:377-404 | when the proposal is accepted and what is drawn otherwise |
| `Sampler.DrawIntervals` | engine/sampler.cpp:352-374 | a token is drawn on an interval of the unit draw that is as long as the draw law says |
| `Sampler.ReplyIntervals` | engine/sampler.cpp:377-404 | over two uniform draws the sampler's replies have exactly the chances of the reply law |
| `Sampler.ZeroDrawAccepts` | engine/sampler.cpp:389-393 | a draft of target probability 0 is accepted by a draw of 0 and by no other (if and only if) |
| `SpecStep.VerifyDrafts` | engine/engine.cpp:1747-1787 | the sampling loop: inputs kept, history, and outputs that are the step's for the given draws; the shape the engine's verification expects |
| `SpecStep.StepsAreBoxes` | engine/engine.cpp:1747-1787 | the draws that make a step output given tokens are exactly those in some boxes |
| `SpecStep.BoxesDisjoint` | engine/engine.cpp:1747-1787 | the boxes do not overlap |
| `SpecStep.BoxesProper` | engine/engine.cpp:1747-1787 | they lie in the unit cube |
| `SpecStep.VolumeIsChance` | engine/engine.cpp:1747-1787 | their volume is the chance of those outputs |
| `SpecStep.LongerExactly` | engine/engine.cpp:1747-1787 | a step outputs more than given tokens exactly if the draws accept all those drafts |
| `SpecStep.LawOfSteps` | engine/engine.cpp:1747-1787 | the law of verification is the sum over all outputs of a step of their chance and the chance of what follows |
| `SpecStep.DraftIsDrawn` | engine/engine.cpp:1641-1648 | a draft is drawn on an interval as long as its probability |
| `Sampler.SpeculationIsExact` | engine/engine.cpp:1568-1847 | with any logits of either model and any accepted parameters, speculation has the law of plain sampling |
| `Bpe.LoadMerges` | engine/tokenizer.cpp:235-249 | every rule gets its own rank, that of its last line |
| `Bpe.RoundsFinish` | engine/tokenizer.cpp:751-778 | merging keeps the text and leaves no mergeable pair |
| `Bpe.RoundsAreOneAtATime` | engine/tokenizer.cpp:751-778 | merging by rounds equals merging the leftmost lowest-rank pair one at a time, for ordered rules |
| `Bpe.OrderIsNeeded` | engine/tokenizer.cpp:763-775 | a table and text where the two differ because a rule outranks the one producing its symbol |
| `Bpe.Merge` | engine/tokenizer.cpp:738-779 | the loops compute the rounds |
| `ByteAlphabet.SymbolsDiffer` | engine/tokenizer.cpp:17-42 | different bytes have different characters |
| `ByteAlphabet.BuildByteTables` | engine/tokenizer.cpp:17-42 | the two tables are inverse to each other |
| `ByteAlphabet.UnicodeToBytes` | engine/tokenizer.cpp:714-734 | the decoding loop |
| `ByteAlphabet.DecodedEncoded` | engine/tokenizer.cpp:708-734 | the byte alphabet reads back in one way only |
| `ByteAlphabet.StandsForItself` | engine/tokenizer.cpp:730-731 | text without the alphabet's lead bytes, all ASCII in particular, decodes to itself |
| `PreTokenizer.NextPiece` | engine/tokenizer.cpp:469-701 | one round takes the first applicable alternative, in every branch and both profiles |
| `PreTokenizer.PreTokenize` | engine/tokenizer.cpp:431-704 | the outer loop |
| `PreTokenizer.PiecesPartition` | engine/tokenizer.cpp:431-704 | the pieces partition the text, none empty |
| `PreTokenizer.PieceOnBoundaryExactly` | engine/tokenizer.cpp:469-701 | a piece ends inside a character if and only if the blanks alternative gives back a byte of a longer blank |
| `PreTokenizer.PiecesOnBoundariesExactly` | engine/tokenizer.cpp:431-704 | all cuts of a text fall between characters if and only if no piece does that |
| `PreTokenizer.OverlongSpaceIsCut` | engine/tokenizer.cpp:664-695 | an overlong space is cut in two |
| `PreTokenizer.NewlinesAreLongestExactly` | engine/tokenizer.cpp:643-661 | the newline alternative takes the match its expression would if and only if no newline follows the white space after it |
| `PreTokenizer.NewlinesStopEarly` | engine/tokenizer.cpp:643-661 | a text where it stops early |
| `PreTokenizer.WordEndsBeforeCjkExactly` | engine/tokenizer.cpp:536-580 | a word leaves a CJK run to its own piece if and only if none follows its letters directly |
| `PreTokenizer.WordTakesCjkAlong` | engine/tokenizer.cpp:570-577 | a text of one letter and one CJK character that is one piece |
| `PreTokenizerLaws.Utf8Reads` | engine/tokenizer.cpp:286-293 | every code point is read from its UTF-8 encoding |
| `PreTokenizerLaws.SymbolStandsFor` | engine/tokenizer.cpp:17-42 | the byte alphabet: printable bytes are themselves, the others U+0100 to U+0143 in order |
| `PreTokenizerLaws.ContractionsAre` | engine/tokenizer.cpp:445-464 | the contractions are exactly those of the documented expression, in any case |
| `PreTokenizerLaws.DigitPieces` | engine/tokenizer.cpp:474-486 | staged digit pieces have at most three digits and a shorter one is followed by none; unstaged ones have one |
| `PreTokenizerLaws.StagedPieces` | engine/tokenizer.cpp:488-534 | in the staged profile a CJK run is one piece, and so are an ASCII symbol and all ASCII letters after it, no shorter and no longer |
| `PreTokenizerLaws.CjkStartsAPiece` | engine/tokenizer.cpp:536-570 | there a space or symbol before a CJK run does not take it along |
| `PreTokenizerLaws.WordsAreMaximal` | engine/tokenizer.cpp:536-590 | a word goes on through all letters and marks, with its prefix or without |
| `PreTokenizerLaws.AsciiClasses` | engine/tokenizer.cpp:367-402 | how ASCII characters are classed in both profiles |
| `PreTokenizerLaws.SamplePieces` | engine/tokenizer.cpp:401-431 | a text with contraction, words, digits, punctuation and newlines is cut as the documented expression says |
| `Tokenizer.SplitsPartition` | engine/tokenizer.cpp:784-813 | a splitting at added tokens partitions the text |
| `Tokenizer.SplitAddedTokens` | engine/tokenizer.cpp:784-813 | the earliest, longest added token each time, and none inside plain text |
| `Tokenizer.LoadVocabulary` | engine/tokenizer.cpp:204-229 | an added token has the id of its last listing, every other entry its own; the id table holds only strings under their ids, and all of them if ids are distinct |
| `Tokenizer.BytePairs` | engine/tokenizer.cpp:738-779 | characters, then rounds |
| `Tokenizer.EncodeChunk` | engine/tokenizer.cpp:831-847 | pieces up to the first missing one, then the whole chunk byte by byte |
| `Tokenizer.Encode` | engine/tokenizer.cpp:815-852 | the whole encoder |
| `TokenizerLaw.PiecesSpell` | engine/tokenizer.cpp:738-779 | pieces spell whole bytes, in order |
| `TokenizerLaw.EmittedDecodes` | engine/tokenizer.cpp:834-846 | what a chunk with a missing piece decodes to |
| `TokenizerLaw.RoundTripExactly` | engine/tokenizer.cpp:815-860 | decoding the encoding gives the text if and only if no chunk falls back after its first piece |
| `TokenizerLaw.RoundTripCanFail` | engine/tokenizer.cpp:834-846 | a vocabulary, a merge rule and a text that decodes to something else |
| `TokenizerLaw.ClosedRoundTrip` | engine/tokenizer.cpp:815-860 | a vocabulary closed under its merges round-trips every byte string |
| `StopMatcher.NewStopsStartLate` | examples/cli_common.cpp:634-661 | the bytes kept back suffice: no new stop begins before them |
| `StopMatcher.Matcher.Append` | examples/cli_common.cpp:641-661 | hits if and only if a stop occurs in all bytes so far, cut at the earliest; otherwise nothing is lost |
| `StopGeneration.StopReplyIsGreedy` | examples/cli_common.cpp:574-686 | without stop sequences the reply meant is the plain greedy reply |
| `StopGeneration.StopBudget` | examples/cli_common.cpp:670-683 | a larger budget extends a reply that it finds unfinished, and no other |
| `StopGeneration.GenerateUntilStop` | examples/cli_common.cpp:628-693 | however it samples, the reply goes on until EOS, a stop or the budget, what text is given out, and there is one if the budget fits; under arg-max it succeeds if and only if the reply fits, and gives that |
| `StopGeneration.Generate` | examples/cli_common.cpp:534-693 | both paths together: a complete reply however it samples, certainly if the budget fits; under arg-max the greedy reply up to EOS, a stop or the budget, if and only if it fits |
| `StopGeneration.FlushIsSkippedExactly` | examples/cli_common.cpp:663-668 | the reply without a stop is complete unless its first token is EOS and bytes are held back (if and only if) |
| `StopGeneration.FlushIsSkipped` | examples/cli_common.cpp:663-668 | a stop sequence and a reply whose text is lost |
| `Rwkv.StoredToken` | engine/tokenizer_rwkv.cpp:119-131 | storing a token changes the lookup of its own bytes alone |
| `Rwkv.Tokenizer.Add` | engine/tokenizer_rwkv.cpp:113-131 | one line: trie, id table and vocabulary stay in agreement |
| `Rwkv.Tokenizer.LoadVocabulary` | engine/tokenizer_rwkv.cpp:90-136 | after loading, the trie maps a byte string to an id exactly when the vocabulary does |
| `Rwkv.ConsistentExactly` | engine/tokenizer_rwkv.cpp:98-132 | ids and strings agree if and only if no later line takes the id of a string's last line |
| `Rwkv.RepeatedIds` | engine/tokenizer_rwkv.cpp:115-117 | lines where a repeated id loses a string, and where a later line saves it |
| `Rwkv.Tokenizer.LongestMatch` | engine/tokenizer_rwkv.cpp:160-177 | the inner loop finds the longest vocabulary match |
| `Rwkv.Tokenizer.Encode` | engine/tokenizer_rwkv.cpp:157-183 | the greedy longest-match parse, empty if it gets stuck |
| `Rwkv.EncodingRoundTrips` | engine/tokenizer_rwkv.cpp:90-183 | over a whole file: empty exactly for the empty text or a stuck parse; every other text decodes back if and only if no string's id is taken by a later line |
| `RwkvLiteral.ParseLiteral` | engine/tokenizer_rwkv.cpp:22-88 | the literal parser with all its escapes |
| `RwkvLiteral.LiteralRoundTrip` | engine/tokenizer_rwkv.cpp:19-88 | every byte string survives being written as a literal, of bytes or not, between quotes of either kind and with hexadecimal digits of either case |
| `GraphIo.TakeStringsWritten` | graph/io.cpp:80-86 | counted strings read back exactly within the size limit |
| `GraphIo.MapRoundTrip` | graph/io.cpp:231-241 | metadata reads back from any order of writing |
| `GraphIo.TakeNodesWritten` | graph/io.cpp:255-300 | nodes read back exactly within the limits |
| `GraphIo.PrecisionIsNarrowed` | graph/io.cpp:275-279 | a precision word is taken modulo 256 before it is validated |
| `GraphIo.PrecisionsAreNarrowed` | graph/io.cpp:219-322 | an otherwise valid file within the limits loads if and only if the low byte of every precision word is a precision, and with those |
| `GraphIo.TakeGraphWritten` | graph/io.cpp:219-300 | none of the early size guards, the 92-byte minimum included, rejects a written graph within the limits |
| `GraphIo.RoundTrip` | graph/io.cpp:219-385 | loading a written graph returns it, apart from the hy-v4 migration, if and only if it is within the limits |
| `GraphIo.MigrationStaysValid` | graph/io.cpp:302-315 | the opcode migration keeps validity |
| `GraphIo.MigrationExactly` | graph/io.cpp:302-315 | when the migration fails, and that otherwise it renames opcode 52 to 54 in hy-v4 graphs and changes nothing else |
| `GraphIo.LoadedIsValid` | graph/io.cpp:305-322 | every accepted file satisfies validate_graph and holds no legacy opcode |
| `GraphFormat.LittleEndian` | graph/io.cpp:117-133 | numbers stand least significant byte first |
| `GraphFormat.SampleNode` | graph/io.cpp:352-384 | the bytes of a node with every kind of field |
| `GraphFormat.SampleFile` | graph/io.cpp:337-350 | the bytes of a file: magic, version, counts, metadata, inputs, outputs, nodes |
| `GraphFormat.KnownOpsAre` | graph/graph.h:153-219 | the opcodes that validation knows |
| `GraphFormat.ValidNodesAre` | graph/io.cpp:157-196 | what validation asks of a node: its index as id, a known opcode, one of 17 precisions, dimension kinds 0 to 5, and earlier inputs |
| `GraphFormat.LimitsAre` | graph/io.cpp:26-29 | the limits on nodes, metadata, lists and strings, in numbers |
| `GraphFiles.BinaryReader.ReadGraph` | graph/io.cpp:219-323 | the reader loops accept exactly what the format says |
| `GraphFiles.Validate` | graph/io.cpp:165-213 | validation by loop |
| `GraphFiles.BinaryWriter.WriteMetadata` | graph/io.cpp:341-345 | every pair once, in whatever order the map yields |
| `GraphFiles.BinaryWriter.WriteGraph` | graph/io.cpp:329-385 | the writer produces the format, or fails exactly for sizes over 32 bits |
| `GraphFiles.GraphLoad` | graph/io.cpp:401-417 | a refused file leaves the graph as it was |
| `GraphFiles.GraphSave` | graph/io.cpp:419-438 | what is saved and when |
| `GraphFiles.SaveThenLoad` | graph/io.cpp:401-438 | save and load give the graph back if and only if it is valid, within limits and not legacy |
| `Qsa.Placed` | engine/qsa_companion.cpp:142-205 | every original node and every added block is where the remapping says |
| `Qsa.ExpandedTopological` | engine/qsa_companion.cpp:138-205 | ids stay indices and inputs stay earlier |
| `Qsa.ValuesKept` | engine/qsa_companion.cpp:142-205 | whatever the inputs and constants are bound to, every original node keeps its value at its remapped id, QSA attention read as attention ignoring its last input |
| `Qsa.OutputsKept` | engine/qsa_companion.cpp:206-217 | so do the graph outputs and the MTP tap |
| `Qsa.NewInputsAreFresh` | engine/qsa_companion.cpp:192-197 | a new state name is no existing input's name |
| `Qsa.StatesAreDistinct` | engine/qsa_companion.cpp:192-197 | new state names differ from each other |
| `Qsa.ExtraInputsAre` | engine/qsa_companion.cpp:195-210 | the added graph inputs are exactly the new states |
| `QsaIndexer.RewrittenIsFed` | engine/qsa_companion.cpp:173-202 | following ids in the rewritten graph, each attention node reads last an indexer whose inputs are, in order, the projection of its layer's input, query norm, key norm, frequencies, raw and pooled state, K cache and mask |
| `QsaIndexer.IndexerMeans` | engine/qsa_companion.cpp:173-202 | and the indexer computes its kernel of the original values of those and of what the new constants and states are bound to |
| `QsaIndexer.ExtraInputsInOrder` | engine/qsa_companion.cpp:192-210 | the new states follow the old inputs two by two, unpooled before pooled, in the order of the attention nodes |
| `QsaIndexer.RewrittenMetadata` | engine/qsa_companion.cpp:211-214 | the metadata gains the mark, the tap names the place its node has moved to, and nothing else changes |
| `QsaAttach.IsAncestor` | engine/qsa_companion.cpp:164-172 | the work-list search finds the projection if and only if the query depends on it |
| `QsaAttach.Resolve` | engine/qsa_companion.cpp:104-134 | the first pass accepts if and only if ids, order and state numbers are good, no QSA node exists, and each layer has at most one projection, of its geometry |
| `QsaAttach.CheckAttention` | engine/qsa_companion.cpp:145-172 | an attention node passes if and only if it is supported |
| `QsaAttach.ClaimsExactly` | engine/qsa_companion.cpp:119-132 | what is taken for a layer's projection, and its geometry |
| `QsaAttach.SignatureAccepts` | engine/qsa_companion.cpp:146-163 | the signature test accepts every attention node whose caches are named for a layer and whose geometry fits, and of such names nothing else |
| `QsaAttach.Build` | engine/qsa_companion.cpp:135-206 | the second pass succeeds if and only if every attention node is supported and each layer has exactly one; it builds the rewritten list |
| `QsaAttach.Attach` | engine/qsa_companion.cpp:104-218 | all or nothing: the whole rewrite if and only if the graph meets its conditions, else the graph unchanged |

## Left out

- Device-resident tensors: the executor model is the host path, where CONTIGUOUS
  always materialises and a RESHAPE borrows or copies by an arbitrary choice.
- Kernels that write their inputs (persistent caches, residual updates): kernels are
  functions of their inputs; the planner's pinning of such storage is modelled, its
  contents are not.
- Zero-byte outputs, backend errors other than a refused acquisition, pool buckets,
  prefetching, profiling, tracing and node dumps.
- `execute_graph_moe_pair`, `initialize_execution_frame` and shape evaluation: row
  counts are an arbitrary function of the node.
- Passes.PassComputesGraph: assumes that both ends of a MoE/inject chain have the
  same run-time row count (`RowsConsistent`), as shape-consistent graphs do.
- Liveness.PrepareRelease: assumes that sources have no inputs and views at least
  one, which converters guarantee and `validate_graph` does not check.
- Failure in the middle of an engine step (a failed graph run or snapshot): the
  model's steps either refuse at their guards or succeed.
- Engine.LLMEngine.Verify: when sampling is not arg-max, draws are arbitrary;
  `SpecStep.VerifyDrafts` is the same loop with its draws given.
- SpecStep.VerifyDrafts: each place of a step has its own two uniform draws, where the
  generator makes the second only when it is needed; that a uniform draw falls into a
  box with the chance of its volume is not formalised.
- Bpe.RoundsAreOneAtATime: its condition is sufficient; which disordered tables still
  agree on every text depends on the symbols that a text can reach.
- Sampler.SpeculationIsExact: over the reals, so rounding, overflow and the
  non-finite guards of the sampler have no counterpart; the uniform generator is a
  parameter.
- Vision prefill, multimodal positions, MTP statistics, worker parking and timing.
- Serving.Server.Handle: starts from the rendered prompt; whether a request parses and
  its budget and sampling parameters are valid are flags of the request, and HTTP,
  JSON and streaming events are not modelled.
- Calls.RunConserves: assumes that a call that reuses the workspace makes views of the
  same RESHAPE nodes as the call before it, as calls of one shape do, and that a
  caller's storage is not the executor's own.
- Serving.Session.Turn: the chat template is an arbitrary function of the history.
- PreTokenizer.PreTokenize: the Unicode tables of letters, marks, symbols and CJK
  ranges are arbitrary functions, so the results hold for any tables.
- Tokenizer.SplitAddedTokens: for non-empty added tokens; an empty one makes the
  source's loop run forever.
- TokenizerLaw.RoundTripExactly: for added tokens without a lead byte of the byte
  alphabet (C2 to C5), and token-by-token decoding; the list decoder, which drops
  special tokens, is not modelled.
- Rwkv.Tokenizer.LoadVocabulary: starts from lines already split into id and
  literal; the file itself and number parsing are not modelled.
- GraphFormat.LittleEndian: on little-endian hosts; the source copies numbers in the
  byte order of the host.
- GraphFiles.GraphSave: writing to the file system always succeeds.
- GraphFiles.GraphLoad: the runtime tensors, weights and pool of the replaced graph.
- QsaAttach.Attach: begins after the manifest, hash and file checks, and for graphs
  small enough that the added ids fit 32 bits; decimal numerals are any functions
  that read back what they write.
- Chat templates, GGUF and safetensors conversion, the expert cache, the model
  loader and package code.
