# Sharded proving: a verified model

zkie turns an ONNX graph into a list of tensor instructions, cuts the list into shards small enough to prove, proves
each shard separately, and combines the shard proofs into one manifest. This project models the parts of that pipeline
whose mistakes no single proof would show, and proves what they promise together.

The central question is whether the pieces add up to the whole. Every shard is run on its own, from boundary values it
merely claims to have received; all that connects it to its neighbours is that both sides commit to the same values.
The main results say that this is enough:

- **One run.** If every shard's own run is right for the values it claims and the manifest is accepted, then all shard
  runs laid end to end are one run of the whole program on one set of graph inputs
  (`GlobalSoundness.GloballyCorrect`, `AcceptedManifestIsOneRun`, `AggregateRuns`), and the published outputs are
  commitments to that run's values (`PublishedOutputsAreTheRuns`).
- **And back.** Shards run in order on one set of graph inputs, each proved by a prover that passed the template
  check, make statements that are admitted and accepted; both conditions under which this holds are exact
  (`LeafProver.ProversAreHonest`, `HonestRuns.HonestRunIsAccepted`).
- **Sharding preserves meaning.** Shards bound and run in order give exactly the values of the unsharded lowering, and
  a shard that is rejected means the whole program is (`ShardedExecution`).
- **The tree is the flat check.** Merging claims up a tree of any fan-in succeeds exactly when a check that knows
  nothing of the tree does, which on edges is the linker's check (`NativeManifest`, `AggregationRefinement`).
- **Compilation preserves meaning.** The compiled program computes the unique solution of the graph's equations, with
  all RMSNorm decompositions fused at once; one instruction computes what the seven nodes do, operator by operator
  (`CompiledMeaning`, `FusedMeaning`, `GraphMeaning`, `RmsNormFusion`).
- **The job tables stay right.** At every point of every run whose dependencies can be taken on when they are added, a
  job is blocked exactly when something it descends from has failed for good (`RunHistory.EveryRun`; which dependencies
  those are is `RunOperations.AddKeepsExactly`). Its row records exactly what was done to it, so no run retries it more
  often than allowed (`RunLog`).

## How the model is built

Instructions get their meaning from a parameter, a partial function from an instruction and operand tensors to a
tensor; `TensorOps` and `HostValues` give the concrete meaning of matrix products and elementwise operations over
wrapping or checked machine integers. Commitments are a parameter assumed injective, as far as the theorem needs it.

| Area | Modules |
|---|---|
| programs and their meaning | `Program`, `Assembler`, `Lowering`, `CircuitBinding` |
| the shard DAG and its planning | `DagModel`, `DagBuilder`, `Partition` |
| binding and running shards | `BoundaryLayouts`, `ShardSemantics`, `ShardBinding`, `ShardBinder`, `ShardRuns`, `ShardedExecution` |
| the witness backend and the leaf prover | `WitnessCpu`, `WitnessTemplate`, `TemplateCheck`, `WitnessExecution`, `LeafProver` |
| aggregation | `AggregationPlan`, `PublicBoundary`, `Claims`, `LeafAdmission`, `ClaimMerge`, `NativeManifest`, `Linker`, `AggregationRefinement`, `ManifestText`, `ManifestRoom`, `FullestManifest`, `ManifestEncoding`, `RefusedRun`, `GlobalSoundness`, `HonestRuns` |
| the graph compiler | `OnnxGraph`, `RmsNormFusion`, `TopologicalSort`, `GraphCompiler`, `FusedMeaning`, `CompiledMeaning`, `GraphMeaning`, `CompileSuccess` |
| arithmetic | `FixedPoint`, `TensorOps`, `HostValues` |
| encodings | `ByteCodec`, `LeafStatements`, `StatementCodec`, `ShapeBytes`, `ShapeEncoder` |
| running the jobs | `Resources`, `Scheduler`, `BestFitOrder`, `JobStates`, `RunTables`, `FailurePropagation`, `RunSteps`, `RunOperations`, `RunHistory`, `RunLog`, `JobLifecycle`, `RunDatabase` |

Code that loops or mutates is written as methods and classes and proved against specification functions; the lemmas
are about those functions. `dafny verify dfyconfig.toml` verifies everything.

## Model

| member | source | states |
|---|---|---|
| `DagModel.ShardOfTotal` | crates/zkie-compiler/src/dag/model.rs:184-189 | every instruction has an owning shard whose range contains it, whatever the ranges' lengths |
| `DagModel.ShardOfMonotone` | crates/zkie-compiler/src/dag/model.rs:184-189 | later instructions never have earlier owners |
| `DagModel.EdgesExact` | crates/zkie-compiler/src/dag/model.rs:195-291 | an edge is exactly a value made in one shard and read in another, and always goes forward |
| `DagModel.SequentialExact` | crates/zkie-compiler/src/dag/model.rs:237-242 | an edge is Sequential exactly when the next shard is the value's only other reader |
| `DagModel.ShardInputsExact` | crates/zkie-compiler/src/dag/model.rs:195-291 | a shard's inputs are exactly the earlier values it reads, ascending and once each |
| `DagModel.ShardOutputsExact` | crates/zkie-compiler/src/dag/model.rs:195-291 | a shard's outputs are exactly its values that other shards read, ascending and once each |
| `DagModel.EdgeIdInjective` | crates/zkie-compiler/src/dag/model.rs:268-276 | different dependencies have different identifiers |
| `DagModel.EdgeIdOrder` | crates/zkie-compiler/src/dag/model.rs:256-277 | sorting by zero-padded identifier text is sorting by producer, consumer and register number |
| `DagModel.EdgesOrdered` | crates/zkie-compiler/src/dag/model.rs:256-277 | no dependency is listed twice and the final order is both text order and numeric order |
| `DagBuilder.CollectConsumers` | crates/zkie-compiler/src/dag/model.rs:195-226 | def-use analysis fails exactly on a forward or out-of-range read, and otherwise tracks exactly the crossing reads |
| `DagBuilder.BuildDag` | crates/zkie-compiler/src/dag/model.rs:160-292 | succeeds exactly on contiguous ranges over backward-reading programs, giving the exact DAG; otherwise says which check failed |
| `Partition.BestHint` | crates/zkie-compiler/src/dag/partition.rs:412-422 | the hint chosen is inside the range and beats every other eligible one by priority, then by position, then by the smaller label |
| `Partition.CheckRangeExact` | crates/zkie-compiler/src/dag/partition.rs:392-410 | a range is accepted exactly when its shard can be estimated, its instructions' memory adds up to at most the target, none needs a larger circuit than allowed, and neither does the shard; otherwise the refusal is the estimate's own or an overflow |
| `Partition.ChooseEnd` | crates/zkie-compiler/src/dag/partition.rs:313-360 | a chosen range is feasible and ends where growing it by one instruction would break a budget, or at the best hint before that |
| `Partition.ValidateDag` | crates/zkie-compiler/src/dag/partition.rs:459-476 | the consistency check on the derived DAG always passes, so that error is unreachable |
| `Partition.Plan` | crates/zkie-compiler/src/dag/partition.rs:285-390 | a plan is a partition into nonempty ranges with the exact DAG, each cut where growing it and the hints say, whose instructions together, one by one, and as a shard keep the memory and size limits; planning cannot fail when every estimate exists and every instruction fits alone; every refusal names the first check that fails |
| `Partition.GreedyOptimal` | crates/zkie-compiler/src/dag/partition.rs:313-376 | without hints, and when parts of feasible ranges are feasible, no feasible partition has fewer shards |
| `BoundaryLayouts.NewLayout` | crates/zkie-compiler/src/shard_binding.rs:51-63 | a layout is refused exactly when a register is declared twice, and otherwise holds the same declarations, sorted |
| `Assembler.Assign` | crates/zkie-core/src/assembler.rs:618-711 | the instruction loop computes the run of the program, one virtual per instruction |
| `Lowering.LoweredRunIsEval` | crates/zkie-core/src/assembler.rs:651-700 | any lowering with the right slots, run by index, computes what the range means register by register |
| `Lowering.LoweringUnique` | crates/zkie-compiler/src/circuit_binding.rs:92-167 | the slot orders determine the lowered instructions |
| `Lowering.WeightSlot` | crates/zkie-compiler/src/circuit_binding.rs:155-164 | a weight gets one slot, on first use, holding its converted values |
| `CircuitBinding.ResolveRegister` | crates/zkie-compiler/src/circuit_binding.rs:141-167 | resolving a register fails exactly when it cannot be bound, and otherwise denotes it and extends the weight order |
| `CircuitBinding.ToAssemblerProgram` | crates/zkie-compiler/src/circuit_binding.rs:92-139 | lowering succeeds exactly when every input is given and every weight converts, and gives the lowering with inputs in declared order |
| `CircuitBinding.AssemblerProgramMeaning` | crates/zkie-compiler/src/circuit_binding.rs:92-139 | the unsharded lowering means what the compiled program means |
| `ShardBinder.CollectExternal` | crates/zkie-compiler/src/shard_binding.rs:290-316 | the scan collects exactly the registers read from outside, and fails exactly on an undeclared or forward read |
| `ShardBinder.BindInputs` | crates/zkie-compiler/src/shard_binding.rs:318-354 | inputs are bound exactly when every external register is declared and supplied with its length, each slot holding its value |
| `ShardBinder.CollectOutputs` | crates/zkie-compiler/src/shard_binding.rs:401-422 | the output set is the DAG's outputs and the graph outputs of the range, each with its published names |
| `ShardBinder.RebuildMatches` | crates/zkie-compiler/src/shard_binding.rs:259-270 | rebuilding the DAG always agrees with the plan, so that refusal is unreachable |
| `ShardBinder.BindShardProgram` | crates/zkie-compiler/src/shard_binding.rs:218-452 | a shard is bound exactly when the plan is for this program and everything it needs is supplied and declared; the result is the lowered range with described boundaries; every refusal is justified |
| `ShardBinding.BoundMeaning` | crates/zkie-compiler/src/shard_binding.rs:355-399 | a bound shard, run by local index, computes its range of the program |
| `ShardedExecution.ShardingPreservesMeaning` | crates/zkie-compiler/src/shard_binding.rs:290-399 | shards run in order, each fed from the ones before, compute one run of the whole program |
| `ShardedExecution.ShardedRunIsUnshardedRun` | crates/zkie-compiler/src/shard_binding.rs:355-399 | the concatenated shard runs are what the unsharded lowering's loop returns |
| `ShardedExecution.ShardRejectionIsWholeRejection` | crates/zkie-compiler/src/shard_binding.rs:355-399 | a shard rejected on values fed from the ones before means the whole program is rejected |
| `WitnessCpu.LowerFirstSeen` | crates/zkie-prover/src/witness_cpu.rs:1014-1080 | numbering registers as first read succeeds exactly when all can be fetched, and gives the lowering in that order |
| `WitnessCpu.LoadAssemblerProgram` | crates/zkie-prover/src/witness_cpu.rs:1014-1080 | an artifact that recorded every external read rebuilds to a lowering of the range |
| `WitnessCpu.LoweringsAgree` | crates/zkie-prover/src/witness_cpu.rs:1018-1061 | the first-seen and the key-ordered lowering differ by a permutation of input slots only and compute the same |
| `WitnessCpu.LoweringsIdenticalIff` | crates/zkie-prover/src/witness_cpu.rs:1878-1890 | they are the same program exactly when the two orders are the same |
| `WitnessTemplate.CompareTemplate` | crates/zkie-prover/src/witness_cpu.rs:458-520 | a template equals its rebuilt program exactly when it is the first-seen lowering around its own boundary tensors |
| `TemplateCheck.ValidateAssemblerTemplate` | crates/zkie-prover/src/witness_cpu.rs:453-546 | a template is accepted exactly when it is that lowering, its public outputs ascend and lie within it, and its RMSNorm domains are the configured ones |
| `WitnessTemplate.BoundPassesTemplateIff` | crates/zkie-prover/src/witness_cpu.rs:453-546 | a bound shard passes that check exactly when its range first reads external registers in key order |
| `WitnessTemplate.VirtualBeforeGraphInput` | crates/zkie-prover/src/witness_cpu.rs:1878-1890 | a range that reads an earlier value before a graph input does not |
| `LeafProver.MakeStatement` | crates/zkie-prover/src/halo2_cpu.rs:419-526 | a statement is made exactly when the loaded tensors and public values have the declared counts and the limits hold; it claims the declared inputs position by position, and outputs cut from the public values by the declared counts |
| `LeafProver.PairingRightIff` | crates/zkie-prover/src/halo2_cpu.rs:469-486 | pairing key-ordered boundaries with first-seen tensors gives each its own value, whatever the values, exactly when the range first reads its registers in key order |
| `LeafProver.StatementStatesRun` | crates/zkie-prover/src/halo2_cpu.rs:199-315 | a prover that passed the template check states, for any run of its shard, exactly that run, as long as every output has its declared length and no further |
| `LeafProver.ProversAreHonest` | crates/zkie-prover/src/halo2_cpu.rs:419-526 | shards run in order and each proved by its own prover are an honest run exactly when every output has its declared length |
| `WitnessExecution.ValidateSuppliedInputs` | crates/zkie-prover/src/witness_cpu.rs:663-718 | the supplied tensors are accepted exactly when they are the configured boundary with the configured lengths; the size limits never refuse what configuration accepted |
| `WitnessExecution.ExternalResolves` | crates/zkie-prover/src/witness_cpu.rs:720-764 | on a configured shard with exact inputs no register lookup is ever refused |
| `WitnessExecution.CheckRecords` | crates/zkie-prover/src/witness_cpu.rs:640-650 | the record count always equals the configured one, so neither record refusal is reachable |
| `WitnessExecution.RecordedSize` | crates/zkie-prover/src/witness_cpu.rs:1584-1597 | an execution records as many inputs as configuration counted: weights, graph inputs and virtual inputs |
| `WitnessExecution.Execute` | crates/zkie-prover/src/witness_cpu.rs:560-661 | execution succeeds exactly when the range evaluates within the limits; the artifact holds exactly what was read, computed and published |
| `WitnessExecution.ExecuteAndReload` | crates/zkie-prover/src/witness_cpu.rs:560-661 | rebuilding a program from an execution's own artifact never fails, and the program computes the same |
| `AggregationPlan.PlanAggregation` | crates/zkie-prover/src/aggregation.rs:321-403 | planning succeeds exactly for fan-ins 2 to 16 and a partition within limits; the level and progress errors inside the loop are unreachable |
| `AggregationPlan.TreeHeight` | crates/zkie-prover/src/aggregation.rs:345-381 | a tree over at most 65536 leaves has at most 16 levels |
| `AggregationPlan.TreeArities` | crates/zkie-prover/src/aggregation.rs:345-381 | every node has 2 to fan-in children, and the arities less one sum to the leaves less one |
| `AggregationPlan.LeavesInOrder` | crates/zkie-prover/src/aggregation.rs:345-381 | read left to right the leaves are shards 0 to n-1, for every fan-in |
| `AggregationPlan.ChildExactlyOnce` | crates/zkie-prover/src/aggregation.rs:345-381 | every leaf and node but the root is a child exactly once, and nothing else is |
| `AggregationPlan.ChildrenEarlier` | crates/zkie-prover/src/aggregation.rs:345-381 | a node's children were made at earlier levels |
| `Claims.NewDagIndex` | crates/zkie-prover/src/aggregation.rs:438-461 | the index exists exactly for forward edges with unique identifiers within limits |
| `Claims.LeafSatisfies` | crates/zkie-prover/src/aggregation.rs:523-696 | an admitted leaf satisfies the claim invariant over its own shard |
| `LeafAdmission.AddClaim` | crates/zkie-prover/src/aggregation.rs:603-651 | a boundary claim is admitted exactly when it is routed or public, every edge it names ends here and is still free; it fills exactly those slots |
| `LeafAdmission.AdmitVerifiedLeaf` | crates/zkie-prover/src/aggregation.rs:523-696 | a leaf is admitted exactly when its statement covers its incident edges once each, names each under its register, and publishes what was expected; the claim states the statement's commitments, and every refusal has its cause |
| `PublicBoundary.MergePublicInputs` | crates/zkie-prover/src/aggregation.rs:1311-1330 | merging fails exactly when a graph input would get two different bindings, and never costs more than its parts |
| `PublicBoundary.MergePublicOutputs` | crates/zkie-prover/src/aggregation.rs:1332-1362 | merging fails exactly when an output name would be claimed twice, and never costs more than its parts |
| `ClaimMerge.MergeFrontier` | crates/zkie-prover/src/aggregation.rs:763-781 | open edges are joined slot by slot |
| `ClaimMerge.BudgetHolds` | crates/zkie-prover/src/aggregation.rs:792-806 | the boundary budget check never fires for leaves admitted under trusted expectations |
| `ClaimMerge.Absorb` | crates/zkie-prover/src/aggregation.rs:739-806 | absorbing the next claim keeps the claim invariant; coverage overlap, double closing and filled slots never happen, and only a clash of published boundaries refuses |
| `ClaimMerge.CloseEdges` | crates/zkie-prover/src/aggregation.rs:807-848 | every edge with both ends covered is compared and closed once; what stays open is exactly the cut |
| `ClaimMerge.MergeVerifiedClaims` | crates/zkie-prover/src/aggregation.rs:708-868 | a node's merge succeeds exactly when its children are the planned ones of one run and nothing inside disagrees; the result satisfies the claim invariant; each refusal is justified |
| `NativeManifest.AdmittedWithinBudget` | crates/zkie-prover/src/aggregation.rs:237-284 | leaves admitted as expected stay within the budget the expectations were checked against |
| `NativeManifest.RootPasses` | crates/zkie-prover/src/aggregation.rs:991-1024 | a claim over all shards passes the final check: all covered, all edges closed, none open |
| `NativeManifest.BuildNativeManifest` | crates/zkie-prover/src/aggregation.rs:1059-1131 | over admitted leaves the build succeeds exactly when the flat check accepts them, and the root satisfies the claim invariant over all shards |
| `AggregationRefinement.BuildManifest` | crates/zkie-prover/src/aggregation.rs:1059-1131 | the same, as the property the next theorems start from |
| `AggregationRefinement.FanInDoesNotMatter` | crates/zkie-prover/src/aggregation.rs:1059-1131 | builds over the same proofs with any two fan-ins succeed alike and agree on every map of the root |
| `AggregationRefinement.FlatIsStatementsAgree` | crates/zkie-prover/src/aggregation.rs:1059-1131 | the flat check is a condition on the leaf statements alone |
| `AggregationRefinement.FlatEdgesAreLinked` | crates/zkie-compiler/src/dag/linker.rs:84-136 | on the same commitments the tree's edge condition and the linker's check accept the same |
| `Linker.LinkExact` | crates/zkie-compiler/src/dag/linker.rs:84-136 | linking succeeds exactly when every proof is present, in place and valid, and every edge's commitments agree |
| `Linker.RefusalJustified` | crates/zkie-compiler/src/dag/linker.rs:84-136 | a refusal names a proof that is missing, misplaced or invalid, or an edge whose commitments are absent or differ |
| `ManifestRoom.BoundaryWithin` | crates/zkie-prover/src/aggregation.rs:1243-1254 | the budget's bound on an entry is at least its JSON text with the comma before it |
| `ManifestRoom.RestWithin` | crates/zkie-prover/src/aggregation.rs:914-952 | a manifest of decoded statements within the public budget leaves its proof flavor at least 14378 bytes |
| `ManifestText.EncodesExactly` | crates/zkie-prover/src/aggregation.rs:914-923 | the JSON text is as long as its parts, so a manifest is refused for its size exactly when they and the escaped flavor exceed the limit |
| `ManifestRoom.RoomyFlavorFits` | crates/zkie-prover/src/aggregation.rs:914-923 | within the public budget every flavor of at most 14378 escaped bytes fits |
| `ManifestRoom.OrdinaryFlavorFits` | crates/zkie-prover/src/aggregation.rs:914-923 | so does every flavor without control characters, and every flavor of at most 2396 characters |
| `FullestManifest.FlavorRoomExact` | crates/zkie-prover/src/aggregation.rs:914-923 | all manifests with a given flavor are written exactly when the escaped flavor is at most 14378 bytes |
| `ManifestEncoding.BuildEncodedManifest` | crates/zkie-prover/src/aggregation.rs:991-1131 | over decoded statements, a run the flat check accepts is refused while its manifest is written only when its flavor escapes to more than 14378 bytes; the manifest publishes exactly what the leaves do, under their flavor |
| `RefusedRun.ControlFlavorRefused` | crates/zkie-prover/src/aggregation.rs:991-1057 | a proof whose statement decodes, that is expected, admitted and accepted, and whose manifest is refused for its size whatever its digests |
| `GlobalSoundness.GloballyCorrect` | crates/zkie-compiler/src/shard_binding.rs:290-399 | separately run shards whose statements agree are one run of the whole program on one set of graph inputs |
| `GlobalSoundness.AcceptedManifestIsOneRun` | crates/zkie-prover/src/aggregation.rs:739-848 | an accepted manifest is enough for that |
| `GlobalSoundness.AggregateRuns` | crates/zkie-prover/src/aggregation.rs:1059-1131 | planning, building and accepting the manifest gives that run |
| `GlobalSoundness.PublishedOutputsAreTheRuns` | crates/zkie-prover/src/aggregation.rs:1332-1362 | every output claim commits to that run's value at its register, under the names the boundary publishes |
| `HonestRuns.HonestStatementsAgree` | crates/zkie-prover/src/aggregation.rs:739-848 | statements of shards run in order on one set of graph inputs pass the flat check exactly when no graph output name belongs to values of two shards |
| `HonestRuns.HonestIsAdmissible` | crates/zkie-prover/src/aggregation.rs:523-696 | a shard's own statement names exactly its ends of the DAG's edges, so that it is admitted exactly when its envelope and public boundaries are the expected ones |
| `HonestRuns.HonestRunIsAccepted` | crates/zkie-prover/src/aggregation.rs:1059-1131 | the manifest of an honest run is built exactly when everything is declared as expected and no graph output name belongs to values of two shards |
| `HonestRuns.CompiledNamesInOneShard` | crates/zkie-compiler/src/graph_compiler.rs:372-391 | in a compiled program no name belongs to values of two shards |
| `TopologicalSort.CountProducers` | crates/zkie-compiler/src/graph_compiler.rs:197-222 | the distinct producers of a node's inputs are counted once each, the node itself left out |
| `TopologicalSort.TopologicalOrder` | crates/zkie-compiler/src/graph_compiler.rs:197-246 | Kahn's loop returns a producers-first permutation of all nodes exactly when the dependencies are acyclic |
| `TopologicalSort.OrderIsAcyclic` | crates/zkie-compiler/src/graph_compiler.rs:197-246 | a producers-first order of all nodes rules out cycles |
| `TopologicalSort.StuckIsCyclic` | crates/zkie-compiler/src/graph_compiler.rs:236-245 | nodes left over when the worklist empties contain a cycle |
| `RmsNormFusion.CollectConsumers` | crates/zkie-compiler/src/rms_norm_fusion.rs:98-135 | the consumer lists record every read of every name |
| `RmsNormFusion.MatchExact` | crates/zkie-compiler/src/rms_norm_fusion.rs:137-263 | matching from a node finds exactly the seven-node decompositions that begin there |
| `RmsNormFusion.DetectRmsNormFusions` | crates/zkie-compiler/src/rms_norm_fusion.rs:98-135 | detection lists exactly the matches of the graph, in node order |
| `RmsNormFusion.SevenNodes` | crates/zkie-compiler/src/rms_norm_fusion.rs:137-263 | the seven nodes of a match are seven different nodes |
| `RmsNormFusion.MatchesDisjoint` | crates/zkie-compiler/src/rms_norm_fusion.rs:137-263 | different matches share no node |
| `RmsNormFusion.IntermediatesStayInside` | crates/zkie-compiler/src/rms_norm_fusion.rs:137-263 | no node outside a match reads a tensor the fused form drops |
| `RmsNormFusion.InputSurvives` | crates/zkie-compiler/src/rms_norm_fusion.rs:137-263 | a match's input is never dropped by another match |
| `RmsNormFusion.EpsilonNearest` | crates/zkie-compiler/src/rms_norm_fusion.rs:252 | the epsilon a match keeps is the nearest number of thousandths, halves up, within 64 bits |
| `RmsNormFusion.EpsilonKept` | crates/zkie-compiler/src/rms_norm_fusion.rs:252 | it is the graph's own epsilon exactly when that is a whole number of thousandths within 64 bits |
| `RmsNormFusion.MillionthLost` | crates/zkie-compiler/src/rms_norm_fusion.rs:252 | an epsilon of one millionth becomes zero |
| `FusedMeaning.SevenNodesNormalize` | crates/zkie-compiler/src/rms_norm_fusion.rs:1-60 | whatever solves the seven nodes' equations, the last product is the input over the root of its mean square plus epsilon, scaled, in either order of the operands |
| `FusedMeaning.FusedHolds` | crates/zkie-compiler/src/rms_norm_fusion.rs:1-60 | the fused instruction, on the input and the scale in that order, then means what the seven nodes do, as long as fusing keeps their constants and the input has the scale's size |
| `GraphCompiler.CompileGraph` | crates/zkie-compiler/src/graph_compiler.rs:251-409 | compiling is ordering, planning the fusions and running the node actions in that order, and cyclic graphs are refused |
| `CompiledMeaning.CompilationPreservesMeaning` | crates/zkie-compiler/src/graph_compiler.rs:251-392 | the compiled program runs exactly when every value it needs exists, computes the graph's values, gives the outputs theirs, and only reads earlier instructions |
| `CompiledMeaning.FusionPreservesMeaning` | crates/zkie-compiler/src/graph_compiler.rs:251-392 | the same with nothing assumed of matches but that the graph's operators and the fused instruction are about the same arithmetic |
| `GraphMeaning.EvaluationSolves` | crates/zkie-compiler/src/graph_compiler.rs:197-246 | evaluating nodes in a producers-first order solves the graph's equations |
| `GraphMeaning.OneMeaning` | crates/zkie-compiler/src/graph_compiler.rs:197-246 | the equations have one solution, whatever order they are evaluated in |
| `CompileSuccess.NodesCompileExact` | crates/zkie-compiler/src/graph_compiler.rs:282-317 | every node left after fusion compiles exactly when it did on names alone: fusing loses no input |
| `CompileSuccess.CompilesExactly` | crates/zkie-compiler/src/graph_compiler.rs:251-392 | a single-assignment graph compiles exactly when its nodes do and no graph output is dropped by fusion; when only the latter fails, such an output is reported |
| `CompileSuccess.ExampleOutputLost` | crates/zkie-compiler/src/graph_compiler.rs:372-384 | a graph that publishes the normalized value as well as the scaled one: whatever the operator table every node compiles and both outputs are written, and compiling reports the normalized one as unresolved |
| `CompileSuccess.FusionTakesNothingAway` | crates/zkie-compiler/src/op_mapper.rs:248-282 | with an operator table that refuses powers, roots and reciprocals, a graph that compiles node by node has no match, so that fusion changes nothing |
| `FixedPoint.RequantizeRaw` | crates/zkie-core/src/fixed_point.rs:51-63 | the quotient is the value over 10^18 rounded down, with a remainder below the scale, and is refused exactly when it leaves 64 bits |
| `FixedPoint.WrappedRounds` | crates/zkie-core/src/assembler.rs:840-901 | a wrapped sum rounds to the exact quotient exactly when it did not need wrapping |
| `TensorOps.ComputeDotGeneral` | crates/zkie-prover/src/witness_cpu.rs:794-853 | the product loops compute the matrix product, refused exactly on a wrong shape or an overflow |
| `TensorOps.ProductRounds` | crates/zkie-prover/src/witness_cpu.rs:804-853 | every output entry times the scale is its exact sum up to a remainder below the scale |
| `TensorOps.PositionsInBounds` | crates/zkie-prover/src/witness_cpu.rs:829-841 | every operand index of a product is in bounds |
| `TensorOps.TransposedTwice` | crates/zkie-prover/src/witness_cpu.rs:829-841 | transposing twice gives the stored matrix back |
| `TensorOps.FlagAIsTranspose` | crates/zkie-prover/src/witness_cpu.rs:829-841 | a transposition flag on the first operand means no flag on its transpose |
| `TensorOps.FlagBIsTranspose` | crates/zkie-prover/src/witness_cpu.rs:829-841 | a transposition flag on the second operand means no flag on its transpose |
| `TensorOps.LeftIdentity` | crates/zkie-prover/src/witness_cpu.rs:804-853 | the identity matrix times a matrix is that matrix, with no rounding |
| `TensorOps.RightIdentity` | crates/zkie-prover/src/witness_cpu.rs:804-853 | and so is a matrix times the identity |
| `TensorOps.ElementwiseAdds` | crates/zkie-prover/src/witness_cpu.rs:856-892 | addition succeeds exactly when one length divides the other and every sum fits 64 bits, and gives those sums along the longer operand |
| `TensorOps.ElementwiseMultiplies` | crates/zkie-prover/src/witness_cpu.rs:856-892 | multiplication succeeds exactly when one length divides the other and every rounded product fits 64 bits, and gives those |
| `HostValues.HostEntryExact` | crates/zkie-core/src/assembler.rs:840-901 | an entry the assembler accepts is right exactly when its exact sum fits 128 bits |
| `HostValues.HostAcceptsWrapped` | crates/zkie-core/src/assembler.rs:840-901 | four products that wrap to zero are accepted as zero |
| `HostValues.HostAcceptsMore` | crates/zkie-core/src/assembler.rs:840-901 | a sum that fits although a partial one does not is computed right by the assembler and refused by the witness backend |
| `HostValues.WitnessEntryExact` | crates/zkie-prover/src/witness_cpu.rs:826-853 | the witness backend accepts an entry exactly when the assembler does and no partial sum overflows |
| `HostValues.WitnessProductIsHost` | crates/zkie-core/src/assembler.rs:778-909 | what the witness backend accepts, the assembler computes alike wherever the inner size has a chip |
| `HostValues.HostProductSized` | crates/zkie-core/src/assembler.rs:778-839 | the assembler gives a product only of operands of the stated sizes, within 64 bits, for an inner size with a chip |
| `HostValues.EltwiseAgrees` | crates/zkie-core/src/assembler.rs:910-1071 | pushing checked sums and rounded products one by one accepts and gives what the witness backend does, and the assembler panics exactly on one empty operand |
| `HostValues.DotGeneralRounds` | crates/zkie-prover/src/witness_cpu.rs:770-853 | a product instruction's own sizes and flags say which sum each entry of its result rounds |
| `HostValues.WitnessRunIsHostRun` | crates/zkie-core/src/assembler.rs:651-700 | a run the witness backend's arithmetic completes, the assembler's completes with the same values |
| `ByteCodec.NumberExact` | crates/zkie-prover/src/statement.rs:456-461 | reading a little-endian number succeeds exactly on what writing it puts there |
| `ByteCodec.AllExact` | crates/zkie-prover/src/statement.rs:474-514 | the same for a list of entries, whatever follows it |
| `LeafStatements.EncodedLenExact` | crates/zkie-prover/src/statement.rs:297-332 | the length computed ahead of writing is the length written |
| `LeafStatements.DecodeExact` | crates/zkie-prover/src/statement.rs:267-385 | decoding accepts exactly what encoding a valid statement writes, and gives that statement |
| `LeafStatements.DecodedEdgesOnce` | crates/zkie-prover/src/statement.rs:334-385 | no claim of a decoded statement names an edge twice |
| `StatementCodec.EncodeStatement` | crates/zkie-prover/src/statement.rs:267-295 | the writer computes the specified encoding, or refuses with it |
| `StatementCodec.DecodeStatement` | crates/zkie-prover/src/statement.rs:334-385 | the cursor decoder computes the specified decoding |
| `ShapeBytes.CanonicalShapeBytesInjective` | crates/zkie-core/src/program_circuit.rs:57-226 | circuit parameters with equal canonical bytes are equal in every field written |
| `ShapeEncoder.EncodeCanonicalShape` | crates/zkie-core/src/program_circuit.rs:57-226 | the encoder writes exactly those bytes |
| `Resources.NewCapacity` | crates/zkie-types/src/resource.rs:79-92 | a capacity holds exactly what it is made from, and is refused exactly when its device count and memory disagree or overflow together |
| `Resources.NewRequest` | crates/zkie-types/src/resource.rs:14-28 | a request holds exactly what it is made from, and is refused exactly when it asks for no core or its device fields disagree or overflow together |
| `Resources.CheckedReserve` | crates/zkie-types/src/resource.rs:101-117 | reserving succeeds exactly when the request fits and subtracts it; a device keeps its memory until the last one is taken |
| `Resources.ReserveKeepsConsistent` | crates/zkie-types/src/resource.rs:101-117 | what is left is a consistent capacity |
| `Scheduler.FindBestFit` | crates/zkie-runtime/src/scheduler.rs:186-206 | the search returns the best fitting job of the list |
| `Scheduler.BestFitsBetter` | crates/zkie-runtime/src/scheduler.rs:209-257 | the best fit is at least as good as every job that fits |
| `Scheduler.FitScore` | crates/zkie-runtime/src/scheduler.rs:223-257 | the score is defined for every job that fits and never passes four shares |
| `BestFitOrder.FitScoreExact` | crates/zkie-runtime/src/scheduler.rs:223-265 | it is the sum of the shares reserving the job would leave, each rounded down: memory, cores, devices, and the memory of a device if the job uses one |
| `BestFitOrder.LargerIsTighter` | crates/zkie-runtime/src/scheduler.rs:209-265 | of two jobs that both use devices, or both none, the one asking for more never scores higher |
| `BestFitOrder.ScoresFollowSizeExactly` | crates/zkie-runtime/src/scheduler.rs:209-265 | without that proviso it holds exactly on machines with next to no devices |
| `Scheduler.FillIsMaximal` | crates/zkie-runtime/src/scheduler.rs:184-206 | every job is started once or left out, and none left out would still fit |
| `Scheduler.Schedule` | crates/zkie-runtime/src/scheduler.rs:117-206 | the decision loop computes the decision the next results are about |
| `Scheduler.StartedFit` | crates/zkie-runtime/src/scheduler.rs:184-206 | every job started fits what there was, device memory included |
| `Scheduler.DecisionNamesStarted` | crates/zkie-runtime/src/scheduler.rs:117-206 | the selected identifiers are those of the jobs started |
| `Scheduler.DecisionConserves` | crates/zkie-runtime/src/scheduler.rs:117-206 | what started jobs hold plus what remains is what was available |
| `Scheduler.DecisionIsMaximal` | crates/zkie-runtime/src/scheduler.rs:117-206 | unless capacity is held for an aged job, nothing left out would fit |
| `Scheduler.OldestAgedFirst` | crates/zkie-runtime/src/scheduler.rs:152-182 | the oldest aged job starts first or holds back everything else |
| `Scheduler.OrderIsIrrelevant` | crates/zkie-runtime/src/scheduler.rs:117-206 | the decision does not depend on the order of the candidates |
| `Scheduler.DecisionIsRight` | crates/zkie-runtime/src/scheduler.rs:117-206 | a decision is made exactly when no candidate is listed twice and readiness is known for all; the jobs started are ready candidates that fit, each once, and with what remains use up what there was; nothing ready left waiting would fit unless everything waits for one aged job; the oldest aged job starts first or is that one |
| `BestFitOrder.DecidesTightestFirst` | crates/zkie-runtime/src/scheduler.rs:184-221 | with no job aged, each job started leaves at most as much of what was left as any other ready job then fitting would, the older and then the smaller identifier first among equals |
| `BestFitOrder.ClampedExact` | crates/zkie-runtime/src/scheduler.rs:130-142 | what jobs are fitted to is exactly what both the offer and the machine allow |
| `BestFitOrder.AgedExactly` | crates/zkie-runtime/src/scheduler.rs:158-163 | saturating never changes who is aged, unless the aging time is the least 64-bit number |
| `JobStates.FinalStates` | crates/zkie-runtime/src/state.rs:104-160 | exactly three states have no way out |
| `JobStates.OnlyWays` | crates/zkie-runtime/src/state.rs:104-160 | a waiting job becomes only ready or blocked, a job becomes active only by starting an attempt, and verified only by a recorded success of work that awaits it |
| `RunTables.BlockedExactly` | crates/zkie-runtime/src/db.rs:617-663 | under the run invariant a job is blocked exactly when an ancestor failed for good |
| `RunTables.AncestorsVerified` | crates/zkie-runtime/src/db/engine.rs:252-318 | under the run invariant a job past waiting has only verified ancestors |
| `FailurePropagation.PropagationRestores` | crates/zkie-runtime/src/db.rs:617-663 | blocking exactly the jobs that wait on a failed one restores the run invariant |
| `RunSteps.EventKeeps` | crates/zkie-runtime/src/db.rs:474-542 | an allowed event keeps the run invariant |
| `RunSteps.BeginKeeps` | crates/zkie-runtime/src/db/engine.rs:195-250 | only a job with verified predecessors can begin, and beginning opens one attempt |
| `RunOperations.AddKeepsExactly` | crates/zkie-runtime/src/db/core.rs:132-144 | adding a dependency keeps the run invariant exactly when its successor has not gone ahead and is already given up if the predecessor is |
| `RunOperations.ReadyBeforeDependency` | crates/zkie-runtime/src/db/core.rs:132-144 | a job made ready before its first dependency is added breaks it |
| `RunOperations.RefreshKeeps` | crates/zkie-runtime/src/db/engine.rs:267-318 | refreshing makes ready exactly the waiting jobs whose predecessors are verified |
| `RunHistory.StepKeeps` | crates/zkie-runtime/src/db/engine.rs:3-403 | every operation keeps the run invariant |
| `RunHistory.EveryRun` | crates/zkie-runtime/src/db/engine.rs:3-403 | at every point of every run: blocked exactly below a failure, one open attempt while active and otherwise none, verified ancestors past waiting |
| `RunHistory.VerdictsAreFinal` | crates/zkie-runtime/src/state.rs:104-160 | a verdict on a job is never taken back later in a run |
| `RunLog.RetryStep` | crates/zkie-runtime/src/db/engine.rs:106-133 | a retry is counted once, under its own kind, and only below that kind's limit |
| `RunLog.RowsRecordTheRun` | crates/zkie-runtime/src/db/engine.rs:3-403 | after any run a job's row records how often it was begun and retried, by kind, and whether it was verified or given up, exactly as the operations say |
| `RunLog.RetriesAreBounded` | crates/zkie-runtime/src/db/engine.rs:106-133 | no run retries a job more than 2 times after failed executions or 3 times after exceeded resources, or gives two verdicts on it |
| `RunLog.AttemptsCountUp` | crates/zkie-runtime/src/db/engine.rs:195-250 | a job's attempts are numbered 1, 2, ... in the order they began |
| `RunLog.LatestIsNamed` | crates/zkie-runtime/src/db/engine.rs:5-193 | every report, retry and verdict in a run is on its job's latest attempt |
| `JobLifecycle.StatesFitKinds` | crates/zkie-runtime/src/state.rs:104-160 | in every run each job is only ever in states of its own kind |
| `JobLifecycle.EveryKindFinishes` | crates/zkie-runtime/src/state.rs:104-160 | a job of any kind can be begun, reported on if its kind has work to report, and verified |
| `RunDatabase.RunDb.InsertJob` | crates/zkie-runtime/src/db/core.rs:121-130 | a new job starts pending; an existing one is refused |
| `RunDatabase.RunDb.AddDependency` | crates/zkie-runtime/src/db/core.rs:132-144 | a new pair of known, different jobs is added; the tables stay valid exactly when it is one the run can take on |
| `RunDatabase.RunDb.ApplyEventTx` | crates/zkie-runtime/src/db.rs:474-542 | one transition is written to the job and its attempts, or nothing changes |
| `RunDatabase.RunDb.Begin` | crates/zkie-runtime/src/db/engine.rs:195-250 | an attempt begins exactly for a startable job with none open, numbered next |
| `RunDatabase.RunDb.ApplyAttemptEvent` | crates/zkie-runtime/src/db/engine.rs:170-193 | progress is recorded exactly on the job's one open attempt |
| `RunDatabase.RunDb.BlockDescendants` | crates/zkie-runtime/src/db.rs:617-663 | the worklist ends and blocks exactly the jobs reachable from the failed one through waiting jobs, each against a direct predecessor that failed or was blocked with it |
| `RunDatabase.RunDb.FailVerification` | crates/zkie-runtime/src/db/engine.rs:5-32 | rejecting a proof fails its job for good and blocks what waits on it |
| `RunDatabase.RunDb.HandleAttemptFailure` | crates/zkie-runtime/src/db/engine.rs:67-146 | a failed attempt is retried while its job has been fewer than 2 times after failed executions, or 3 times after exceeded resources, which counts that kind once more; otherwise it fails the job for good and blocks what waits on it |
| `RunDatabase.RunDb.RefreshReadiness` | crates/zkie-runtime/src/db/engine.rs:267-318 | makes ready and counts exactly the waiting jobs whose predecessors are verified |
| `RunDatabase.RunDb.RecoverInterrupted` | crates/zkie-runtime/src/db/engine.rs:320-375 | puts every active job back to wait, closing its attempt, and leaves none active |

## Findings

Properties the code does not have on all inputs. Each has the input that shows it and the exact condition under which
the property holds; the code is modelled as it is.

| property | where | input that breaks it | holds exactly when |
|---|---|---|---|
| the assembler's matrix product is the rounded exact product | crates/zkie-core/src/assembler.rs:858 and the sums in `assign_dot_row` (1203-1405) | `HostValues.HostAcceptsWrapped`: four products of the least 64-bit value with itself, whose sum 2^128 is taken for 0 | `HostValues.HostEntryExact`: the exact sum fits 128 bits. The sums are plain additions, so this is about a build without overflow checks, such as the default release profile; with overflow checks the same input panics, at the first partial sum that does not fit |
| the two backends accept the same products | crates/zkie-prover/src/witness_cpu.rs:839-843 and crates/zkie-core/src/assembler.rs:858 | `HostValues.HostAcceptsMore`: a sum that fits with a partial sum that does not | `HostValues.WitnessEntryExact`: every partial sum fits |
| the two backends refuse the same elementwise operations | crates/zkie-core/src/assembler.rs:910-1071 | one operand empty, the other not: the assembler takes a remainder by zero and panics | `HostValues.EltwiseAgrees`: not exactly one operand is empty |
| a shard bound by the compiler passes the prover's template check | crates/zkie-prover/src/witness_cpu.rs:453-546 and 1878-1890, against crates/zkie-compiler/src/shard_binding.rs:315-354 | `WitnessTemplate.VirtualBeforeGraphInput`: an instruction reading an earlier shard's value and then a graph input | `WitnessTemplate.BoundPassesTemplateIff`: the range first reads its external registers in key order. The same condition decides whether the key-ordered descriptors paired with first-seen values at crates/zkie-prover/src/halo2_cpu.rs:469-486 belong together (`LeafProver.PairingRightIff`) |
| adding a dependency keeps the run's tables right | crates/zkie-runtime/src/db/core.rs:132-144 | `RunOperations.ReadyBeforeDependency`: the successor is already ready and the predecessor is not verified | `RunOperations.AddKeepsExactly`: the successor still waits or is blocked, or the predecessor is verified; and if the predecessor failed for good the successor is already blocked |
| a fused match keeps its constants | crates/zkie-compiler/src/rms_norm_fusion.rs:252 | `RmsNormFusion.MillionthLost`: an epsilon of 0.000001, as real models have, becomes 0 | `RmsNormFusion.EpsilonKept`: the epsilon is a whole number of thousandths. The exponent, documented as exactly 2.0, is accepted within a millionth of it (line 150); `FusedMeaning.KeepsConstants` asks for both |
| a graph whose nodes all compile, and whose outputs are all written, compiles | crates/zkie-compiler/src/graph_compiler.rs:372-384 | `CompileSuccess.ExampleOutputLost`: a graph output that is a value inside a match | `CompileSuccess.CompilesExactly`: no graph output is dropped by a match; the inputs of nodes are never affected. Such a graph does not compile without fusion either (`CompileSuccess.FusionTakesNothingAway`) |
| of two jobs that fit, the one asking for at least as much of everything fits at least as tightly | crates/zkie-runtime/src/scheduler.rs:223-257 | `BestFitOrder.DeviceUserScoresHigher`: on a machine with 3 devices of 2 bytes a job with one core scores lower than the same job with one device of one byte, because only jobs that use devices are charged for unused device memory | `BestFitOrder.ScoresFollowSizeExactly`: the machine has at most one device, or one byte on each, or two of two; for given jobs it is enough that both use devices or both none (`BestFitOrder.LargerIsTighter`) |
| a run within the public boundary budget gets its manifest | crates/zkie-prover/src/aggregation.rs:914-923 | `RefusedRun.ControlFlavorRefused`: a proof flavor of 4096 control characters, which parsing and decoding allow, beside eleven outputs published under 659 names of control characters | `FullestManifest.FlavorRoomExact`: the flavor escapes to at most 14378 bytes; in particular when it has no control characters (`ManifestRoom.OrdinaryFlavorFits`), such as the flavor of the Halo2 backend |

## Left out

- Halo2 circuits, chips, keys and KZG proofs: a leaf proof is its verified statement; that the statement's commitments are to the values of a correct run of the shard is the hypothesis `AllLocallyCorrect`.
- Poseidon, BLAKE3 and field arithmetic: commitments are an injective parameter and digests are compared for equality; lists of identity fields compared one by one are bundled as one digest.
- RMSNorm numerics: lookup tables, domains and their checks; `WitnessRunIsHostRun` takes one normalizer for both backends, and `FusionPreservesMeaning` takes the six operators and the fused instruction to be about the same arithmetic (`SameArithmetic`), for inputs of the scale's size, which is what the instruction accepts. Reduction axes are attributes the matcher does not read and the model does not have.
- Floating point: conversion of weights to fixed point is a parameter; the epsilon of a match is a real number.
- HostValues.WitnessProductIsHost: a product whose operand lengths pass 64 bits is a separate outcome, because the assembler's length computation is not checked there.
- NativeManifest.BuildNativeManifest: stops before the manifest is written; the size refusal is in `ManifestEncoding.BuildEncodedManifest`.
- LeafProver.MakeStatement: the digests, the shard's name and the key a statement carries; prepared keys and the proof itself. The circuit refuses an output of another length than declared, and is not part of this model.
- TemplateCheck.ValidateAssemblerTemplate: shape digests are compared by the bytes they digest; floating-point bounds are their bit patterns.
- HonestRuns.HonestIsAdmissible: the envelope is one digest and the flavor, as in `LeafAdmission`.
- ManifestText.EncodesExactly: the text is one character a byte; parsing a manifest back and the comparison in `verify_native_manifest` are not modelled.
- LeafStatements.DecodeExact: texts are one character a byte, whether bytes are valid UTF-8 is a parameter, and which error a refused input reports is not modelled.
- ShapeBytes.CanonicalShapeBytesInjective: the digest of the bytes.
- WitnessExecution.Execute: the run identity, the artifact's JSON form and its file; the limits checked while a shard is configured beyond those an execution checks again.
- Partition.Plan: the digest of a plan; identity is equality of plans.
- RunDatabase.RunDb.ApplyEventTx: SQLite, migrations, timestamps, the event log, failure metadata, resource peaks and identifier length limits; a transaction is one method call.
- RunDatabase.RunDb.RecoverInterrupted: attempts are recovered in table order.
- Scheduler.Schedule: the identifier a duplicate is reported with, and the memory-aware entry point that narrows the capacity first.
- The artifact store, worker processes, resource monitoring, the worker protocol and the command line: operating-system behaviour.
- The operator table: which operators map to which instructions is a parameter that `CompilationPreservesMeaning` constrains.

Nothing was executed: the results are about the model, and the model follows the source by reading.
