# ForgeIR, verified

A Dafny model of the core of ForgeIR, a small tensor compiler: typed SSA graphs, the rewrite passes and
the manager that verifies around them, the deterministic schedule, the static arena planner, the CPU
kernels, the runtime that executes them in the shared arena, and the StableHLO lowering. Verify it with
`dafny verify dfyconfig.toml`.

## What is proved

- **Running.** `RuntimeSession.Execute` runs kernels in place in an arena whose regions are reused. It is
  proved to compute, for every graph, schedule and plan, what a store with one cell per value computes
  from that call's arguments alone (`StoreOf`), and to succeed exactly when every argument and attribute
  is acceptable; it then retains exactly the values asked for and the declared outputs. Nothing an earlier
  call left in the arena matters.
- **Planning.** `PlanMemory` succeeds exactly on `Plannable` graphs, and the plan it returns satisfies all
  the checks of `verify_memory_plan`: no two tensors that live at the same time share a byte, no output
  shares a byte with anything, and peak <= arena <= naive total. Every tensor lies in the smallest gap that
  the tensors still in use have left, outputs at the end; this determines the plan (`PlanIsDetermined`).
- **Ordering.** The schedule is the lexicographically least linear extension of data dependencies and
  side-effect order, and it exists exactly when there is no cycle. On every loaded graph the loader, the
  rewriter and the scheduler agree on it. Evaluation does not depend on the order.
- **Rewriting.** Every pass keeps the verifier's judgement (fusion: exactly when no chain is narrow), keeps
  the meaning of the graph (folding: exactly when the literals are right; fusion: exactly when no base is
  activated), keeps connectedness, and changes nothing the second time. The fusion finds every chain there
  is. Of the graph a level leaves it is proved what can no longer be found in it, and a level changes nothing
  exactly on the graphs in its normal form.
- **Kernels.** Each kernel writes its whole output, nothing else, and what it writes is the tensor the
  operation denotes; the tiled products equal the reference loops for arbitrary, even non-associative,
  addition.
- **Lowering.** `Lower` succeeds exactly when every operation has a lowering, and the module it emits is
  well-typed SSA that computes what the graph evaluates to.
- **Together.** What optimisation writes the loader accepts again, with the meaning it had
  (`OptimisedIsLoadable`). A runtime call on it delivers what the original graph evaluates to
  (`OptimisedExecution`), and so does the StableHLO module emitted for it (`OptimizeAndLower`).

## How it is modelled

Scalars are an uninterpreted type, and the element operations are functions of an `Arith` record, so every
result holds for all arithmetics: each tensor operation is the sequence of scalar operations its kernel
performs. Nothing is assumed of `Arith` except where a contract says so (commutative addition for fusion,
right literals for folding, GELU by its formula for the lowering). Graphs are values (`GraphData`); the
passes work on a class `Graph` whose fields they update in place. Attributes are JSON values.

| file | part of the program |
|---|---|
| Basics, Shapes, IndexArithmetic, TensorSizes | checked arithmetic, coordinates, strides, broadcasting, sizes |
| GraphIR, GraphInvariants, GraphLoader, Connectivity, LoadableGraphs | the graph, what the loader guarantees, its order, its connectivity check, and what it accepts |
| Kahn, DependencyGraph, ExecutionSchedule, EffectOrder | orders by smallest identifier, the dependency counters, the schedule, its side effects |
| Allocator, Gaps, MemoryPlanner, MemoryPlan, PlanUnique | free list and active list, the gaps they describe, lifetimes, the plan, its verification and its uniqueness |
| Tensors, Evaluator, OperationMeaning | what operations mean, and the reference evaluator |
| CpuKernels, MatMulKernels, Projections, RowKernels, SoftmaxKernel, CpuBackend | the kernels and their dispatch |
| ArenaLayout, UnboundedStore, KernelSoundness, RuntimeSession | execution in the arena |
| SemanticVerifier | shape and type rules |
| RewriteUtils, PassFramework, Erasure, CopyElimination | what the passes share |
| Canonicalisation, ConstantFolding, FoldingSoundness, RedundantCopies, Fusion, FusionSoundness, FusionChains, DeadCodeElimination | the passes |
| Idempotence, FusionTwice | second runs |
| FusionWitnesses, ReloadWitness, ActivationWitness | graphs for the findings below |
| PassPipeline, PassResults, PassManager, Optimization | the manager, what passes leave behind, and the levels |
| EndToEnd, Compilation, LoweredOptimum | optimising with planning and running, and with writing, loading and lowering |
| StablehloSyntax, StablehloMeaning, StablehloPatterns, StablehloProducts, StablehloLowering, StablehloModule | the lowering |

## Findings

Places where the code does less than its description suggests. Each has a graph that loader and verifier
accept (`Loadable`, `GraphVerified`) on which the promise fails, and the exact condition under which it holds.

- **A two-operand projection that asks for an activation is computed without it.** The CPU kernels look at
  `fused_activation` only when there is a bias (cpp/src/runtime/cpu_backend.cpp:367-370, 384-387); the
  evaluator always does (python/forgeir/reference/evaluator.py:80-84). On the graph of
  `ActivationWitness.ProductDiverges` every call completes and differs from the evaluation.
  `KernelSoundness.ProjectionAgreement` and `UnboundedStore.GraphAgreement`: kernel and evaluator agree for all
  arithmetics exactly when no two-operand projection is activated.
- **Fusion loses the activation of its base.** The pass does not ask whether the projection already carries
  an activation, and overwrites the attribute (cpp/src/passes/fuse_bias_gelu_pass.cpp:59-69, 100-104). Graph:
  `FusionWitnesses.ActivatedChainIsReceivable`; condition: `PlainBases`, by `FusionSoundness.FusionExactCondition`.
- **Fusion can make a graph the verifier rejects.** The bias is compared with the last dimension of the sum,
  not of the projection (cpp/src/passes/fuse_bias_gelu_pass.cpp:80-87), so a projection one element wide
  matches a wider bias. Graph: `FusionWitnesses.NarrowChainIsReceivable`; condition: `NoNarrowChain`, by
  `FusionSoundness.FusionVerified`. It is the only way in which a run of the manager on a verified graph can
  fail (`PassManagement.PassManager.Run`); `Optimization.WideIsAccepted` gives a check on the original graph.
- **Folding keeps the meaning only where the literals are right.** `fold_scalar` computes in double
  precision what the operation computes in single precision (cpp/src/passes/constant_folding_pass.cpp:17-65).
  Graph, with an arithmetic in which the two differ: `FoldingWitness.FoldingChangesMeaning`; condition, at the
  operations that fold and there alone: `ConstantFolding.FoldingKeepsMeaningExactly`. It holds on every graph
  where the folder's operators agree with those on elements (`FoldingSoundness.AgreementKeepsMeaning`).
- **Writing an optimised graph and loading it again can swap side effects.** The loader ignores them
  (cpp/src/ir/graph_loader.cpp:307-347), the passes keep their order, and a pass can remove the dependency
  that stood behind that order. `ReloadWitness.ReloadingSwapsEffects`: at O1 one of two side effects comes
  first, after writing and loading the other. Condition: every operation that stands behind one with a larger
  identifier uses a result produced from that one on (`StandsAsLoaded`, by `GraphLoader.ReloadKeepsOrder`).
  Without reloading the three orders agree on every loaded graph, side effects or not
  (`GraphLoader.OrdersAgree`), and the values computed never depend on the order.
- **Unused intermediates that dead code elimination keeps for their side effects cannot be planned**
  (cpp/src/runtime/memory_planner.cpp:308-312). Graph: `EndToEnd.UnusedEffectIsNotPlannable`; condition, besides
  sizes that fit: every intermediate a side effect produces is declared or used, by
  `EndToEnd.PlannableAfterDeadCode`.

## Model

| member | source | states |
|---|---|---|
| Shapes.EncodeDecode | cpp/src/runtime/cpu_backend.cpp:117-137 | encoding the coordinate of a linear index gives the index back, and the coordinate is in bounds |
| Shapes.DecodeEncode | cpp/src/runtime/cpu_backend.cpp:117-137 | decoding the linear index of a coordinate in bounds gives the coordinate back, and the index is below the element count |
| Shapes.DecodeAxis | cpp/src/runtime/cpu_backend.cpp:132-133 | the kernels' `(index / stride) % dim` is the coordinate along that axis |
| Shapes.StridedSumIsEncode | cpp/src/runtime/cpu_backend.cpp:547-553 | the strided sum the kernels accumulate, from any axis on, is the row-major index of the remaining coordinates |
| Shapes.BroadcastOperands | cpp/src/runtime/cpu_backend.cpp:100-115 | when two positive shapes broadcast, the result is positive and both spread to it |
| IndexArithmetic.RowMajorStrides | cpp/src/runtime/cpu_backend.cpp:50-63 | the loop returns the products of the dimensions to the right, and fails exactly when the whole count exceeds 64 bits |
| IndexArithmetic.ComputeBroadcastShape | cpp/src/runtime/cpu_backend.cpp:100-115 | the right-to-left loop computes the broadcast shape, and fails exactly on incompatible dimensions |
| IndexArithmetic.GatherIndex | cpp/src/runtime/cpu_backend.cpp:117-137 | the loop's index is that of the projected coordinate in the operand, times the given inner stride; skipping dimensions of one is right; serves element and batch offsets |
| TensorSizes.CheckedTensorElementCount | cpp/src/runtime/tensor_storage.cpp:68-82 | succeeds exactly on positive shapes whose product fits 64 bits, with that product; the division guard never errs |
| TensorSizes.ElementCount | cpp/src/ir/shape.cpp:27-38 | for any dimensions: the product of their unsigned casts, failing exactly when a running product exceeds 64 bits |
| TensorSizes.CheckedByteSize | cpp/src/ir/tensor_descriptor.cpp:17-27 | fails exactly when a running product or the bytes exceed 64 bits; on positive shapes, exactly when the byte size does |
| TensorSizes.CheckedAlignUp | cpp/src/runtime/memory_planner.cpp:40-49 | succeeds exactly when the alignment is positive and the next multiple fits 64 bits, with that multiple; which error otherwise |
| Dependencies.DependencyGraph.AddEdge | cpp/src/runtime/execution_schedule.cpp:19-32 | the edge is recorded once, the counters keep matching the edges, and the overflow exit is not taken |
| Dependencies.DependencyGraph.Retire | cpp/src/runtime/execution_schedule.cpp:105-114 | after retiring a ready operation the counters count what is left, the ready set is exact, and the underflow exit is not taken |
| Dependencies.DependencyGraph.Order | cpp/src/runtime/execution_schedule.cpp:97-119 | the loop returns the least linear extension of the edges, and fails exactly on cyclic edges |
| Kahn.GreedyIsLeast | cpp/src/runtime/execution_schedule.cpp:97-104 | always taking the ready operation with the least identifier yields the lexicographically least linear extension |
| Kahn.LeastIsUnique | cpp/src/runtime/execution_schedule.cpp:97-104 | there is only one such order |
| Kahn.StuckIsCyclic | cpp/src/runtime/execution_schedule.cpp:116-119 | when nothing is ready and something is left, the edges contain a cycle |
| Kahn.LinearExtensionExcludesCycles | cpp/src/runtime/execution_schedule.cpp:116-119 | edges that admit an order contain no cycle |
| OperationOrder.IndexByOutput | cpp/src/runtime/execution_schedule.cpp:42-51 | builds the producer index and detects a second producer exactly |
| OperationOrder.AddOperandEdges | cpp/src/runtime/execution_schedule.cpp:56-70 | adds exactly the data edges into one operation, or reports an operand without a producer |
| OperationOrder.AddEffectChain | cpp/src/runtime/execution_schedule.cpp:72-85 | adds exactly the edges between consecutive operations with side effects |
| OperationOrder.OrderOperations | cpp/src/passes/rewrite_utils.cpp:77-135 | the order shared by the scheduler, the rewriter and the loader: least linear extension, failing exactly on a missing producer or a cycle |
| ExecutionSchedule.BuildExecutionSchedule | cpp/src/runtime/execution_schedule.cpp:36-121 | the schedule lists the operations in the least order that respects data and effects; it exists exactly when outputs and operands resolve and nothing is cyclic; error codes |
| EffectOrder.EffectsInOrder | cpp/src/runtime/execution_schedule.cpp:72-85 | operations marked with a side effect are scheduled in graph order |
| EffectOrder.RewrittenInOrder | cpp/src/passes/rewrite_utils.cpp:98-110 | and rewriting keeps them in that order |
| Allocation.CoalesceFreeBlocks | cpp/src/runtime/memory_planner.cpp:58-84 | sorts and joins adjacent blocks: the same bytes are covered, none twice, no two neighbours touch, offsets stay aligned, and the overflow exits are not taken |
| Allocation.PartitionExpired | cpp/src/runtime/memory_planner.cpp:86-97 | exactly the allocations last used before the definition go to the free list, byte for byte |
| Allocation.Allocator.ReleaseExpired | cpp/src/runtime/memory_planner.cpp:86-99 | keeps the invariant (free and active blocks partition the arena, aligned, coalesced); what stays active is exactly what is used later |
| Allocation.Allocator.AllocateBestFit | cpp/src/runtime/memory_planner.cpp:101-138 | takes the smallest fitting block with the lowest offset, else grows the arena; the bytes belonged to nobody; fails exactly when nothing fits and growing exceeds 64 bits |
| Allocation.Allocator.AppendProtected | cpp/src/runtime/memory_planner.cpp:140-148 | an output gets bytes beyond everything allocated so far; fails exactly on overflow |
| Allocation.Allocator.Activate | cpp/src/runtime/memory_planner.cpp:388-389 | the reserved bytes become active, disjoint from all active ones, and the invariant holds again |
| Blocks.PackingBound | cpp/src/runtime/memory_planner.cpp:513-515 | disjoint blocks inside an arena hold at most its size |
| Lifetimes.IndexDefinitions | cpp/src/runtime/memory_planner.cpp:248-256 | the definition index of every scheduled value; a duplicate is reported only if there is one |
| Lifetimes.IndexUses | cpp/src/runtime/memory_planner.cpp:257-259 | for every value the indices at which it is used, and no others |
| Lifetimes.ScheduleFollowsDependencies | cpp/src/runtime/memory_planner.cpp:299-303 | in a schedule every use comes after the definition |
| Lifetimes.ComputeLifetime | cpp/src/runtime/memory_planner.cpp:268-343 | succeeds exactly on plannable values; definition, first and last use, sizes and storage class are as the schedule and the kinds say; "used before its definition" is unreachable |
| MemoryPlanner.ArenaTensors | cpp/src/runtime/memory_planner.cpp:346-358 | lists exactly the tensors that live in the arena; the naive total is their sum and overflows exactly when that exceeds 64 bits |
| MemoryPlanner.PlaceAll | cpp/src/runtime/memory_planner.cpp:369-390 | once the naive total fits, placement cannot fail; every tensor gets an aligned place in an arena no larger than the naive total; tensors that must not share are disjoint, even from outputs no longer or not yet live; each goes to the best gap the earlier ones leave, outputs to the end |
| Gaps.BestFitIsBestGap | cpp/src/runtime/memory_planner.cpp:101-121 | the free list holds exactly the maximal gaps between the allocations still in use, so the best-fitting block is the smallest gap that is large enough |
| MemoryPlanner.LiveFitsArena | cpp/src/runtime/memory_planner.cpp:513-515 | at each index the live bytes fit the arena |
| MemoryPlanner.PeakLiveBytes | cpp/src/runtime/memory_planner.cpp:397-412 | returns the maximum of the live bytes over all indices; its overflow exit is not taken |
| MemoryPlanner.VerifyMemoryPlan | cpp/src/runtime/memory_planner.cpp:431-520 | accepts exactly the plans that satisfy every check: kinds and storage, alignment, bounds, no sharing, peak <= arena <= naive |
| MemoryPlanner.VerificationDependsOnRoles | cpp/src/runtime/memory_planner.cpp:424-427 | of a plan made as above only the kinds of declared outputs can fail verification |
| MemoryPlanner.PlanMemory | cpp/src/runtime/memory_planner.cpp:229-429 | succeeds exactly on plannable graphs (schedulable, sizes fit, every intermediate used, naive total fits, output kinds); the plan holds the schedule, exact lifetimes, exact totals, passes verification, and places each tensor in allocation order into the best gap, in terms of the plan alone |
| PlanUniqueness.PlanIsDetermined | cpp/src/runtime/memory_planner.cpp:360-390 | what is promised of the plan leaves no choice: any two such plans of a graph are equal |
| Tensors.TransposeInverse | cpp/src/runtime/cpu_backend.cpp:547-555 | transposing by a permutation and then by its inverse is the identity |
| Sequential.RunModels | python/forgeir/reference/evaluator.py:159-208 | running in topological order satisfies the equation of every operation at the end |
| Sequential.ModelsAreRuns | python/forgeir/reference/evaluator.py:159-208 | the equations have one solution: whatever satisfies them is what running computes |
| Sequential.RunIsConfluent | python/forgeir/reference/evaluator.py:159-208 | two topological orders of the same operations give the same environment, for any step that looks only at its operands |
| Evaluator.EvaluationIsConfluent | python/forgeir/reference/evaluator.py:137-219 | so `evaluate_graph` does not depend on the order of the operations |
| Evaluator.EvaluateGraph | python/forgeir/reference/evaluator.py:137-219 | succeeds exactly when the fed tensors fit their declared shapes, the run of the theorems has a value, and every requested value was produced; returns exactly the requested values of that run |
| PassFramework.FedInputsFit | python/forgeir/reference/evaluator.py:149-153 | feeding no more than declared inputs, the first check refuses nothing the loop accepts |
| Evaluator.EvaluationIgnoresArithmetic | python/forgeir/reference/evaluator.py:44-56 | whether a graph evaluates, and with which shapes, does not depend on the arithmetic |
| OperationMeaning.MaskedEntry | python/forgeir/reference/evaluator.py:126-133 | entry (row, column) of a mask is minus infinity exactly right of the diagonal, moved right by the attribute |
| OperationMeaning.TransposedEntry | python/forgeir/reference/evaluator.py:119-125 | axis k of a transposed tensor is axis p[k] of the operand |
| OperationMeaning.ReshapedEntry | python/forgeir/reference/evaluator.py:117-118 | a reshape keeps every entry at its row-major place |
| ElementwiseKernels.ElementwiseBinary | cpp/src/runtime/cpu_backend.cpp:139-165 | succeeds exactly when the operands broadcast to the output shape; writes the broadcast combination and nothing else |
| ElementwiseKernels.GeluInto | cpp/src/runtime/cpu_backend.cpp:426-446 | succeeds exactly on equal shapes and exact GELU; writes GELU of every element |
| ElementwiseKernels.CopyReshaped | cpp/src/runtime/cpu_backend.cpp:499-511 | succeeds exactly on equal element counts; the output is the reshaped tensor |
| TransposeKernel.TransposeInto | cpp/src/runtime/cpu_backend.cpp:513-557 | succeeds exactly when the attribute is a permutation that carries the input shape to the output shape; the output is the transpose |
| RowKernels.RmsNormInto | cpp/src/runtime/cpu_backend.cpp:390-424 | success condition and result: the normalised tensor, row by row |
| RowKernels.CausalMaskInto | cpp/src/runtime/cpu_backend.cpp:559-599 | success condition and result: entries right of the diagonal are minus infinity, the others copied |
| SoftmaxKernel.SoftmaxIsLanewise | cpp/src/runtime/cpu_backend.cpp:475-495 | the reference softmax, lane by lane along any axis, is what the outer and inner loops address |
| SoftmaxKernel.SoftmaxInto | cpp/src/runtime/cpu_backend.cpp:448-497 | success condition and result: stable softmax of every lane, in place in three loops |
| MatrixProduct.ReferenceProduct | cpp/src/runtime/cpu_backend.cpp:231-240 | the three loops write the matrix of left folds, and nothing else |
| MatrixProduct.TiledProduct | cpp/src/runtime/cpu_backend.cpp:285-304 | the six tiled loops, from a zeroed output, write the same matrix, for every size and any addition and multiplication |
| ProjectionKernels.MatMulInto | cpp/src/runtime/cpu_backend.cpp:194-307 | tiled or reference: succeeds exactly when the shapes agree, and writes the batched product with broadcast batches |
| ProjectionKernels.LinearIsProduct | cpp/src/runtime/cpu_backend.cpp:328-366 | a linear layer is one product of the flattened rows with the transposed weight |
| ProjectionKernels.LinearInto | cpp/src/runtime/cpu_backend.cpp:309-366 | tiled or reference: succeeds exactly when its checks pass, and writes the product of as many rows as the output has; with the declared shape that is the linear layer |
| CpuBackend.ApplyFusedBiasGelu | cpp/src/runtime/cpu_backend.cpp:70-98 | succeeds exactly when the bias fits and the contract is exact GELU; over the product in place it leaves GELU of the biased product |
| CpuBackend.Execute | cpp/src/runtime/cpu_backend.cpp:608-653 | dispatch: on contiguous views every kernel delivers what the operation means, or fails where that is undefined, and writes only its output |
| KernelSoundness.VerifiedOperationRuns | cpp/src/passes/semantic_verifier.cpp:365-469 | type soundness: on operands of the declared shapes a verified operation runs exactly when its attributes follow the kernels' conventions |
| KernelSoundness.VerifiedLinearIsTyped | cpp/src/passes/semantic_verifier.cpp:170-251 | what `linear` does not check, the verifier guarantees |
| KernelSoundness.KernelAgreesWithEvaluator | python/forgeir/reference/evaluator.py:88-134 | on supported operations other than activated two-operand projections, kernel and evaluator compute the same |
| KernelSoundness.ProjectionAgreement | python/forgeir/reference/evaluator.py:71-85 | on a two-operand projection they agree for all arithmetics exactly when it is not activated |
| KernelSoundness.ActivatedProductDiverges | cpp/src/runtime/cpu_backend.cpp:384-387 | a verified activated product on which they differ |
| ActivationWitness.ProductIsReceivable | cpp/src/runtime/cpu_backend.cpp:384-387 | a graph with one, which loader and verifier accept |
| ActivationWitness.ProductDiverges | cpp/src/runtime/cpu_backend.cpp:384-387 | on it every call completes and differs from the evaluation |
| UnboundedStore.VerifiedGraphRuns | cpp/src/runtime/runtime_session.cpp:208-333 | a verified, ordered graph runs to the end exactly when every argument and attribute is acceptable |
| UnboundedStore.CpuMatchesEvaluator | python/forgeir/reference/evaluator.py:137-219 | in any topological order the CPU computes what the evaluator computes, if no two-operand projection is activated |
| UnboundedStore.GraphAgreement | python/forgeir/reference/evaluator.py:80-84 | for a graph that runs: they agree for all arithmetics exactly when no two-operand projection is activated |
| ArenaLayout.EntriesAreLayout | cpp/src/runtime/runtime_session.cpp:285-296 | a verified plan, read as elements, keeps apart the regions of values needed at the same time, inside the arena |
| ArenaLayout.PlanSpans | cpp/src/runtime/memory_planner.cpp:318-323 | the slot of every value is reserved from its definition to its last use, for outputs to the end |
| RuntimeSteps.ValidateExternal | cpp/src/runtime/runtime_session.cpp:53-80 | accepts exactly the arguments with the declared type, layout, shape and size |
| RuntimeSteps.ExecuteOperation | cpp/src/runtime/runtime_session.cpp:227-317 | one iteration succeeds exactly when the operation has a value in the unbounded store; afterwards memory holds that value and still holds every value needed later |
| Runtime.RuntimeSession.RunSchedule | cpp/src/runtime/runtime_session.cpp:208-333 | the loop in the shared arena succeeds exactly when the unbounded store does; captures and trace are exact |
| Runtime.RuntimeSession.Execute | cpp/src/runtime/runtime_session.cpp:179-336 | succeeds exactly when every capture is a value, every tensor fed is a graph input, and the store completes; which error otherwise; retains exactly the captures and the declared outputs, with the store's values; a function of this call's arguments only |
| Runtime.RuntimeSession.CallSucceeds | cpp/src/runtime/runtime_session.cpp:227-317 | a call completes exactly when each operation's argument or attributes are acceptable |
| Runtime.RuntimeSession.CallMatchesEvaluator | python/forgeir/reference/evaluator.py:137-219 | a call that completes computes what the evaluator computes in graph order, if no two-operand projection is activated |
| Runtime.RuntimeSession.GetOutputs | cpp/src/runtime/runtime_session.cpp:338-353 | available exactly after a successful call, one tensor per declared output; by the session invariant the internal error is unreachable |
| Runtime.RuntimeSession.GetValue | cpp/src/runtime/runtime_session.cpp:355-367 | the retained tensor; which error otherwise |
| Runtime.Load | cpp/src/runtime/runtime_session.cpp:137-177 | a session exists exactly for verified float32 graphs that can be planned for the `cpu` backend, and is valid and not yet executed |
| SemanticVerifier.MatMulDimensions | cpp/src/passes/semantic_verifier.cpp:136-155 | the checks and the loop infer the product shape, or nothing |
| SemanticVerifier.LinearDimensions | cpp/src/passes/semantic_verifier.cpp:170-251 | the chain of early exits accepts exactly the linear rules and infers the shape |
| SemanticVerifier.ReshapeDimensions | cpp/src/passes/semantic_verifier.cpp:295-332 | explicit positive dimensions with the same element count, or nothing |
| SemanticVerifier.TransposeDimensions | cpp/src/passes/semantic_verifier.cpp:334-363 | the loop with its set of seen axes accepts exactly permutations, and infers the permuted shape |
| SemanticVerifier.VerifyOperationShape | cpp/src/passes/semantic_verifier.cpp:365-469 | no diagnostic exactly when the declared shape is the inferred one |
| SemanticVerifier.VerifyOperationDType | cpp/src/passes/semantic_verifier.cpp:550-586 | no diagnostic exactly when the type rules hold |
| SemanticVerifier.VerifyGraph | cpp/src/passes/graph_verifier_pass.cpp:12-29 | accepts exactly the graphs all of whose operations satisfy both rules |
| GraphLoader.DeterministicTopologicalOrder | cpp/src/ir/graph_loader.cpp:307-347 | the least order the data dependencies allow; fails exactly on a cycle |
| GraphLoader.OrdersAgree | cpp/src/ir/graph_loader.cpp:307-347 | on every loaded graph, side effects or not, the rewriter and the scheduler compute the order the loader computed |
| GraphLoader.ReloadKeepsOrder | cpp/src/core/cli_main.cpp:301-313 | loading ordered operations again leaves them in place exactly when each stands where the loader would put it, a check on the operations alone |
| GraphLoader.LoadingKeeps | cpp/src/ir/graph_loader.cpp:307-347 | loading keeps the operations, the meaning and the verifier's judgement, and leaves the graph ordered |
| ReloadWitness.SavedIsReceivable | cpp/src/ir/graph_loader.cpp:307-347 | a graph with two side effects that loader and verifier accept |
| ReloadWitness.ReloadingSwapsEffects | cpp/src/ir/graph_loader.cpp:312-321 | optimised at O1 it is ordered and verified with one side effect first; loaded again, the other comes first |
| ReloadWitness.OptimiseAndReload | cpp/src/core/cli_main.cpp:249-324 | the program's own steps on that graph, ending in the swap |
| Connectivity.SweepIsReachability | cpp/src/ir/graph_loader.cpp:349-364 | on ordered operations the single sweep finds exactly what is transitively reachable from the inputs |
| Connectivity.VerifyRequiredOutputsConnected | cpp/src/ir/graph_loader.cpp:349-373 | succeeds exactly when every declared output is reachable |
| Connectivity.PassKeepsConnected | cpp/src/ir/graph_loader.cpp:526-530 | what a pass makes of a graph passes the check exactly when the graph did |
| RewriteUtils.ReplaceAllUses | cpp/src/passes/rewrite_utils.cpp:48-56 | every occurrence of the value among the operands is renamed, nothing else changes |
| RewriteUtils.ValueUseCounts | cpp/src/passes/rewrite_utils.cpp:28-36 | the number of occurrences of every value among the operands |
| PassFramework.StableTopologicalOrder | cpp/src/passes/rewrite_utils.cpp:77-145 | reorders to the least order that respects data and effects, fails exactly when there is none, and reports a change exactly when there was one |
| PassFramework.SolutionIsEvaluation | python/forgeir/reference/evaluator.py:137-219 | a solution of an ordered graph's equations is its evaluation |
| PassFramework.OutputsPreserved | cpp/src/passes/optimization.cpp:45-73 | if every solution of the old graph solves the new one, the declared outputs evaluate as before |
| Erasure.ErasureKeeps | cpp/src/passes/rewrite_utils.cpp:58-75 | erasing operations with their values, when nothing that stays needs them, keeps order, well-formedness, meaning and the verifier's judgement |
| Canonicalisation.Canonicalise | cpp/src/passes/canonicalisation_pass.cpp:14-92 | canonical attributes on every operation, then the stable order; fails exactly on a cycle; reports a change exactly when an attribute was edited or the order changed |
| Canonicalisation.CanonicalChangeShows | cpp/src/passes/canonicalisation_pass.cpp:23-67 | on verified graphs that is exactly when the operations differ |
| Canonicalisation.CanonicalLookup | cpp/src/passes/canonicalisation_pass.cpp:23-61 | each attribute afterwards: the written-out defaults, the non-negative axis, the dropped false marker, and all others as before |
| Canonicalisation.CanonicalEvaluation | cpp/src/passes/canonicalisation_pass.cpp:22-61 | canonical attributes do not change what an operation evaluates to |
| Canonicalisation.CanonicalisationKeeps | cpp/src/passes/canonicalisation_pass.cpp:14-92 | the pass keeps meaning, the verifier's judgement and the interface, and leaves the graph ordered |
| ConstantFolding.FoldConstants | cpp/src/passes/constant_folding_pass.cpp:71-141 | the in-place sweep is the fold of single steps, each seeing what was folded before it; reports a change exactly when the graph differs |
| FoldingSoundness.FoldsExactly | cpp/src/passes/constant_folding_pass.cpp:17-110 | which operations fold: scalar, without side effect, on number literals, integers only if the result fits 64 bits, no division by zero |
| FoldingSoundness.IntegersFold | cpp/src/passes/constant_folding_pass.cpp:31-55 | integer sums and products fold to the integer |
| FoldingSoundness.AgreementIsSound | cpp/src/passes/constant_folding_pass.cpp:17-65 | for an arithmetic whose folder agrees with its operators, a condition on the arithmetic alone, every fold on every graph is right |
| FoldingSoundness.AgreementKeepsMeaning | cpp/src/passes/constant_folding_pass.cpp:71-141 | and folding keeps the meaning of every graph |
| ConstantFolding.FoldStepSolved | cpp/src/passes/constant_folding_pass.cpp:113-132 | a step keeps a solution of the graph exactly when its literal is the element the operation computes |
| ConstantFolding.FoldingKeepsMeaningExactly | cpp/src/passes/constant_folding_pass.cpp:71-141 | for a graph that evaluates, folding keeps the meaning exactly when every fold was sound |
| ConstantFolding.FoldSweepKeeps | cpp/src/passes/constant_folding_pass.cpp:121-135 | folding keeps order, well-formedness, interface and the verifier's judgement |
| ConstantFolding.FoldTwice | cpp/src/passes/constant_folding_pass.cpp:76-136 | one sweep reaches the fixed point |
| FoldingWitness.FoldingChangesMeaning | cpp/src/passes/constant_folding_pass.cpp:17-65 | a graph loader and verifier accept, which evaluates, and an arithmetic under which folding changes its meaning |
| ReshapeElimination.EliminateReshapes | cpp/src/passes/redundant_reshape_elimination_pass.cpp:16-53 | rewiring during the iteration removes exactly the redundant reshapes and reroutes each use to the end of its chain |
| ReshapeElimination.ReshapeEliminationKeeps | cpp/src/passes/redundant_reshape_elimination_pass.cpp:16-53 | keeps order, interface, meaning and the verifier's judgement |
| TransposeElimination.EliminateTransposes | cpp/src/passes/redundant_transpose_elimination_pass.cpp:17-58 | likewise for identity permutations |
| TransposeElimination.IdentityTransposeCopies | cpp/src/passes/redundant_transpose_elimination_pass.cpp:33-41 | the identity permutation copies |
| TransposeElimination.TransposeEliminationKeeps | cpp/src/passes/redundant_transpose_elimination_pass.cpp:17-58 | keeps order, interface, meaning and the verifier's judgement |
| Fusion.MatchUnaffected | cpp/src/passes/fuse_bias_gelu_pass.cpp:24-49 | tables taken once at the start match exactly what they would match on the graph rewritten so far |
| Fusion.ChainsDisjoint | cpp/src/passes/fuse_bias_gelu_pass.cpp:111-114 | no projection and no addition belongs to two chains |
| Fusion.AbsorbedUnused | cpp/src/passes/fuse_bias_gelu_pass.cpp:126-127 | nothing that stays uses what is erased |
| Fusion.FuseBiasGelu | cpp/src/passes/fuse_bias_gelu_pass.cpp:23-130 | one sweep fuses every chain of the original graph and erases its projection and addition; on a well-formed graph it reports a change exactly when there is a chain |
| FusionChains.MatchesAreChains | cpp/src/passes/fuse_bias_gelu_pass.cpp:31-96 | on a well-formed graph the matcher finds exactly the chains, with the bias on either side of the addition; a chain is described by kinds, attributes, use counts and shapes alone |
| FusionChains.FuseExactly | cpp/src/passes/fuse_bias_gelu_pass.cpp:98-127 | the operations afterwards: each chain's GELU as the projection with bias and activation, its parts gone, all others as they were |
| FusionSoundness.FusionKeepsMeaning | cpp/src/passes/fuse_bias_gelu_pass.cpp:98-109 | with commutative addition and no activated base, fusing keeps the meaning |
| FusionSoundness.FusionExactCondition | cpp/src/passes/fuse_bias_gelu_pass.cpp:59-69 | for a graph that evaluates, fusing keeps the meaning under every arithmetic with commutative addition exactly when no base is activated |
| FusionSoundness.FusionVerified | cpp/src/passes/fuse_bias_gelu_pass.cpp:80-87 | the fused graph is ordered, with the same interface; the verifier accepts it exactly when no chain was narrow |
| FusionWitnesses.ActivatedChainIsReceivable | cpp/src/passes/fuse_bias_gelu_pass.cpp:59-69 | a graph with an activated base that loader and verifier accept |
| FusionWitnesses.NarrowChainIsReceivable | cpp/src/passes/fuse_bias_gelu_pass.cpp:80-87 | a graph with a narrow chain that loader and verifier accept, and whose fusion the verifier rejects |
| FusionChains.NoChainLeft | cpp/src/passes/fuse_bias_gelu_pass.cpp:31-96 | the fused graph has no chain |
| FusionTwice.FuseTwice | cpp/src/passes/fuse_bias_gelu_pass.cpp:23-130 | fusing a second time changes nothing |
| DeadCodeElimination.FindLive | cpp/src/passes/dead_code_elimination_pass.cpp:18-46 | the worklist finds exactly the least set that holds outputs, inputs and side effects and is closed under operands |
| DeadCodeElimination.EliminateDeadCode | cpp/src/passes/dead_code_elimination_pass.cpp:17-80 | erases exactly what is not live, and reports a change exactly when something was |
| DeadCodeElimination.DeadCodeKeeps | cpp/src/passes/dead_code_elimination_pass.cpp:48-69 | keeps order, interface, meaning and the verifier's judgement |
| DeadCodeElimination.NoUnusedIntermediates | cpp/src/runtime/memory_planner.cpp:306-312 | every intermediate that stays is used or declared, unless its own producer has a side effect |
| ReorderingTwice.StableOrderTwice | cpp/src/passes/rewrite_utils.cpp:137-144 | reordering a second time changes nothing |
| PassesTwice.CanonicalisationTwice | cpp/src/passes/canonicalisation_pass.cpp:14-92 | canonicalising a verified graph a second time changes nothing |
| PassesTwice.ReshapesTwice | cpp/src/passes/redundant_reshape_elimination_pass.cpp:16-53 | one iteration leaves no redundant reshape |
| PassesTwice.TransposesTwice | cpp/src/passes/redundant_transpose_elimination_pass.cpp:17-58 | one iteration leaves no identity transpose |
| PassesTwice.DeadCodeTwice | cpp/src/passes/dead_code_elimination_pass.cpp:17-80 | everything in the erased graph is live |
| PassPipeline.PassKeepsVerified | cpp/src/passes/pass_manager.cpp:79-83 | subject reduction: the verifier accepts what a pass makes of an accepted graph, except exactly when fusion meets a narrow chain |
| PassPipeline.PassKeepsMeaning | cpp/src/passes/pass_manager.cpp:73-74 | a pass that is faithful to the graph it is given keeps its meaning; only folding and fusion ask for anything |
| PassPipeline.PassTwice | cpp/src/passes/pass_manager.cpp:73-74 | every pass is idempotent on verified, ordered graphs |
| PassPipeline.PipelineDeterministic | cpp/src/passes/pass_manager.cpp:62-86 | a list of passes makes one thing of a graph |
| PassPipeline.PipelineKeeps | cpp/src/passes/pass_manager.cpp:62-86 | a list of passes keeps order, interface and verification, and, if each is faithful to what reaches it, meaning |
| PassResults.UnchangedExactly | cpp/src/passes/pass_manager.cpp:73-74 | a pass leaves a verified graph alone exactly when what it looks for is not there |
| PassResults.PassInherits | cpp/src/passes/pass_manager.cpp:62-86 | what an earlier pass established and a later one keeps |
| PassManagement.RunPass | cpp/src/passes/pass_manager.cpp:73-77 | on verified graphs no pass fails, what it does to the graph is its transformation, and it reports a change exactly when the graph differs |
| PassManagement.PassManager.Run | cpp/src/passes/pass_manager.cpp:62-86 | succeeds exactly when the given graph is verified and no fusion meets a narrow chain; the graph is then what the passes make of it; the execution records are exact, their change flags included; failing on a verified graph means post-verification of the fusion |
| PassManagement.QuietExactly | cpp/src/passes/pass_manager.cpp:62-86 | a run to the end reports no change exactly when no pass of the list finds anything in the given graph |
| Optimization.ParseOptimizationLevel | cpp/src/passes/optimization.cpp:18-29 | inverts the level names, and rejects every other text |
| Optimization.OptimizeGraph | cpp/src/passes/optimization.cpp:45-73 | at each level: exact success condition, the pipeline of the level, verification, interface, meaning, and the counts; what is left is canonical and all live, at O1 nothing in it folds, at O2 it has no copying reshape or transpose; no change is reported exactly on graphs in the normal form of the level |
| Optimization.LevelStages | cpp/src/passes/optimization.cpp:52-64 | the passes of each level, in order |
| Optimization.LevelsFaithful | cpp/src/passes/optimization.cpp:52-64 | what the levels ask for: nothing at O0, sound folds at O1, at O2 also commutative addition where two-operand projections are not activated |
| Optimization.WideIsAccepted | cpp/src/passes/optimization.cpp:57-64 | a check on the original graph: where no projection is one element wide, fusion at O2 meets no narrow chain |
| Optimization.NoScalarsFoldFaithfully | cpp/src/passes/optimization.cpp:52-64 | a check on the original graph: where no scalar arithmetic stands, folding asks nothing of the arithmetic |
| Optimization.AgreementFoldsFaithfully | cpp/src/passes/optimization.cpp:52-64 | where the folder agrees with the operators, folding is faithful at every level to every graph |
| Optimization.OptimizationPreservesOutputs | cpp/src/passes/optimization.cpp:45-73 | after a successful optimisation every declared output evaluates as before, for all feeds |
| EndToEnd.PlannableAfterDeadCode | cpp/src/runtime/memory_planner.cpp:229-429 | after dead code elimination, planning succeeds exactly when the sizes fit and every intermediate a side effect produces is declared or used |
| EndToEnd.PlannableWhenLive | cpp/src/runtime/memory_planner.cpp:229-429 | the same of any graph without dead code, so of all that O1 and O2 leave |
| EndToEnd.UnusedEffectIsNotPlannable | cpp/src/runtime/memory_planner.cpp:308-312 | a graph loader and verifier accept that dead code elimination leaves unplannable |
| EndToEnd.OptimisedExecution | cpp/src/runtime/runtime_session.cpp:137-336 | optimise, from memory or written and loaded again, then execute: a call that completes delivers the values the original graph evaluates to |
| Compilation.PassKeepsNames | cpp/src/ir/graph_loader.cpp:262-269 | no pass invents an identifier or drops a parameter's digest |
| Compilation.OptimisedIsLoadable | cpp/src/core/cli_main.cpp:301-320 | what optimisation writes is accepted when loaded again, verified, with the interface of the original and, where the passes were faithful, its meaning |
| LoweredOptimum.LowerToStablehlo | cpp/src/mlir/stablehlo_lowering.cpp:677-687 | a module exactly for verified graphs all of whose operations have a lowering; which error otherwise; the module computes the graph |
| LoweredOptimum.OptimizeAndLower | cpp/src/core/cli_main.cpp:92-103 | optimise, write, load, lower: exact success condition, and the module, run on the arguments, returns what the original graph evaluates to |
| StablehloSyntax.TemporariesAreFresh | cpp/src/mlir/stablehlo_lowering.cpp:110-112 | a temporary clashes with no value, no region argument and no earlier temporary |
| StablehloSyntax.BatchedDotTyped | cpp/src/mlir/stablehlo_lowering.cpp:326-353 | the dimension numbers of the batched product give the declared shape by the rules of `dot_general` in the StableHLO specification |
| StablehloSyntax.LinearDotTyped | cpp/src/mlir/stablehlo_lowering.cpp:283-291 | likewise for a linear layer after the transposition of its weight |
| StablehloPatterns.BinaryLowered | cpp/src/mlir/stablehlo_lowering.cpp:248-263 | broadcasting both operands and combining cell by cell is the elementwise operation |
| StablehloPatterns.SoftmaxLowered | cpp/src/mlir/stablehlo_lowering.cpp:455-498 | the nine instructions compute the softmax along the axis |
| StablehloPatterns.RmsNormLowered | cpp/src/mlir/stablehlo_lowering.cpp:406-453 | the instructions compute the normalisation with its weight |
| StablehloProducts.MatMulLowered | cpp/src/mlir/stablehlo_lowering.cpp:292-353 | broadcasting the batches and contracting is the batched product |
| StablehloProducts.LinearLowered | cpp/src/mlir/stablehlo_lowering.cpp:283-353 | transposing the weight and contracting is the linear layer |
| StablehloProducts.ProjectionLowered | cpp/src/mlir/stablehlo_lowering.cpp:334-371 | with bias and GELU: what the evaluator's projection computes, wherever it has a value |
| StablehloEmitter.StablehloLowerer.EmitReduce | cpp/src/mlir/stablehlo_lowering.cpp:228-246 | appends one well-typed reduction over one axis; the result is a new name that holds the fold of every lane |
| StablehloEmitter.StablehloLowerer.EmitOperation | cpp/src/mlir/stablehlo_lowering.cpp:527-576 | lowers exactly the operations that have a lowering; defines the output with its declared type and, if the operation has a value, that value; everything defined before stays |
| StablehloModule.Lower | cpp/src/mlir/stablehlo_lowering.cpp:94-105 | succeeds exactly when every operation lowers; the module is well-typed SSA with the graph's arguments and results; where GELU is its formula, running it on any solution's arguments gives every value of the graph |

## Left out

- Reading and writing: JSON parsing, hashing, files, the command line, reports, DOT, CSV, SVG and HTML; the loader's checks appear as `WellFormedGraph`, of which the model's entry points demand what the loader establishes.
- Text: diagnostics, rewrite records, comments and formatting of the emitted module, kernel names and times in the trace, ratios of reuse. The lowering is modelled on instructions, not on characters, apart from the names of values and temporaries.
- Floating point: rounding, NaN, infinities and the accuracy of exp, erf and sqrt. Scalars are uninterpreted and carry no element type: one `Arith` stands for all types, and the literal of a constant is a function of the JSON value alone; conversions of literals are functions of `Arith`.
- Evaluator: its matrix product, mean, sum and maximum are modelled as the left folds the kernels perform and `rsqrt` as one over the square root; the library it calls is free to associate differently.
- GELU folding does not look at `approximate`; where that attribute is not `none` the operation has no value in the model, so nothing is claimed of it.
- ConstantFolding.FoldScalar: the overflow guard in `long double` is modelled as the exact range of 64-bit integers.
- Constants given as JSON arrays, and integer literals above 2^63 - 1, which the code would wrap.
- RowKernels.CausalMaskInto: row plus diagonal is an exact sum; in the code a sum beyond 2^63 - 1 is a signed overflow, which C++ leaves undefined.
- ProjectionKernels.LinearInto: the kernel does not compare row counts, and reads past the input if the output has more rows; that much is demanded of the caller, and verified graphs provide it (VerifiedLinearIsTyped).
- Several results per operation: the loader admits one, and the model has one.
- Memory limits: allocation failure, null pointers and `size_t` narrower than 64 bits. Views are arrays with an offset, backed by enough elements.
- `is_power_of_two` is modelled arithmetically, not by the bit trick.
- Runtime.Load: the graph is given, not read from a file; `verify_graph` runs three verifying passes whose checks together are those of `VerifyGraph`, once.
- Optimization.OptimizeGraph: the graph hash is not refreshed. Of what O2 leaves it is not claimed that nothing folds or fuses: copies and dead code are removed after folding, and dead code after fusion.
- StablehloModule.Lower: a float literal stands in the module as the number of the attribute; its decimal formatting in the emitted text, and with it what reading that text back gives, is not part of the model.
- Evaluator.EvaluateGraph: element types of tensors are not checked, as scalars carry none.
- StableHLO reductions are modelled as a left fold over one axis, the order the specification leaves open; the external validation tool is not part of this model.
- CUDA, the Python bindings, the exporter, the model, the benchmarks and the pipeline runner.
