# Pipeline-parallel program passes and `fusion_seqpool_concat`, in Dafny

This project models two pieces of PaddlePaddle.

1. The program passes that prepare a static-graph program for pipeline
   parallelism (`python/paddle/distributed/passes/pass_utils.py`):
   - dataflow summaries of a program's global block (its inputs and outputs);
   - pruning a program to an op range, and splitting it into pieces with the
     "valid outputs" each piece hands to later ones;
   - the liveness information: which arguments of an op are load-bearing,
     which names can be deleted, and the per-job `skip_gc_vars` that keep
     values alive across sub-programs;
   - the boundary hand-over between consecutive sub-programs (`shadow_output` / `data` pairs);
   - re-materialising an op and its variable declarations in another block;
   - the two synchronisation rewrites for send/receive ops: inserting
     stream syncs in place, or retagging the ops onto their own streams;
   - the partition of a program by op role into forward, backward and
     optimize programs, with fetch ops routed to the first part that can
     resolve them;
   - the event dependency between two operators.
2. The shape inference, the `pooltype` attribute and the LoD, offset and
   validation logic of the CPU kernel of the fused operator
   `fusion_seqpool_concat` (`paddle/fluid/operators/fused/fusion_seqpool_concat_op.cc`).

Data model (module `Ir`):
- An operator (`Op`) is a value: a type, input and output slots (each a name and an ordered argument list), attributes and distributed attributes.
- A block is a value: its ops, its variable table (name to declaration), its parent index and its forward-block index.
- A `Program` is a class whose `blocks` field the passes reassign in place. Its invariant `Valid()` says the parent indices form an arena: every parent comes before its child, and block 0 has none.
- The Python exceptions the passes can raise are an `Error` datatype: `AssertionFailed`, `IndexError`, `KeyError`, `ValueError`, `TypeError`. The constant `RangeError` (module `Partition`) is `IndexError("list index out of range")`.
- An operation that can raise returns a `Result` or an `Option<Error>`.

External decisions are parameters:
- the no-need-buffer registry is a function `Op -> set<string>`;
- the three role classifiers are a `RoleClassifier` value;
- the PIR flag and the new-executor flag are booleans.

Loops that grow or rewrite state are methods with loop invariants. Each is proved equal to a specification function, and the properties the pass promises are lemmas about that function.

Behaviour kept as the code has it:
- `split_program` credits each input of piece `i` to the *nearest* earlier piece that produces it: the scan goes from `i - 1` down and stops at the first match.
- Fetch ops go to the first of the forward, backward and optimize parts whose current block resolves the fetch's first input. For a sub-block that adds no ops to a part, that part's current block is the one left by the last block that did. The code behaves this way and the model does too.
- Appending the same op twice through re-materialisation gives two copies of the op. In the model, declaring a variable is a map update (see "## Left out" for how this differs from `create_var`). So declaring the same names twice gives the same table.
- `fusion_seqpool_concat` checks the inputs one at a time. For each input, the width check comes before the batch-size check. The check of `InferShape` for an empty input-dims list can never fail, because the input count was already checked. It is left out of the model.

## Model

| member | source | states |
|---|---|---|
| Dataflow.DedupMember | python/paddle/distributed/passes/pass_utils.py:49-57 | a name is in the ordered dictionary's keys iff it was in the list |
| Dataflow.DedupNoDup | python/paddle/distributed/passes/pass_utils.py:49-57 | the keys have no duplicates |
| Dataflow.DedupOrder | python/paddle/distributed/passes/pass_utils.py:49-57 | the keys are in first-occurrence order |
| Dataflow.DedupPrefix | python/paddle/distributed/passes/pass_utils.py:49-57 | adding a list to an existing ordered dictionary equals de-duplicating the concatenation |
| Dataflow.ListToOrderedDict | python/paddle/distributed/passes/pass_utils.py:49-57 | the loop returns the existing keys followed by the new names in first-occurrence order, without duplicates, and holds exactly the union of the names |
| Dataflow.ReadsBeforeWritesMember | python/paddle/distributed/passes/pass_utils.py:62-73 | a name is an input iff some op reads it and no earlier op wrote it |
| Dataflow.InputsOfMember | python/paddle/distributed/passes/pass_utils.py:62-73 | the program's inputs are the names read before any earlier write |
| Dataflow.OutputsOfMember | python/paddle/distributed/passes/pass_utils.py:76-80 | the program's outputs are exactly the names some op writes |
| Dataflow.ReadWriteOpIsInput | python/paddle/distributed/passes/pass_utils.py:64-72 | an op that reads and writes `x` makes `x` an input, because its inputs are visited before its outputs |
| Dataflow.UnwrittenReadIsEarly | python/paddle/distributed/passes/pass_utils.py:62-73 | a name read somewhere and written nowhere is an input |
| Dataflow.VisitInputs | python/paddle/distributed/passes/pass_utils.py:66-70 | visiting one op's inputs adds those not visited and not yet written, in order |
| Dataflow.GetInputsOfProgram | python/paddle/distributed/passes/pass_utils.py:62-73 | the method returns the inputs in first-read order, without duplicates |
| Dataflow.GetOutputsOfProgram | python/paddle/distributed/passes/pass_utils.py:76-80 | the method returns every written name once, in first-write order |
| Names.SortedNames | python/paddle/distributed/passes/pass_utils.py:241 | `sorted(set)` gives a strictly increasing list of exactly the set's names |
| Names.SortedUnique | python/paddle/distributed/passes/pass_utils.py:241 | there is one sorted list per set, so the result is determined |
| Ir.FindVarChain | python/paddle/distributed/passes/pass_utils.py:223-225 | a recursive lookup finds a name iff some block on the parent chain declares it, and then returns the nearest such declaration |
| Ir.IntToStringRoundTrip | python/paddle/distributed/passes/pass_utils.py:516 | `str(ring_id)` can be parsed back, so different rings give different stream names |
| Ir.IntToStringInjective | python/paddle/distributed/passes/pass_utils.py:516 | different ring ids give different decimal strings |
| Ir.FindVar | python/paddle/distributed/passes/pass_utils.py:223-225 | a name declared in the block itself is found there, before any ancestor is consulted |
| Slicing.PruneProgram | python/paddle/distributed/passes/pass_utils.py:83-115 | fails with an assertion iff the shifted bounds are out of range or not increasing; otherwise block 0 holds exactly `ops[start:end]` and the variables those ops name, and the other blocks are unchanged |
| Slicing.PruneShiftsOnce | python/paddle/distributed/passes/pass_utils.py:85-90 | a negative bound is shifted by the op count only once, so a bound below `-op_num` is rejected |
| Slicing.ReferencedIffUsed | python/paddle/distributed/passes/pass_utils.py:100-113 | a variable is kept iff some retained op reads or writes it |
| Slicing.RemoveOpsOutside | python/paddle/distributed/passes/pass_utils.py:94-97 | the two removal loops leave exactly `ops[start:end]` |
| Slicing.UsedNames | python/paddle/distributed/passes/pass_utils.py:100-105 | the loop collects every name read or written by an op |
| Slicing.Boundaries | python/paddle/distributed/passes/pass_utils.py:135-140 | the cut list starts at 0, ends at `op_num` and contains every resolved index |
| Slicing.BoundariesNegativeExample | python/paddle/distributed/passes/pass_utils.py:135-144 | negative indices resolve, 0 and `op_num` are added only when missing, and an unsorted list fails the check |
| Slicing.CutPointsInRange | python/paddle/distributed/passes/pass_utils.py:141-148 | each consecutive pair of strictly increasing cuts is a valid prune range |
| Slicing.PiecesConcat | python/paddle/distributed/passes/pass_utils.py:146-149 | the first `m` pieces concatenate to the ops before cut `m` |
| Slicing.SplitCoversProgram | python/paddle/distributed/passes/pass_utils.py:146-149 | all the pieces concatenate to the original ops |
| Slicing.SplitDocExample | python/paddle/distributed/passes/pass_utils.py:120-124 | 100 ops cut at `[25, 60]` give pieces of 25, 35 and 40 ops |
| Slicing.NearestProducer | python/paddle/distributed/passes/pass_utils.py:161-164 | the result is the largest index below `i` whose outputs contain the name, or -1 |
| Slicing.FindNearestProducer | python/paddle/distributed/passes/pass_utils.py:161-164 | the reverse scan with `break` finds the nearest producer |
| Slicing.ClaimsMember | python/paddle/distributed/passes/pass_utils.py:159-164 | a name is credited to piece `j` iff some later piece reads it and `j` is its nearest producer |
| Slicing.ValidOutputMember | python/paddle/distributed/passes/pass_utils.py:157-165 | for `j` before the last piece, a name is a valid output of `j` iff some later piece `i` reads it, piece `j` writes it and no piece between them writes it; every valid output is an output |
| Slicing.ValidOutputNoDup | python/paddle/distributed/passes/pass_utils.py:157-165 | no valid-output list has a duplicate |
| Slicing.NearestProducerExample | python/paddle/distributed/passes/pass_utils.py:157-165 | a three-piece example where the nearest producer, not the first one, gets the credit |
| Slicing.ComputeValidOutputs | python/paddle/distributed/passes/pass_utils.py:157-165 | the nested loops compute every piece's valid outputs, and the last piece keeps its raw outputs |
| Slicing.CreditReads | python/paddle/distributed/passes/pass_utils.py:159-164 | crediting piece `i`'s inputs extends every list by the claims of piece `i` |
| Slicing.PrunePieces | python/paddle/distributed/passes/pass_utils.py:150-156 | each piece is the pruned program of its range: its global block holds exactly the range's ops, the declarations those ops name (copied unchanged) and the original parent and forward block, and the other blocks are kept; it also returns each piece's inputs and ordered outputs |
| Slicing.PrunePiece | python/paddle/distributed/passes/pass_utils.py:150-156 | one iteration prunes piece `k` to its range and its used declarations, and takes its inputs and de-duplicated outputs |
| Slicing.SplitProgram | python/paddle/distributed/passes/pass_utils.py:118-166 | empty `op_indices` or an empty program fail; otherwise the split succeeds iff the cuts strictly increase, and then yields the pieces (each pruned to its range and to the declarations its ops name), their inputs and their valid outputs |
| Liveness.SlotNamesMember | python/paddle/distributed/passes/pass_utils.py:204-214 | the other-argument set holds exactly the arguments of slots outside the no-need set |
| Liveness.NeededMember | python/paddle/distributed/passes/pass_utils.py:216-220 | an argument is needed iff the no-need set is empty, or it sits in some input or output slot outside that set |
| Liveness.NoNeedOnlyNotNeeded | python/paddle/distributed/passes/pass_utils.py:216-220 | an argument found only in no-need slots is not needed |
| Liveness.OpInOutInfo.constructor | python/paddle/distributed/passes/pass_utils.py:174-177 | a new info object is not built and has empty sets |
| Liveness.OpInOutInfo.BuildInfo | python/paddle/distributed/passes/pass_utils.py:196-214 | records the registry's no-need slots; with none it returns early, otherwise it adds the kept arguments and marks itself built |
| Liveness.OpInOutInfo.AddSlotNames | python/paddle/distributed/passes/pass_utils.py:204-214 | one slot loop adds the arguments of the slots outside the no-need set |
| Liveness.VarCanBeDeletedCases | python/paddle/distributed/passes/pass_utils.py:223-225 | a name can be deleted iff its nearest declaration on the parent chain is not persistable; an undeclared name cannot |
| Liveness.DeletableNeededMember | python/paddle/distributed/passes/pass_utils.py:292-296 | an op contributes exactly its arguments that can be deleted and are needed |
| Liveness.OpRequiredMember | python/paddle/distributed/passes/pass_utils.py:282-296 | ops of type `c_sync_comm_stream`, `conditional_block`, `nop` and `while` contribute nothing; any other op contributes its deletable, needed arguments |
| Liveness.ProgramRequiredMember | python/paddle/distributed/passes/pass_utils.py:278-296 | a program's required set is the union over all blocks and ops |
| Liveness.OpRequiredVars | python/paddle/distributed/passes/pass_utils.py:290-296 | the argument loop computes one op's contribution |
| Liveness.BlockRequiredVars | python/paddle/distributed/passes/pass_utils.py:281-296 | the op loop computes one block's contribution |
| Liveness.RequiredVars | python/paddle/distributed/passes/pass_utils.py:278-296 | the block loop computes the program's required set |
| Shadowing.ShadowNames | python/paddle/distributed/passes/pass_utils.py:229-241 | the shadowed names are sorted and are exactly the deletable outputs of the current program that are deletable inputs of the next |
| Shadowing.ShadowNamesMember | python/paddle/distributed/passes/pass_utils.py:229-241 | the same, stated per op of the two global blocks |
| Shadowing.ShadowOpsAt | python/paddle/distributed/passes/pass_utils.py:242-249 | one `shadow_output` op per name, in sorted order |
| Shadowing.DataPrefixAt | python/paddle/distributed/passes/pass_utils.py:251-259 | prepending one `data` op per name leaves them in reverse sorted order |
| Shadowing.DataPrefixStartsWithGreatest | python/paddle/distributed/passes/pass_utils.py:251-259 | the next program then starts with the `data` op of the greatest name |
| Shadowing.CollectDeletableOutputs | python/paddle/distributed/passes/pass_utils.py:229-234 | the loop collects the deletable outputs |
| Shadowing.CollectDeletableInputs | python/paddle/distributed/passes/pass_utils.py:235-239 | the loop collects the deletable inputs |
| Shadowing.HandOverAllSeparate | python/paddle/distributed/passes/pass_utils.py:242-259 | for two programs, the current one gains the shadow ops at its end and the next one the data ops at its start |
| Shadowing.HandOverAllAliased | python/paddle/distributed/passes/pass_utils.py:242-259 | when both are the same program, it gains both, around its old ops |
| Shadowing.PrepareIrProgram | python/paddle/distributed/passes/pass_utils.py:228-262 | the pass rewrites both programs as the hand-over describes, including when they alias |
| Remat.CopiedDecl | python/paddle/distributed/passes/pass_utils.py:371-391 | opaque kinds get a kind-only declaration with their persistability; parameters stay persistable parameters; everything else is copied |
| Remat.CopiedDeclIdempotent | python/paddle/distributed/passes/pass_utils.py:371-391 | copying a copied declaration changes nothing |
| Remat.ReferenceCondition | python/paddle/distributed/passes/pass_utils.py:397-405 | a name is declared iff the source block has it, or `force_create` is set and its parent chain has it |
| Remat.DeclaredMember | python/paddle/distributed/passes/pass_utils.py:397-406 | after the loops, exactly the referenced resolvable names are declared with their copies, and nothing else changes |
| Remat.DeclaredIdempotent | python/paddle/distributed/passes/pass_utils.py:397-406 | declaring the same names twice equals declaring them once |
| Remat.DeclaredAppend | python/paddle/distributed/passes/pass_utils.py:397-406 | declaring the input names then the output names equals declaring all of them |
| Remat.CreateVar | python/paddle/distributed/passes/pass_utils.py:371-391 | an unresolvable name raises `ValueError` and leaves the block alone; otherwise its copy is declared |
| Remat.CreateVars | python/paddle/distributed/passes/pass_utils.py:397-406 | one loop declares the resolvable names |
| Remat.CreateProgram | python/paddle/distributed/passes/pass_utils.py:394-406 | the op is appended to the destination block and its names are declared |
| Remat.RematerializedDeclares | python/paddle/distributed/passes/pass_utils.py:394-406 | the appended op is last, and each referenced resolvable name carries the copied declaration |
| Remat.RematerializedTwice | python/paddle/distributed/passes/pass_utils.py:394-406 | a second call appends a second copy of the op and leaves the declarations as they were |
| SkipGc.ZipToMapMember | python/paddle/distributed/passes/pass_utils.py:274 | `dict(zip(...))` has a key iff it occurs in the zipped prefix, and the last pair for a key wins |
| SkipGc.ZipToMapValues | python/paddle/distributed/passes/pass_utils.py:274 | every sub-program in the map is one of the given sub-programs |
| SkipGc.SuffixMember | python/paddle/distributed/passes/pass_utils.py:299-317 | the accumulator of a micro-batch slot is the union of the required sets of the later jobs in that slot |
| SkipGc.SkipOfMember | python/paddle/distributed/passes/pass_utils.py:301-306 | job `k`'s skip set is its required set intersected with those of the later jobs on the same micro-batch |
| SkipGc.OtherMicroBatchIrrelevant | python/paddle/distributed/passes/pass_utils.py:299-317 | inserting a job of another micro-batch after job `k` leaves job `k`'s skip set unchanged |
| SkipGc.FourJobExample | python/paddle/distributed/passes/pass_utils.py:299-317 | a forward/forward/backward/backward schedule gives the forward jobs the shared names and passes |
| SkipGc.BackwardSkipRejected | python/paddle/distributed/passes/pass_utils.py:311-314 | a backward job with a non-empty skip set is an assertion failure |
| SkipGc.PassFromStep | python/paddle/distributed/passes/pass_utils.py:301-317 | a job passes if its type is known, its slot exists and it is not a backward job with skip vars |
| SkipGc.RequiredByType | python/paddle/distributed/passes/pass_utils.py:277-296 | the per-type required sets are the programs' required sets |
| SkipGc.SweepJobs | python/paddle/distributed/passes/pass_utils.py:299-317 | the jobs are visited from last to first; every job after the failing one gets its skip set, and the failing job's error is reported |
| SkipGc.LinkSubPrograms | python/paddle/distributed/passes/pass_utils.py:319-328 | consecutive job types are handed over in order; a missing type is a `KeyError` |
| SkipGc.AssignSkipGcVars | python/paddle/distributed/passes/pass_utils.py:276-317 | the skip sets are those of the programs' required sets as they were before the sweep, and the programs' blocks are unchanged |
| SkipGc.SetSkipGcVars | python/paddle/distributed/passes/pass_utils.py:265-330 | `num_micro_batches < 1` is an assertion failure; otherwise the skip sets are assigned, the backward check is enforced, and, with the PIR flag, the sub-programs are linked in job-type order |
| Streams.Overlapped | python/paddle/distributed/passes/pass_utils.py:511-524 | a send or receive gets `dynamic_shape = False`, `use_calc_stream = True`, priority 0, and its own stream; any other op is unchanged |
| Streams.OverlappedIdempotent | python/paddle/distributed/passes/pass_utils.py:511-524 | retagging twice equals retagging once |
| Streams.OverlappedBlocksIdempotent | python/paddle/distributed/passes/pass_utils.py:510-524 | running the whole overlap rewrite twice equals running it once |
| Streams.SendStreamsDistinct | python/paddle/distributed/passes/pass_utils.py:516-521 | sends on different rings get different streams, and none is the receive stream |
| Streams.OverlappedBlocksShape | python/paddle/distributed/passes/pass_utils.py:510-524 | the rewrite keeps every block's variables, parent, op count and op types |
| Streams.OverlapSendRecv | python/paddle/distributed/passes/pass_utils.py:502-524 | the nested loops retag every op of every block |
| Streams.OverlapBlock | python/paddle/distributed/passes/pass_utils.py:511-524 | the op loop retags one block |
| Streams.Recording | python/paddle/distributed/passes/pass_utils.py:631-632 | the recorder ends with `force_record_event` set and nothing else changed |
| Streams.WaitingAppends | python/paddle/distributed/passes/pass_utils.py:636-639 | the event is appended iff absent, existing entries keep their order, and a duplicate-free list stays duplicate-free |
| Streams.WaitingIdempotent | python/paddle/distributed/passes/pass_utils.py:636-639 | waiting for the same event twice equals once |
| Streams.DependencyHolds | python/paddle/distributed/passes/pass_utils.py:625-639 | after the call the recorder records its event, the waiter waits for it, and every other op is unchanged |
| Streams.DependencyIdempotent | python/paddle/distributed/passes/pass_utils.py:625-639 | adding the same dependency twice equals once |
| Streams.AddEventDependency | python/paddle/distributed/passes/pass_utils.py:625-639 | the method applies both updates, also when recorder and waiter share a program |
| Passes.PassAllOk | python/paddle/distributed/passes/pass_utils.py:416 | the block loop succeeds iff every block's rewrite does, and then each block is rewritten |
| Passes.PassFirstError | python/paddle/distributed/passes/pass_utils.py:416 | on failure, the blocks before the failing one are rewritten and it and the later ones are unchanged |
| Passes.PassUntouched | python/paddle/distributed/passes/pass_utils.py:416 | on success up to block `i`, the blocks from `i` on are still the originals |
| Sync.FirstWhere | python/paddle/distributed/passes/pass_utils.py:419-422 | the first index whose op satisfies the condition, or none |
| Sync.FirstIndexWhere | python/paddle/distributed/passes/pass_utils.py:419-422 | the scan with `break` finds that index |
| Sync.FirstWhereUnique | python/paddle/distributed/passes/pass_utils.py:419-422 | an index with no earlier match and a match there is the first index |
| Sync.Tuned | python/paddle/distributed/passes/pass_utils.py:427-432 | sends and receives get `dynamic_shape = False`, sends `use_calc_stream = False`, other ops are unchanged |
| Sync.SyncUpToError | python/paddle/distributed/passes/pass_utils.py:425-468 | phase 1 fails iff some send has no first input (`IndexError`), an undeclared first input (`ValueError`) or is a backward send in a block without an optimize op (`TypeError`), and then with the first such error |
| Sync.SyncKeepsOriginals | python/paddle/distributed/passes/pass_utils.py:425-468 | phase 1 only inserts ops: the original ops keep their relative order |
| Sync.SyncLayout | python/paddle/distributed/passes/pass_utils.py:425-468 | for well-formed sends, after the first `i` ops each send has its calc sync just before it; a non-backward send has its comm sync right after it, flagged if forward; the comm syncs of the backward sends, with the optimize role and latest send first, sit just before the first optimize op; the running offset counts the calc syncs and the forward sends' comm syncs, not the backward sends' comm syncs |
| Sync.SyncLayoutRest | python/paddle/distributed/passes/pass_utils.py:425-468 | the ops from the first optimize op on change nothing further |
| Sync.OtherRoleShiftsNextSend | python/paddle/distributed/passes/pass_utils.py:435-468 | outside the well-formed case: a send of role 257 followed by a forward send gives `[calc x, send x, calc y, comm x, comm y (flagged), send y]`, so the forward send's syncs are misplaced |
| Sync.UnitInExpanded | python/paddle/distributed/passes/pass_utils.py:435-468 | each rewritten send's unit occurs contiguously in the result |
| Sync.InsertSyncs | python/paddle/distributed/passes/pass_utils.py:425-468 | the phase-1 loop computes the specification step by step |
| Sync.InsertSendSyncs | python/paddle/distributed/passes/pass_utils.py:427-468 | one iteration inserts the syncs of one send |
| Sync.KeptSpawnedCount | python/paddle/distributed/passes/pass_utils.py:482-498 | with no error, the flagged ops removed equal the `nop` ops inserted, so the op count is kept |
| Sync.RemovePipelineSyncs | python/paddle/distributed/passes/pass_utils.py:480-498 | the phase-2 loop removes the flagged comm syncs before the first backward receive and, for the old executor, puts a `nop` for each right after that receive |
| Sync.Phase2Done | python/paddle/distributed/passes/pass_utils.py:480-498 | the loop's final state is the phase-2 result |
| Sync.Phase2Fails | python/paddle/distributed/passes/pass_utils.py:480-498 | a flagged op before the receive with no output (`IndexError`) or an undeclared output (`ValueError`) fails phase 2 with that error, the first one winning |
| Sync.Phase1FromFirst | python/paddle/distributed/passes/pass_utils.py:418-422 | the phase-1 scan uses the first optimize op |
| Sync.Phase2FromFirst | python/paddle/distributed/passes/pass_utils.py:471-478 | phase 2 runs from the first backward receive, and leaves a block without one unchanged |
| Sync.SyncBlock | python/paddle/distributed/passes/pass_utils.py:416-499 | one block is rewritten by phase 1 then phase 2 |
| Sync.SyncPhase1 | python/paddle/distributed/passes/pass_utils.py:417-469 | the method finds the first optimize op and runs phase 1 |
| Sync.SyncPhase2 | python/paddle/distributed/passes/pass_utils.py:471-499 | the method finds the first backward receive and runs phase 2 |
| Sync.SyncedBlock | python/paddle/distributed/passes/pass_utils.py:416-499 | only the block's ops change |
| Sync.SyncedBlockKeepsParent | python/paddle/distributed/passes/pass_utils.py:416-499 | a rewritten block keeps its parent |
| Sync.SyncOneBlock | python/paddle/distributed/passes/pass_utils.py:416-499 | the method computes one block's rewrite |
| Sync.SyncPassArena | python/paddle/distributed/passes/pass_utils.py:416-499 | the rewrite keeps the block structure valid |
| Sync.InsertSyncForFthenb1f1b | python/paddle/distributed/passes/pass_utils.py:409-499 | the pass rewrites the blocks in order and stops at the first error |
| Sync.SyncBlockAt | python/paddle/distributed/passes/pass_utils.py:416-499 | one iteration of the block loop |
| Partition.RoleIndex | python/paddle/distributed/passes/pass_utils.py:551-556 | forward, backward or optimize, in that order of precedence; none when no classifier accepts |
| Partition.SplitOpsIsFilter | python/paddle/distributed/passes/pass_utils.py:544-563 | splitting succeeds iff every non-fetch op has a role, and then each part is the ops of that role in their order |
| Partition.SplitOpsError | python/paddle/distributed/passes/pass_utils.py:557-562 | otherwise the error is the `ValueError` of the first unclassified op |
| Partition.SplitOps | python/paddle/distributed/passes/pass_utils.py:544-563 | a successful split has exactly three parts |
| Partition.SplitBlockOps | python/paddle/distributed/passes/pass_utils.py:544-563 | the loop computes the split |
| Partition.AddOps | python/paddle/distributed/passes/pass_utils.py:565-567 | re-materialising the ops appends them to the destination block and changes no other block |
| Partition.PlaceBlockShape | python/paddle/distributed/passes/pass_utils.py:569-600 | ops of block 0 go into block 0; a sub-block's non-empty part creates a new block with its parent and forward index, failing when the parent does not exist |
| Partition.FirstResolving | python/paddle/distributed/passes/pass_utils.py:606-609 | the first part whose current block resolves the name |
| Partition.RouteFetchTarget | python/paddle/distributed/passes/pass_utils.py:602-611 | a fetch goes to the current block of the first resolving part, or nowhere; no other part changes |
| Partition.RouteFetch | python/paddle/distributed/passes/pass_utils.py:602-611 | routing a fetch fails iff it has no input (`IndexError`), and keeps the destinations valid |
| Partition.RouteFetchesNone | python/paddle/distributed/passes/pass_utils.py:602-611 | a block without fetch ops routes nothing |
| Partition.PlacePartsGlobal | python/paddle/distributed/passes/pass_utils.py:571-579 | the global block's three parts are appended to the three global blocks |
| Partition.SingleBlockParts | python/paddle/distributed/passes/pass_utils.py:544-579 | a single-block program without fetches partitions iff every op has a role, and then part `q` is one block holding the role-`q` ops in order |
| Partition.ClassifiedGlobalCut | python/paddle/distributed/passes/pass_utils.py:544-579 | a classified single block without fetches gives three one-block programs holding the role-`q` ops |
| Partition.GlobalBlockRoleError | python/paddle/distributed/passes/pass_utils.py:557-562 | an unclassified op in the global block fails the partition with its error |
| Partition.Partitioned | python/paddle/distributed/passes/pass_utils.py:527-622 | on success there are exactly three parts, each a valid program |
| Partition.SyncedArena | python/paddle/distributed/passes/pass_utils.py:531-534 | either synchronisation rewrite keeps the source program's structure valid |
| Partition.ProgramForFthenbAnd1f1b | python/paddle/distributed/passes/pass_utils.py:527-622 | the source program is rewritten by the selected strategy, then partitioned into three fresh programs in the order forward, backward, optimize |
| Partition.PartitionProgram | python/paddle/distributed/passes/pass_utils.py:536-622 | the partition loop builds the three programs |
| Partition.PartitionBlocksInto | python/paddle/distributed/passes/pass_utils.py:569-611 | the block loop follows the partition specification and reports its first error |
| Partition.PartitionBlockInto | python/paddle/distributed/passes/pass_utils.py:569-611 | one source block is placed and its fetches routed, as specified |
| Partition.PartsOfDests | python/paddle/distributed/passes/pass_utils.py:536-622 | the programs' blocks are those built by the block loop, and its error is theirs |
| Partition.PlaceInto | python/paddle/distributed/passes/pass_utils.py:571-600 | one part of one block is placed as specified |
| Partition.CreateBlock | python/paddle/distributed/passes/pass_utils.py:582-585 | a new block with the given parent is appended, or the parent index is out of range |
| Partition.AddOpsInto | python/paddle/distributed/passes/pass_utils.py:565-567 | the loop appends and re-materialises the ops |
| Partition.RouteFetchesInto | python/paddle/distributed/passes/pass_utils.py:602-611 | the fetch loop routes every fetch op in order |
| SeqPoolConcat.InferShape | paddle/fluid/operators/fused/fusion_seqpool_concat_op.cc:25-69 | fails iff there is no input, no output, `axis != 1` or a first input that is not 2-D; otherwise `Out` is `{-1, dims0[1] * n}` and its LoD level is set to 1 iff not at runtime (at runtime it keeps whatever level it had) |
| SeqPoolConcat.InferShapeErrorOrder | paddle/fluid/operators/fused/fusion_seqpool_concat_op.cc:27-61 | the checks report the first failure, in source order |
| SeqPoolConcat.PoolTypeAttr | paddle/fluid/operators/fused/fusion_seqpool_concat_op.cc:81-85 | `pooltype` defaults to `SUM` and must be one of `AVERAGE`, `SUM`, `SQRT` |
| SeqPoolConcat.PoolKindRoundTrip | paddle/fluid/operators/fused/fusion_seqpool_concat_op.cc:124-129 | the three values select three poolings and name them back; anything else, including the default, sums |
| SeqPoolConcat.PoolTypeName | paddle/fluid/operators/fused/fusion_seqpool_concat_op.cc:81-85 | every pooling has a name in the attribute's enum |
| SeqPoolConcat.BuildYLod | paddle/fluid/operators/fused/fusion_seqpool_concat_op.cc:107-111 | the loop fills `y_lod[0]` with `0, 1, ..., bs` |
| SeqPoolConcat.PoolInput | paddle/fluid/operators/fused/fusion_seqpool_concat_op.cc:158-163 | the running `src` and `dst` pointers equal their closed forms: `dst = i*w + j*n*w`, `src = w*(lod[j] - lod[0])` |
| SeqPoolConcat.Compute | paddle/fluid/operators/fused/fusion_seqpool_concat_op.cc:98-165 | the kernel method computes the kernel's specification |
| SeqPoolConcat.PoolAllChecks | paddle/fluid/operators/fused/fusion_seqpool_concat_op.cc:137-157 | the input loop fails iff some input has another width or batch size, and then with the first such input's error |
| SeqPoolConcat.PoolAllCalls | paddle/fluid/operators/fused/fusion_seqpool_concat_op.cc:137-163 | when all inputs pass, input `i`'s calls are its `bs` sequences in closed form |
| SeqPoolConcat.ComputeChecks | paddle/fluid/operators/fused/fusion_seqpool_concat_op.cc:116-157 | the kernel fails iff `y_dims[1] % w != 0` or some input fails a check; divisibility is checked first |
| SeqPoolConcat.ComputeOutput | paddle/fluid/operators/fused/fusion_seqpool_concat_op.cc:105-163 | on success `Out` is `bs x y_dims[1]`, its LoD is `[0, 1, ..., bs]`, the pooling is the one `pooltype` selects, and the calls are as in closed form |
| SeqPoolConcat.DestinationsTile | paddle/fluid/operators/fused/fusion_seqpool_concat_op.cc:133-163 | distinct (input, sequence) pairs write disjoint runs of `w` values, all inside `bs * n * w` |
| SeqPoolConcat.ComputeWritesTile | paddle/fluid/operators/fused/fusion_seqpool_concat_op.cc:133-163 | the kernel's own calls write disjoint runs inside the output |
| SeqPoolConcat.SourcesContiguous | paddle/fluid/operators/fused/fusion_seqpool_concat_op.cc:158-163 | each input is read from offset 0 on, each call starting where the previous one stopped |
| SeqPoolConcat.InferredWidthDivides | paddle/fluid/operators/fused/fusion_seqpool_concat_op.cc:62 | for a 2-D first input, the width is `dims0[1]`, and the inferred `Out` width `n * dims0[1]` passes the divisibility check |

## Left out

- `framework.py` is not part of this model.
  - `_find_var_recursive` is modelled as a lookup along the parent chain only. The real lookup may also follow the forward block.
  - Remat.Declared, Remat.CreateVar: `create_var` on a name the destination block already declares is modelled as an overwrite with the new copy. Paddle's `Block.create_var` keeps the existing descriptor and raises `ValueError` when type, shape, dtype or LoD level differ. Those fields sit inside the opaque metadata value, so the model cannot compare them. The case is reachable when `Partition.RouteFetch` sends a fetch to a part's block left over from an earlier sub-block that already declares the name.
  - `_create_block` is assumed to raise `IndexError` for a parent index out of range (the model's constant `RangeError`).
- C++ descriptor syncing is left out: `_sync_with_cpp`, `desc.copy_from`, `_roll_to_global_block` and `Program.clone`. A pruned program is a fresh program value.
- Logging is left out.
- Stream names and event names are plain strings. The concurrent executor that interprets them is outside the model.
- The no-need-buffer registry, the role classifiers, the PIR flag and the new-executor flag are parameters.
- Declarations keep only kind, persistability and whether the variable is a parameter, plus one opaque metadata value. Shape, dtype, LoD level and the other copied fields are inside that value.
- Sync.SyncLayout: the layout is proved only for blocks whose sends all have role exactly Forward (0) or Backward (1) and come before the first optimize op. The code increases its offset only after a forward send's comm sync (lines 466-468) and never counts the backward comm syncs inserted at the first optimize op. So a send of any other role, or a send at or after the first optimize op, moves the syncs of the sends after it. The model computes that as written (`Sync.SyncUpTo`, shown by `Sync.OtherRoleShiftsNextSend`), but states no layout for it.
- Sync.InsertSyncForFthenb1f1b: when a block fails, the model leaves that block as it was. The Python code leaves it partly rewritten before raising.
- Job objects are modelled by their type, micro-batch id and skip set. A micro-batch id that is out of range for Python's list raises `IndexError`. Its negative indexing is modelled.
- `fusion_seqpool_concat`:
  - The float pooling of the JIT kernel is left out: the kernel is described by the calls it makes. So are the registration macros, `GetExpectedKernelType` and the `LOG(WARNING)`.
  - The kernel writes `Out`'s dims and LoD before its checks. The model reports only the error, not those partial writes.
  - Integer widths and casts are not modelled: `int64` dims, `int` width, `size_t` LoD offsets, and `static_cast<int>(lod[j + 1] - lod[j])`. Offsets are unbounded integers. A decreasing LoD would wrap in C++ and gives a negative `h` in the model.
  - SeqPoolConcat.Compute: the model requires every input to have a positive first dimension and the first input a non-zero width and a non-empty LoD. The kernel divides by the first two and indexes the third, so the source has undefined behaviour without them.
  - The `InferShape` check that the input-dims list is non-empty (lines 44-49) is left out: the earlier check on the input count already implies it.
