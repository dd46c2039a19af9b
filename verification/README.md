# FlowRulZ, verified

A Dafny 4.11 model of the core of FlowRulZ, a distributed rule engine, with machine-checked proofs of
what its parts promise. `dafny verify dfyconfig.toml` checks everything.

The runtime executes a compiled plan on a small virtual machine, either in one go (`run`) or one
suspension at a time (`step`). A node drives the stepper, stores a record around every service call,
undoes calls when an execution fails, and after a crash resumes from the stored record. Around this
sit a DAG executor, gossip between nodes, duplicate detection, rate limiting, a timer wheel,
work-stealing lanes, partition assignment and the record store.

| file | what it models |
|---|---|
| Prelude.dfy | options, bytes, replies, two facts about division |
| Vm.dfy | the machine: dispatch, run, step, gates, retries, as functions and as an object updated in place |
| VmModes.dfy | step mode against run mode, termination |
| VmGates.dfy | flat gated code against structured guarded blocks |
| VmFlow.dfy | what every opcode does, jumps included; flat code with jumps against blocks |
| VmFallback.dfy | calls with fallbacks as a first-success choice |
| Names.dfy | the two parsers of service names |
| Saga.dfy | the saga tracker |
| Driver.dfy | the durable step loop and recovery as functions to event traces, the step budget |
| Durable.dfy | the step loop against run mode: its output, its calls, its errors |
| Recovery.dfy, RecoveryNames.dfy | crash-recovery transparency; for which service names it holds |
| Node.dfy | the node object that runs the loop against store, services and saga |
| FileStore.dfy | the record store and its status index |
| Restart.dfy | recovery of everything in flight after a restart |
| Json.dfy | `deep_merge` |
| Dag.dfy, DagOrder.dfy, DagSkip.dfy, DagMerge.dfy, DagOutput.dfy | the DAG executor, order inside a layer, the SkipDependents policy, order of merging, what every input and output is |
| Dedup.dfy | the duplicate tracker |
| RateLimit.dfy | the token bucket |
| TimerWheel.dfy | the timer wheel |
| Gossip.dfy, GossipSystem.dfy | one gossiping node; a cluster of them over an unreliable network |
| Scheduler.dfy | priority lanes and work-stealing workers, interleaved |
| Partition.dfy | partition assignment by leader and follower |

How the proofs are laid out. Code that updates state in place is a class or a method with loops, and
its contract ties it to a function on values. The theorems are about those functions. Where several
processes interleave (gossip, the scheduler) the model is a step system: a run is any sequence of
enabled actions, and the theorems hold at every point of every run. Service replies, gate
conditions, Map expressions, JSON text, clocks and the order of map iteration are arbitrary
functions, parameters or nondeterministic choices.

Where a property fails for some inputs, the code is modelled as it is. An equivalence says exactly when
the property holds for

- a call with fallbacks as a first-success choice (`VmFallback.FirstSuccessIff`, with
  `VmFallback.FailureOutlivesAnswer` as the smallest failing plan),
- feeding an answer instead of dispatching the call (`VmModes.FeedMatchesDispatch`),
- a failed gate landing at the end of its block (`VmGates.SkipLandsAtBlockEnd`, with
  `VmGates.UnpaddedGateSkipsLabel`),
- crash recovery under names with a compensator (`RecoveryNames.TransparentIffPlain`, with
  `RecoveryNames.LoneCallBreaksRecovery` as the smallest failing run) and the two parsers of such names (`Names.ParsersAgree`),
- DAG runs that are not aborted (`DagSkip.RunCompletesIff`),
- two DAG nodes visited in either order (`DagOrder.PairOrderIff`, with `DagOrder.DependentOrderMatters`),
- gossip updates in any order (`Gossip.OrderIrrelevantIff`, with `Gossip.TieOrderMatters`),
- merging in either order (`Json.CommuteIff`, `Json.MergeInEitherOrder`),
- timers firing on the requested tick (`TimerWheel.OnTimeIffShort`),
- the status index staying exact (`FileStore.SaveExactIff`, with `FileStore.LiveListedTwice`),
- the two tables of a partition manager (`Partition.AppliedInverseIff`).

Tokens handed back to a bucket raise what can be taken from it (`RateLimit.HandingBackRaisesTaken`); the
bound that remains for every history is `RateLimit.TakenBound`.

## Model

| member | source | states |
|---|---|---|
| Vm.VM.CountSkipped | runtime/src/executor/gate.rs:28-37 | the scanning loop counts the instruction after the gate and the straight run behind it, up to the next boundary or the end of the plan |
| Vm.VM.Settle | runtime/src/executor/vm.rs:127-145 | a reply becomes the body and a hop; a failed call sets the failed flag and is appended to the errors, and the machine goes on |
| Vm.VM.CallWithRetry | runtime/src/executor/next.rs:28-67 | with a deterministic service the loop of attempts ends with the reply of one attempt; a retrying Async throws a good answer away |
| Vm.VM.CallNext | runtime/src/executor/next.rs:8-25 | the call, with or without retries, as run mode makes it |
| Vm.VM.Execute | runtime/src/executor/vm.rs:85-124 | every opcode updates the context in place exactly as the dispatch function on values says, or reports the same error; `VmFlow.EffectObeys` and `VmFlow.JumpGoes` say what that is |
| Vm.VM.Proceed | runtime/src/executor/vm.rs:40-44 | fetch, advance and dispatch are one turn of the value machine |
| Vm.VM.RunToEnd | runtime/src/executor/vm.rs:38-46 | from every start from which the loop stops at all, `run` ends with the context or error of the value machine |
| Vm.VM.StepOnce | runtime/src/executor/vm.rs:48-83 | `step` feeds the response, suspends at service calls without moving, and otherwise dispatches once; result and context are those of the step function |
| VmModes.FeedMatchesDispatch | runtime/src/executor/vm.rs:49-67 | feeding an answered call reaches the context that dispatching it reaches if and only if the instruction is no Emit and no retrying Async with a non-empty answer |
| VmModes.Lockstep | runtime/src/executor/vm.rs:48-83 | n step calls and n dispatches are in the same state, up to the last call that reports the end, if the instructions reached are feedable |
| VmModes.StepRefinesRun | runtime/src/executor/vm.rs:38-83 | for every plan (loops and gates included), host, start and bound n, if every call reached within n dispatches is answered and is no Emit and no retrying Async with a non-empty answer: a run that halts in n dispatches is reproduced, body, hops and error, by n + 1 step calls, a drive that halts is such a run, and otherwise both are in the same context |
| VmModes.SafePlansAreFeedable | runtime/src/executor/vm.rs:62-66 | plans without Emit and retrying Async, on hosts that always answer, meet that condition from every start |
| VmModes.EmitDiverges | runtime/src/executor/vm.rs:62-66 | a lone Emit counts a hop in step mode and none in run mode |
| VmModes.FaultDiverges | runtime/src/executor/vm.rs:139-143 | a failed call is recorded and passed over in run mode and ends the drive in step mode |
| VmModes.StepReports | runtime/src/executor/vm.rs:61-76 | a step at a service call reports service, body and 32-bit timeout and changes nothing; at a delay it reports the milliseconds and moves one position; nothing else suspends or pauses |
| VmModes.TurnAdvances | runtime/src/executor/vm.rs:239-250 | with forward jumps only, every dispatch moves forward, gates and Drop included |
| VmModes.RunTerminates | runtime/src/executor/vm.rs:38-46 | with forward jumps `run` makes at most one dispatch per instruction left, whatever the services answer |
| VmModes.DriveTerminates | runtime/src/executor/vm.rs:48-83 | the stepping driver needs at most one call more than that |
| VmGates.SkipLandsAtBlockEnd | runtime/src/executor/gate.rs:28-37 | a failed gate lands at the end of its block if and only if no boundary follows it directly |
| VmGates.RunsStraight | runtime/src/executor/vm.rs:85-124 | running through code without gates is executing it as a sequence of effects, Drop and errors included |
| VmGates.RunsBlocks | runtime/src/executor/vm.rs:193-199 | running from the start of any block is interpreting the remaining blocks |
| VmGates.RunIsStructured | runtime/src/executor/vm.rs:38-46 | for jump-free plans with padded gates `run` is the interpreter over blocks: a guarded block runs iff its gate holds on the body at that moment |
| VmGates.BlocksCoverPlan | runtime/src/executor/gate.rs:28-37 | the blocks put together are the plan: nothing lost, nothing reordered |
| VmGates.BlockCut | runtime/src/executor/gate.rs:28-37 | a block ends right before the next gate or label, or with the plan |
| VmGates.UnpaddedGateSkipsLabel | runtime/src/executor/gate.rs:28-37 | without padding a failed gate in front of a label also skips the label's block |
| VmFlow.EffectObeys | runtime/src/executor/vm.rs:85-290 | every opcode but Gate, Jmp and Drop means what a table of six questions says: which service or host function it asks, whether the answer replaces the body, counts a hop or clears the failure, and whether a fault is recorded or ends the run |
| VmFlow.JumpGoes | runtime/src/executor/vm.rs:239-250 | a run at a jump goes on at its target with nothing else changed, and ends with an error if the target is outside the plan |
| VmFlow.RunFollowsBlocks | runtime/src/executor/vm.rs:38-46 | for every plan with padded gates and jumps in any direction, also into the middle of a block: a run that halts ends with the context or error of the block interpreter |
| VmFlow.BlocksAreRun | runtime/src/executor/vm.rs:38-46 | conversely, blocks that come to an end are reproduced by the run, within one dispatch per instruction of the plan for each block |
| VmFallback.FirstSuccessIff | runtime/src/executor/vm.rs:127-191 | a call with its fallbacks, anywhere in any plan and from any context, is a first-success choice (answer of the first service that answers the body, one hop, the messages of exactly those before it; with none the body is kept and the failure marked) if and only if no failure is pending before it or the call itself fails |
| VmFallback.RunFirstSuccessIff | runtime/src/executor/vm.rs:38-46 | the same equivalence for the outcome of `run` when the chain ends the plan |
| VmFallback.ChainMeans | runtime/src/executor/vm.rs:127-191 | what the chain leaves in every case: with a pending failure and an answered call, the fallbacks choose again on the answer |
| VmFallback.RunPassesChain | runtime/src/executor/vm.rs:38-46 | inside a longer plan `run` goes on behind the chain with exactly that |
| VmFallback.FirstSuccessWins | runtime/src/executor/vm.rs:127-191 | a plan that is a call with fallbacks ends, from a body, with the first success |
| VmFallback.AnsweredStays | runtime/src/executor/vm.rs:172-191 | fallbacks do nothing while no failure is pending |
| VmFallback.FailureOutlivesAnswer | runtime/src/executor/vm.rs:127-191 | the smallest plan in which an earlier failure makes a fallback replace an answer |
| Names.ParsersAgree | server/bridge/bridge.go:159-183 | the step loop's parser and the recovery parser name the same service method if and only if the name has no colon |
| Names.MethodRoundTrip | server/bridge/bridge.go:159-164 | `service.method` is read back as service and method, further dots belonging to the method, and a name without a dot is a service |
| Names.CompensationRoundTrip | server/bridge/bridge.go:166-183 | a name with a compensator is read back as service, method and compensator, which without a dot is a method of the same service |
| Names.GeneratedName | server/internal/node/execute_plan.go:115-119 | the digits of a number denote it in base ten |
| Names.UnknownName | server/internal/node/execute_plan.go:115-119 | an id missing from the table is named `svc-` and its decimal number |
| Names.PlainNames | server/internal/node/execute_plan.go:115-119 | a service table without compensators gives no pending call a name with a colon, the fallback name included |
| Saga.UndoIsReverse | server/internal/reliability/saga.go:85-95 | compensating steps that all have a compensator visits them in reverse |
| Saga.UndoMembers | server/internal/reliability/saga.go:85-95 | a step is compensated as often as it was registered if it names a compensating service or method, and never otherwise |
| Saga.SagaTracker.RegisterStep | server/internal/reliability/saga.go:68-73 | appends to this execution's steps and touches nothing else |
| Saga.SagaTracker.Compensate | server/internal/reliability/saga.go:75-101 | the registered steps are undone newest first whether or not compensators fail; exactly the failing ones are reported; nothing stays registered |
| Saga.SagaTracker.Clear | server/internal/reliability/saga.go:112-121 | forgets the steps of an execution without undoing any |
| Driver.StepAdvances | runtime/src/executor/vm.rs:48-83 | what each kind of step result says about position and instruction: suspending leaves the position, continuing moves forward and stays inside the plan |
| Driver.StaysInBudget | server/internal/node/execute_plan.go:79-165 | from any step number and context, a plan with forward jumps ends before the limit if more steps are left than instructions |
| Driver.SmallPlansFit | server/internal/node/execute_plan.go:79-165 | plans of at most 999 instructions with forward jumps never hit the 1000-step limit |
| Driver.CallChainBudget | server/internal/node/execute_plan.go:164-165 | the bound is tight: a plan of answered calls runs out of steps if and only if it has no fewer instructions left than steps |
| Driver.ThousandCallsDoNotFit | server/internal/node/execute_plan.go:164-165 | a plan of a thousand answered calls does hit the limit |
| Driver.CallOfName | server/internal/node/execute_plan.go:115-131 | a service named in full is called by service and method, with its compensator |
| Durable.LoopEndsAsDrive | server/internal/node/execute_plan.go:76-166 | from any step, context, response and record, the loop ends with the body of the final context as output when driving the machine finishes within the steps left, and with no output when it fails (plans without Delay) |
| Durable.OutputIsRun | server/internal/node/execute_plan.go:95-102 | a durable execution returns the body that `run` computes from an empty body, or an error where `run` fails, for plans without Delay whose run-mode calls reach the same services, if the run halts within fewer dispatches than there are steps and the calls it reaches can be fed |
| Durable.CallsAreAnnounced | server/internal/node/execute_plan.go:103-131 | right before every call a record is saved that waits for this service with this body, and its context is one in which the machine waits for exactly that |
| Durable.EndExplained | server/internal/node/execute_plan.go:79-166 | a service error is the answer to the last thing that happened, a call of the service named; a cancellation was seen at the step it names |
| Recovery.StepsBounded | server/internal/node/execute_plan.go:79-165 | a drive never takes more steps than are left |
| Recovery.Shift | server/internal/node/execute_plan.go:76-166 | a completing drive does the same, event for event, from every other step number that leaves room for it |
| Recovery.SuspensionRepeats | runtime/src/executor/vm.rs:61-67 | the context stored at a suspension suspends again in the same way |
| Recovery.CrashPoint | server/internal/node/execute_plan.go:103-156 | after any non-empty prefix of the events of a completing run whose awaited services answer alike under both readings of their names, the stored record can be resumed to the same output, with at most one call to repeat |
| Recovery.RecoverCompletes | server/internal/node/recovery.go:59-105 | recovery from such a record ends with the output and issues the calls of the replay, the repeated one under the recovery parser's reading of its name |
| Recovery.CrashDuringRecovery | server/internal/node/recovery.go:59-105 | a recovery that crashes after any of its events again leaves such a record, with at most one more call to repeat |
| Recovery.CrashRecoveryTransparent | server/internal/node/recovery.go:59-105 | crash a completing execution, whose awaited services answer alike under both readings of their names, after any saved record or call, and any number of its recoveries anywhere: the next recovery ends with the same output within the step budget, its calls are a tail of the undisturbed calls (exactly so for plain names, else but for the name of the first), and each crash repeats at most one call |
| RecoveryNames.TransparentIffPlain | server/internal/node/recovery.go:73-92 | for a completing run, every choice of services that answers the step loop's addresses as given makes all crashes transparent if and only if no service the run waits for has a compensator suffix in its name |
| RecoveryNames.SameRun | server/internal/node/execute_plan.go:115-131 | services that differ only at addresses with a colon leave the undisturbed run unchanged, event for event |
| RecoveryNames.LoopAddressIsClean | server/bridge/bridge.go:166-183 | the step loop's parser never puts a colon into an address |
| RecoveryNames.CompensatedNameBreaksRecovery | server/internal/node/recovery.go:78-86 | in any completing run, a crash while it waits for a service that fails under the recovery parser's reading of its name is not recovered from |
| RecoveryNames.LoneCallBreaksRecovery | server/internal/node/recovery.go:78-86 | the smallest such run: one call of a service with a compensator suffix completes undisturbed and fails when recovered |
| RecoveryNames.PlanWaitsPlain | server/internal/node/execute_plan.go:103-119 | a plan none of whose suspending instructions has a compensated name never waits for one, whatever happens |
| RecoveryNames.PlainTable | server/internal/node/recovery.go:62-67 | a service table without compensators makes every plan such a plan |
| Node.Runner.ExecuteStep | server/bridge/execute.go:175-229 | a machine rebuilt from the stored context makes exactly one step |
| Node.Runner.Invoke | server/internal/node/execute_plan.go:115-135 | the compensator is registered before the call, so the failing call is registered too; other executions are untouched |
| Node.Runner.Iterate | server/internal/node/execute_plan.go:87-161 | one iteration saves, calls and registers exactly what one unfolding of the trace says, and ends as it ends |
| Node.Runner.Loop | server/internal/node/execute_plan.go:79-165 | the whole loop produces the trace: store, log, registered steps, record and end, which `Durable.OutputIsRun` ties to run mode |
| Node.Runner.RunSteps | server/internal/node/execute_plan.go:76-166 | saga exactness: for a fresh id a run that ends in an error compensates every compensable call it issued once, the failing one included, in reverse, even if compensators fail; a completing run compensates none; nothing stays registered, other executions are untouched |
| Node.Runner.ExecutePlan | server/internal/node/execute_plan.go:25-74 | the record ends as completed with the output, or as failed; what was saved and called is the trace; nothing is undone on success, every compensable call of a failed fresh execution is undone once in reverse, and no steps stay registered |
| Node.Runner.Retry | server/internal/node/recovery.go:73-92 | a waiting execution repeats its call under the recovery parser, and is then resumed or ended as the recovery trace says |
| Node.Runner.RecoverExecution | server/internal/node/recovery.go:59-105 | ends as the recovery trace says; the record is deleted on success and marked as failed otherwise; other records stay; a failing repeated call keeps the record but for its status and leaves the saga untouched, with its steps registered, and otherwise the saga is settled as by the step loop |
| Restart.ListInFlight | server/internal/node/recovery.go:30 | from a store just opened, the ids of the executions in flight, each once |
| Restart.RecoverAll | server/internal/node/recovery.go:45-55 | recovering listed executions one after the other, in any order, settles each and touches no other record |
| Restart.RecoverInFlight | server/internal/node/recovery.go:25-57 | after a restart every execution in flight is recovered exactly once; it ends deleted if its recovery completes and marked as failed otherwise; all other records stay |
| Restart.CrashedIsSettled | server/internal/node/recovery.go:94-104 | every record that crashes of a completing execution can leave is in flight, and a restart completes and deletes it |
| Node.UndoFresh | server/internal/node/recovery.go:16-23 | what a trace registers, undone, is the reverse of its compensable calls |
| FileStore.BuildIndex | server/internal/execstate/filestore.go:155-175 | the rebuilt index lists every record under its status and nothing else |
| FileStore.SaveKeepsCover | server/internal/execstate/filestore.go:194-207 | saving keeps every record past creation under its status, whatever status the index reports |
| FileStore.SaveExactIff | server/internal/execstate/filestore.go:194-207 | saving keeps the index exact if and only if it moves no record out of Created and stores no new one as Created |
| FileStore.CreateDeleteKeepExact | server/internal/execstate/filestore.go:59-148 | creating a new record and deleting one keep an exact index exact |
| FileStore.NeverMissed | server/internal/execstate/filestore.go:98-135 | a covering index lists every record past creation whose status is asked for |
| FileStore.ListedOnce | server/internal/execstate/filestore.go:98-135 | an exact index lists exactly the records asked for, each once |
| FileStore.LiveAlwaysListed | server/internal/execstate/filestore.go:59-148 | after any sequence of Create, Save and Delete, with any status reported to each Save, every running or waiting record is listed |
| FileStore.LiveListedTwice | server/internal/execstate/filestore.go:209-218 | a created, then running, then waiting record can be listed twice among the live ones |
| FileStore.Store.constructor | server/internal/execstate/filestore.go:155-175 | a store opens with an exact index of the files found |
| FileStore.Store.Create | server/internal/execstate/filestore.go:59-73 | succeeds exactly for a new id, and stores and indexes it |
| FileStore.Store.ReportedStatus | server/internal/execstate/filestore.go:209-218 | some status under which the index holds the id, or the default |
| FileStore.Store.Save | server/internal/execstate/filestore.go:75-88 | stores the record and moves it in the index from some reported status |
| FileStore.Store.Delete | server/internal/execstate/filestore.go:137-148 | removes file and index entry of this id only |
| FileStore.AlwaysListed | server/internal/execstate/filestore.go:98-135 | a covering index lists every record past creation, asked for by status or with all others |
| FileStore.Store.ListByStatus | server/internal/execstate/filestore.go:98-135 | the stored records, oldest first, each as often as the listed buckets hold it (all buckets when no status is given); every record past creation whose status is asked for is there |
| FileStore.Store.ListLive | server/internal/node/recovery.go:30 | every running or waiting record of any store, and exactly these, each once, when the index is exact |
| FileStore.InsertByAgeSpec | server/internal/execstate/filestore.go:98-135 | insertion keeps the list sorted by creation time and loses nothing |
| Json.MergeInto | runtime/src/executor/dag.rs:183-196 | the loop over the source's entries, in any order, computes the merge |
| Json.MergedAt | runtime/src/executor/dag.rs:183-196 | the value at every path of a merge: the target's where the path leaves the source, a leaf of the source as it is, objects merged, nothing below a leaf |
| Json.EmptyIsLeftIdentity | runtime/src/executor/dag.rs:118 | merging into the empty object gives the source |
| Json.EmptyIsRightIdentity | runtime/src/executor/dag.rs:183-196 | merging the empty object changes no object |
| Json.MergeIdempotent | runtime/src/executor/dag.rs:183-196 | merging the same source twice is merging it once |
| Json.CommuteIff | runtime/src/executor/dag.rs:183-196 | two values merge to the same either way round if and only if they do not conflict |
| Json.MergeInEitherOrder | runtime/src/executor/dag.rs:183-196 | two sources merge into a value, whichever it is, in either order if and only if they do not conflict |
| Dag.ListTerminals | runtime/src/executor/dag.rs:99-116 | null for a failed terminal, its JSON or text for an answered one, in order |
| Dag.MergeDeepTerminals | runtime/src/executor/dag.rs:117-131 | the terminals that neither failed nor are unparsable, merged in order |
| Dag.KeyTerminals | runtime/src/executor/dag.rs:132-150 | answers under service names, null for failures under the numbered key |
| Dag.MergeLastWins | runtime/src/executor/dag.rs:157-181 | one text entry per failed or answered terminal, in order |
| Dag.MergeTerminals | runtime/src/executor/dag.rs:90-155 | the loops of the four strategies compute the output that `DagOutput.ArrayOutput`, `DeepOutput`, `MapOutput` and `TextOutput` characterise |
| Dag.BuildInput | runtime/src/executor/dag.rs:36-54 | the body for a root, else the body with the parents' parsable results merged in, or an error on an unparsable body |
| Dag.VisitNode | runtime/src/executor/dag.rs:21-76 | unknown ids are passed over; skip, call, failure and abort as the policy says |
| Dag.Execute | runtime/src/executor/dag.rs:8-88 | the nested loops compute the result of the value executor, an abort included; its output, inputs and aborts are what the `DagOutput` laws say |
| DagOutput.InputLaw | runtime/src/executor/dag.rs:36-54 | the input of a node: a root gets the body; else at every path what the last parent that covers it answered, and otherwise what the body has; an unparsable body is an error |
| DagOutput.ArrayOutput | runtime/src/executor/dag.rs:99-116 | ArrayConcat returns the array with one item per terminal that failed or answered, in order: null, the parsed response or its text |
| DagOutput.DeepOutput | runtime/src/executor/dag.rs:117-131 | MergeDeep returns the object that has at every path the value of the last terminal, neither failed nor unparsable, that covers the path |
| DagOutput.MapOutput | runtime/src/executor/dag.rs:132-150 | ExplicitMap returns the object with exactly the keys under which a terminal is listed, each with the value of the last one |
| DagOutput.TextOutput | runtime/src/executor/dag.rs:157-181 | LastWins returns the text of braces around one quoted name with null or raw response per terminal that failed or answered, in order |
| DagOutput.JoinIsCommas | runtime/src/executor/dag.rs:178 | the entries are separated by single commas |
| DagOutput.FailureHasCause | runtime/src/executor/dag.rs:20-77 | an aborted run names its cause: a node with parents and an unparsable body, or, under AbortAll, a node whose call failed with that message |
| DagOutput.FirstNodeCounts | runtime/src/executor/dag.rs:22-60 | the first node of the table with an id gives its parents and, by its place, its timeout |
| DagOrder.JudgeLocal | runtime/src/executor/dag.rs:22-62 | what happens to a node depends on its parents' results and failures only |
| DagOrder.LayerBySet | runtime/src/executor/dag.rs:20-77 | visiting independent nodes in any order, repetitions included, aborts if and only if one of them would, under any policy, and otherwise has the effect of their set |
| DagOrder.MergeLocal | runtime/src/executor/dag.rs:90-181 | the merged output depends on results and failed set only |
| DagOrder.LayerOrderIrrelevant | runtime/src/executor/dag.rs:20-87 | under every policy, reordering the nodes of any layers of independent nodes leaves results, failed set and output unchanged, or both runs abort |
| DagOrder.PairOrderIff | runtime/src/executor/dag.rs:20-77 | under every policy, two known nodes can be visited in either order, whatever the services and the body, if and only if neither is a parent of the other |
| DagOrder.DependentOrderMatters | runtime/src/executor/dag.rs:29-34 | in every table and state, when a node's parent fails and the node would be answered, visiting them in the two orders ends differently |
| DagSkip.LayersAreVisits | runtime/src/executor/dag.rs:20-21 | the nested loops visit the layers' nodes in sequence |
| DagSkip.LayersAreTopological | runtime/src/executor/dag.rs:20-21 | well-layered tables are visited parents first |
| DagSkip.SkipAbortsIff | runtime/src/executor/dag.rs:37-43 | under SkipDependents a run in topological order is aborted if and only if the body is not JSON and some node has parents that are all roots answering that body |
| DagSkip.ContinueAbortsIff | runtime/src/executor/dag.rs:37-43 | under ContinueOthers a run is aborted if and only if the body is not JSON and some node has parents |
| DagSkip.AbortAllIff | runtime/src/executor/dag.rs:67-74 | an AbortAll run goes through if and only if the ContinueOthers run does and fails nowhere, and then they are the same |
| DagSkip.RunCompletesIff | runtime/src/executor/dag.rs:20-77 | exactly when the run of a well-layered table is not aborted: the body is JSON or no node is stuck without it; or no node has parents, under ContinueOthers; and under AbortAll, the data-flow equations have a solution in which every node is called and answers |
| DagSkip.FollowsSolution | runtime/src/executor/dag.rs:67-74 | an AbortAll run finds the results of any such solution |
| DagSkip.SkipDependentsExact | runtime/src/executor/dag.rs:20-77 | if the body is JSON or no node is stuck without it, the run goes through; the failed set is exactly the nodes whose call failed and all their descendants; a node is called exactly when no ancestor's call failed, then once and after its parents |
| DagSkip.RunSolvesDataflow | runtime/src/executor/dag.rs:36-65 | under every policy, if its condition holds the run goes through, each call's input is built from the final results of the node's parents and each result is that call's answer |
| DagMerge.FoldOrderIrrelevant | runtime/src/executor/dag.rs:44-52 | values that pairwise do not conflict merge to the same in every order |
| DagMerge.ParentOrderIrrelevant | runtime/src/executor/dag.rs:36-54 | the order in which a node lists parents whose results do not conflict leaves its input unchanged |
| DagMerge.TerminalOrderIrrelevant | runtime/src/executor/dag.rs:117-131 | the order of terminals whose responses do not conflict leaves the deep merge unchanged |
| DagMerge.LastLeafWins | runtime/src/executor/dag.rs:117-131 | a leaf of a terminal's response is in the deep merge, at its path, unless a later terminal covers that path |
| DagMerge.RunSettles | runtime/src/executor/dag.rs:20-77 | every known node of the layers ends as failed or answered unless the run is aborted, which the policy's condition excludes on well-layered tables |
| DagMerge.ItemsAligned | runtime/src/executor/dag.rs:99-181 | array and text have exactly one entry per settled terminal, in order: null, the parsed response or its text; under its name, null or the raw response |
| DagMerge.KeyedByLast | runtime/src/executor/dag.rs:132-150 | a key is in the explicit map if and only if some terminal is listed under it, with the value of the last one |
| Dedup.TrackerMirrorsHistory | server/internal/reliability/dedup.go:52-113 | after every history the list holds exactly the known keys, each at the place given by the number of distinct keys marked since, with its last mark; sweeps need a clock that does not run backwards |
| Dedup.DuplicateIffRecentlyMarked | server/internal/reliability/dedup.go:73-90 | exact LRU: a key is a duplicate if and only if it was marked and fewer than maxSize distinct other keys were marked since |
| Dedup.SweepKeepsMirror | server/internal/reliability/dedup.go:92-113 | a sweep drops exactly the expired keys and keeps the others in place |
| Dedup.DedupTracker.constructor | server/internal/reliability/dedup.go:24-37 | non-positive limits are replaced by the defaults |
| Dedup.DedupTracker.Seen | server/internal/reliability/dedup.go:39-44 | whether the key is tracked, without marking it |
| Dedup.DedupTracker.Mark | server/internal/reliability/dedup.go:52-68 | map and list change together: the key moves to the front, and a full tracker drops the oldest |
| Dedup.DedupTracker.CheckAndMark | server/internal/reliability/dedup.go:73-90 | reports whether the key was tracked and marks it either way |
| Dedup.DedupTracker.Cleanup | server/internal/reliability/dedup.go:92-113 | in whatever order the map is walked, both structures lose exactly the expired keys |
| Dedup.DedupTracker.Clear | server/internal/reliability/dedup.go:121-126 | nothing stays tracked |
| RateLimit.TokensInRange | server/internal/reliability/ratelimit.go:40-62 | over every history, tokens handed back included, the level never falls below zero and is at most burst unless the last call handed tokens back |
| RateLimit.AdmittedIffWithinEveryWindow | server/internal/reliability/ratelimit.go:40-51 | a request is admitted if and only if every window that ends with it stays within burst + (now - start) * rate |
| RateLimit.LevelIsSomeHeadroom | server/internal/reliability/ratelimit.go:53-62 | the level is exactly what some window has left |
| RateLimit.LevelBelowHeadroom | server/internal/reliability/ratelimit.go:53-62 | the level is never more than what any window has left |
| RateLimit.WindowBound | server/internal/reliability/ratelimit.go:40-62 | the tokens admitted in a time window from a to b, less those handed back by negative requests, are at most burst + (b - a) * rate |
| RateLimit.AdmittedIsNet | server/internal/reliability/ratelimit.go:40-51 | handing back is never refused, so what is admitted is what is taken less what is handed back |
| RateLimit.TakenBound | server/internal/reliability/ratelimit.go:40-62 | the tokens taken in a window from a to b are at most burst + (b - a) * rate plus those handed back in it |
| RateLimit.HandingBackRaisesTaken | server/internal/reliability/ratelimit.go:40-51 | for every amount, handing it back to an emptied bucket lets as much, up to burst, be taken again at once |
| RateLimit.TokenBucket.constructor | server/internal/reliability/ratelimit.go:27-34 | a bucket starts full, as the empty history says |
| RateLimit.TokenBucket.Refill | server/internal/reliability/ratelimit.go:53-62 | the level grows by the time passed times the rate, capped at burst |
| RateLimit.TokenBucket.AllowN | server/internal/reliability/ratelimit.go:40-51 | the bucket is refilled for the time passed, the request is admitted exactly when the level reaches it, and only then taken; verdict and level are those of the history model |
| TimerWheel.AddKeepsValid | server/internal/scheduler/worker.go:69-91 | adding keeps ids distinct and the index true to the slots |
| TimerWheel.CancelKeepsValid | server/internal/scheduler/worker.go:93-105 | so does cancelling |
| TimerWheel.TickKeepsValid | server/internal/scheduler/worker.go:124-162 | so does a tick, with timers refiled out of the index |
| TimerWheel.StepHolds | server/internal/scheduler/worker.go:69-162 | any operation moves every timer exactly as its own life says |
| TimerWheel.LogFollowsLife | server/internal/scheduler/worker.go:124-162 | the wheel's firing log agrees with each timer's life, tick by tick, in every interleaving |
| TimerWheel.FiringTickClosed | server/internal/scheduler/worker.go:124-162 | the closed form of when a life fires |
| TimerWheel.TimerFires | server/internal/scheduler/worker.go:69-162 | a timer of t ticks on n slots fires on tick t mod n + t div n after its Add (from zero), once and on no other, unless cancelled within the first t mod n ticks, in which case never; for t < n this is the (t + 1)-th tick |
| TimerWheel.OnTimeIffShort | server/internal/scheduler/worker.go:132-144 | a timer fires on the requested tick if and only if it is shorter than one rotation |
| TimerWheel.WholeTicks | server/internal/scheduler/worker.go:74-77 | a delay counts as its whole ticks, and as one tick if it has none |
| TimerWheel.DelayFires | server/internal/scheduler/worker.go:69-162 | a timer added with a delay of k whole ticks fires, unless cancelled in time, on the tick of a timer of k ticks and on no other |
| TimerWheel.ShortTimerCancellable | server/internal/scheduler/worker.go:93-105 | cancelling a short timer succeeds exactly as long as it has neither fired nor been cancelled |
| TimerWheel.TimingWheel.AddTimer | server/internal/scheduler/worker.go:69-91 | files the timer under a new id in its slot; delays below one tick, negative ones included, count as one |
| TimerWheel.TimingWheel.CancelTimer | server/internal/scheduler/worker.go:93-105 | succeeds exactly for ids in the index, and removes only that timer |
| TimerWheel.TimingWheel.TickOnce | server/internal/scheduler/worker.go:124-162 | empties the current slot, returns the due ids, refiles the others one slot ahead |
| TimerWheel.Drain | server/internal/scheduler/worker.go:130-150 | the loop over a slot splits it into due and refiled timers |
| Gossip.AbsorbIsJoin | server/internal/cluster/gossip.go:225-235 | after a message the table holds, for every node but oneself, one of the newest of the old and received states, and nothing else |
| Gossip.HeldIsNewest | server/internal/cluster/gossip.go:69-87 | the entry held is of no lower epoch than anything received or held before, and at equal epoch of no lower term |
| Gossip.OrderIrrelevantIff | server/internal/cluster/gossip.go:69-87 | every order and repetition of a list of updates gives the same table if and only if the list has no tie: two distinct states of another node with equal epoch and term that are news to the table and outranked by none |
| Gossip.AbsorbOrderIrrelevant | server/internal/cluster/gossip.go:69-87 | any order and repetition of updates without a tie gives the same table |
| Gossip.TieOrderMatters | server/internal/cluster/gossip.go:72 | of every tie, in any list and table, the first state seen stays |
| Gossip.KeptOrNewer | server/internal/cluster/gossip.go:72 | an entry is only ever replaced by newer ones |
| Gossip.UpdateGrows | server/internal/cluster/gossip.go:69-87 | an update lowers no epoch and reaches the received one |
| Gossip.Gossiper.constructor | server/internal/cluster/gossip.go:42-54 | a new node knows only itself, at epoch zero |
| Gossip.Gossiper.SetState | server/internal/cluster/gossip.go:62-67 | the own epoch goes up by one with the new term; the table stays |
| Gossip.Gossiper.UpdateState | server/internal/cluster/gossip.go:69-87 | a newer state, or one under an unknown key, replaces the entry under the given key, and an unknown key announces the state's node; filed under its own name, as by every caller, it keeps the node valid: every table entry was announced exactly once |
| Gossip.Gossiper.Receive | server/internal/cluster/gossip.go:225-271 | the handler's loop absorbs all states but those about the node itself |
| Gossip.Gossiper.Push | server/internal/cluster/gossip.go:158-182 | a push carries exactly what the node knows, in any order |
| Gossip.Gossiper.Sync | server/internal/cluster/gossip.go:184-206 | a request carries the epoch of exactly what the node knows |
| Gossip.Gossiper.Answer | server/internal/cluster/gossip.go:237-261 | a response carries exactly the known states that the request does not mention or mentions at a lower epoch, and nothing when there are none |
| GossipSystem.StepKeepsInv | server/internal/cluster/gossip.go:62-272 | every action of every node keeps the cluster invariant |
| GossipSystem.TablesAreHistory | server/internal/cluster/gossip.go:62-87 | in every run each stored state was once its origin's own state, and the origin is not behind it |
| GossipSystem.MessagesAreHistory | server/internal/cluster/gossip.go:158-261 | so is every state in flight |
| GossipSystem.EpochsNeverFall | server/internal/cluster/gossip.go:69-87 | no epoch in any table ever falls, and no announcement is taken back |
| GossipSystem.JoinedOnce | server/internal/cluster/gossip.go:71-83 | the join callback is invoked exactly once per node learned |
| GossipSystem.DeliveryOrderIrrelevant | server/internal/cluster/gossip.go:208-272 | at any point of a run, processing states in flight in any order and with repetition gives the same table |
| GossipSystem.PullComplete | server/internal/cluster/gossip.go:184-272 | once every state of a response is processed, whatever was lost, repeated, reordered or changed in between, the requester's epoch of every other node is at least the responder's when it replied |
| GossipSystem.PushComplete | server/internal/cluster/gossip.go:158-235 | once every state of a push is processed, whatever happened in between, the epoch its receiver has of every other node is at least the sender's when it pushed |
| GossipSystem.RequestOrigin | server/internal/cluster/gossip.go:184-206 | every request in flight was sent in some step of the run, with the epochs its sender had then |
| GossipSystem.RepliesAreNews | server/internal/cluster/gossip.go:237-261 | in every run each state of a reply is one whose node the requester did not know, or knew at a lower epoch, when it sent the request |
| GossipSystem.QuietReply | server/internal/cluster/gossip.go:237-261 | a responder that knows nothing newer than the request says replies with nothing |
| Scheduler.LaneScheduler.EnqueueLane | server/internal/scheduler/lane.go:16-31 | exactly when a task is accepted, handed to a worker that blocks on the empty queue (also of an unbuffered lane), rejected or blocked; an accepted one goes to the end of the queue |
| Scheduler.LaneScheduler.EnqueueTask | server/internal/scheduler/prod.go:134-159 | the error cases, the normal lane for unknown priorities, and the lane's verdict otherwise; an accepted task is the last of its lane; a refused task changes nothing |
| Scheduler.LaneScheduler.DequeueOrSteal | server/internal/scheduler/prod.go:198-229 | own lane first, then the first other lane with work from heavy to fast, nothing stolen once the scheduler is ending, and the head of the chosen lane is removed |
| Scheduler.Victim | server/internal/scheduler/prod.go:209-220 | the chosen lane has work and no lane before it in the scan has |
| Scheduler.ScanFindsVictim | server/internal/scheduler/prod.go:209-220 | a scanning worker's steps, undisturbed, take from exactly that lane or wait |
| Scheduler.IdleWorker | server/internal/scheduler/prod.go:198-229 | a worker at its first select takes the head of its own lane exactly when there is one, searches the others from heavy down when there is none and nothing is ending, and can quit exactly when something is |
| Scheduler.StepKeepsInv | server/internal/scheduler/prod.go:134-265 | every action of submitters and workers keeps the accounts of lanes, tickets and results |
| Scheduler.StepKeepsBound | server/internal/scheduler/lane.go:16-31 | no action takes a queue over its bound |
| Scheduler.LanesAreFifo | server/internal/scheduler/prod.go:198-229 | in every interleaving the tasks taken from a lane, by whomever, are its first accepted ones in order, the queue holds the rest, within its bound |
| Scheduler.QueuedIsUntouched | server/internal/scheduler/prod.go:134-159 | an accepted task not yet taken is at its place in its lane and nobody holds, finished or answered it |
| Scheduler.TakenIsAccounted | server/internal/scheduler/prod.go:186-229 | a taken task belongs to one worker, nobody else ever holds it, and it is finished exactly once unless still running |
| Scheduler.OneResultEach | server/internal/scheduler/prod.go:231-265 | a task has got exactly one result if and only if it has a channel and its worker has let go of it, and never more than one |
| Scheduler.ResultIsOutcome | server/internal/scheduler/prod.go:249-264 | the result sent is the output and error of that very execution, or, if it panicked, no output and an error that says so |
| Scheduler.RunGrows | server/internal/scheduler/prod.go:134-265 | nothing accepted, taken, finished or sent is taken back |
| Partition.SortSorts | server/internal/partition/manager.go:103 | node names end up in byte order |
| Partition.SortedUnique | server/internal/partition/manager.go:103 | there is only one sorted order of the same names |
| Partition.OrderDecided | server/internal/partition/manager.go:103 | the first differing character decides the order of two names, and a proper prefix comes first |
| Partition.LeastComesFirst | server/internal/partition/manager.go:103-119 | the first partition goes to the least name alive |
| Partition.TablesAreInverse | server/internal/partition/manager.go:115-119 | a node's list holds a partition, once, if and only if the partition table names the node |
| Partition.LoadOf | server/internal/partition/manager.go:115-119 | the k-th of m distinct nodes owns n div m partitions, one more if k < n mod m |
| Partition.LoadsAreBalanced | server/internal/partition/manager.go:99-134 | loads of distinct alive nodes differ by at most one |
| Partition.ListingOrderIrrelevant | server/internal/partition/manager.go:99-134 | the order in which alive nodes are listed does not matter |
| Partition.FollowerAgrees | server/internal/partition/manager.go:136-155 | applying what the leader produced rebuilds both tables |
| Partition.FollowerAgreesOnEmpty | server/internal/partition/manager.go:109-113 | with no alive nodes both sides end with nothing assigned |
| Partition.AppliedInverseIff | server/internal/partition/manager.go:143-147 | for an arbitrary list the tables agree on a partition if and only if each node the list names for it is the last one it names |
| Partition.RoundRobin | server/internal/partition/manager.go:115-119 | the loop fills the table and its inverse |
| Partition.Produce | server/internal/partition/manager.go:124-131 | one assignment per partition, in order, with the term |
| Partition.Manager.constructor | server/internal/partition/manager.go:41-50 | zero partitions means 64; nothing is assigned |
| Partition.Manager.Rebalance | server/internal/partition/manager.go:99-134 | both tables and the message for every list of alive nodes, the empty one included; the term is set |
| Partition.Manager.ApplyAssignments | server/internal/partition/manager.go:136-155 | both tables from the list, out-of-range partitions passed over, the term raised to the highest one seen |
| Partition.Manager.HandleAssignmentMessage | server/internal/partition/manager.go:181-203 | exactly when a message is applied, ignored, refused as not from the leader or refused as stale; a refused one changes nothing |
| Partition.Manager.OnLeaderChange | server/internal/partition/manager.go:205-209 | only the leader changes |
| Partition.Manager.NodeForPartition | server/internal/partition/manager.go:66-73 | the owner, or the empty name out of range |
| Partition.Replicate | server/internal/partition/manager.go:99-203 | a follower of equal size that knows no leader, or this one and no later term, reaches the leader's two tables |

## Left out

- The DSL, optimizer and compiler: plans start as bytecode, and Map expressions, type guards, gate comparisons, Parallel, Collect, Emit and Dag instructions are arbitrary host functions of the machine.
- The foreign-function bridge and serialisation: contexts, bodies and records are passed as values; buffer limits, bincode and JSON text are not modelled, nor is the difference between a missing and an empty byte slice in a stored record.
- Tracing spans, metrics, logging and counters; the delays between retries of a call.
- Overflow checks: the 16-bit hop count wraps, as in a build without them.
- Service timeouts, the circuit breaker and the registry: a service is a deterministic function of service, method and body; a cancellation is a predicate on step numbers.
- Restart.RecoverAll: recoveries run one after the other, not up to eight at a time; each touches its own record only. All records of a node belong to one plan.
- Deadlines of recovery: recovery is not cancelled after five minutes.
- The body given to `executePlan`: the code does not pass it to the step loop, which starts from an empty body, and the model does the same.
- Delay instructions in the step loop: the code ends such a run with an unexpected step result, and so does the model.
- The saga's persisted step files, including that a compensated execution leaves its file behind.
- Store write errors, shard locks and concurrent store operations: store operations are atomic.
- Json.MergeInto: works on values and returns the merge, so aliasing of the rewritten argument is not captured.
- DagSkip.SkipDependentsExact: says nothing about the aborted runs, for which the executor returns no results at all; `DagSkip.RunCompletesIff` says which these are.
- Out-of-range DAG table ids, which panic.
- Dedup.DedupTracker.Mark: the linked list is a sequence, so list element links are not captured.
- TimerWheel.TimingWheel.TickOnce: slot lists are sequences, so list element links are not captured; ids are unbounded instead of 64 bits wide.
- Wheels of fewer than two slots.
- Rounding in the token bucket: tokens and time are reals.
- Gossip message syntax, warnings about unknown senders, refusal of an empty sender, choice of peers, and intervals: any node may send to any other at any time.
- Restarts of a gossiping node: a restarted node is back at epoch zero, behind its peers' tables, which ignore it until its epoch has passed theirs; the step system has no such step.
- Closed or never-read result channels of tasks; a send may be delayed for ever, which the step system allows.
- Scheduler.LaneScheduler.DequeueOrSteal: one worker undisturbed, with no submitter blocked on an unbuffered lane; interleaved workers and direct handover are the step system's.
- Liveness of the scheduler: a waiting worker wakes for its own lane only, so no promise of progress is made for tasks of other lanes.
- Partition.Manager.Rebalance: sorts a copy of the alive nodes, so the reordering of the caller's slice is not captured.
- Key hashing and publishing of assignments.
- Raft, plan distribution and acknowledgements, HTTP, gRPC, Kafka, Redis, TLS, authentication, administration, SDKs, dashboards, the language server, the command line and the simulator.
