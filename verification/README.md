# Codecub: a verified model of context compilation and its neighbours

This project models the parts of codecub where a mistake costs most: what is sent to the model,
what is remembered, what runs once and what runs later. One module stands for one component.

| module | component |
|---|---|
| NativeMessages, NativeCompiler, NativeOutcome | native histories: the validator's pairing scan, grouping of calls with their results, partition, raw evidence, budget enforcement, the whole compile, and what it does to single groups |
| LegacyBudget, BudgetVerdict | the legacy text path: assembly, the budget guard, the validator's budget verdict and decision |
| Hysteresis | the compression throttle shared by the two pipelines |
| MemoryRecall, MemorySelection | deduplication of recalled candidates and the greedy choice under caps |
| Extensions | activation of extensions along their dependencies |
| Instructions, InstructionProperties, InstructionLayers, InstructionOrder | resolution of layered instructions |
| TurnScheduler | turns and injections in app mode, shared by the reader and the workers |
| ModelGateway | retries and fallbacks along a chain of clients |
| SideEffectLedger | claims of side effects, from many handles of one run |
| CodeIndex, VectorIndex, VectorRuns | incremental indexes against a rebuild, over runs with failures and interruptions |
| TokenBudget, PromptSections, PromptReduction, PromptBuild | clipping, section rendering and budget reduction of the prompt |
| CronSchedule, Automation | cron expressions and the automation scheduler |
| Sorting, Text, Wrappers | sorting, multiplicities, strings and optional values |

Code that works by updating things is modelled by classes and loops: each such method is proved equal
to a specification function on values, and the properties are lemmas about those functions. Beside them stand
lemmas that say in terms of the inputs alone what such a function leaves: which groups, items, records and texts.
Code with several threads, or with failures and restarts, is modelled by events; a run is any
sequence of events that can happen, and a property holds after every such run.

How the outside is represented:

- Token counters, condensers, scorers, parsers, embedding clients, calendars and the outcomes of
  calls are arbitrary functions, given as parameters. No counter is assumed monotone unless a lemma says so.
- Hashes and cache keys are injective functions. Token budgets and scores are integers, watermarks and
  ratios are reals, times are integers in microseconds.
- Whether a save, a submission, a hook or an embedding call raises is a parameter of the step.
- A function-valued hook that changes the registry, or returns nothing, is not part of this model.

Where the code falls short of what one would expect, the model follows the code, and the exact
condition under which the expectation holds is proved: empty histories are not throttled, a recall
limit below one can be exceeded, instructions that share an id can contradict each other, a stale
handle can reopen a claimed side effect, a turn can be queued with nothing left to serve it, a path
refresh indexes files that no listing contains, a vector whose update failed or was killed stays as long
as its chunk does, messages in unknown roles between a call and its results are moved behind them,
a history's own system message loses the first place as soon as anything is trimmed,
an `at` submission that fails after a cancellation enables the job again, one cron job without a
next match stops every tick, and the fixed texts for no notes and no history are never clipped.

In recall, a note whose kind is named `episodic_process`, like the group of episode and process notes, shares
their cap of two, since `codecub/memory.py:306-310` keeps any other kind as its own group.

## Model

| member | source | states |
|---|---|---|
| `NativeMessages.CheckNative` | codecub/context_validator.py:1024-1074 | the native check reports no fault exactly when there are messages, the pairing scan accepts them and a required user seed is present; of accepted messages it has counted every call id and every tool result, and they are as many |
| `NativeMessages.OpenCallIds` | codecub/context_validator.py:1040-1049 | one assistant message of the scan: the call ids that become pending, all of them counted, and which ids are faults |
| `NativeMessages.GroupNativeMessages` | codecub/context_compiler.py:1760-1792 | the grouping loop, with its shortcut to the latest calling group, attaches every result to the newest earlier group that waits for it |
| `NativeMessages.GroupingIsPermutation` | codecub/context_compiler.py:1760-1792 | for any message list, the flattened groups hold exactly the messages, each as often as before |
| `NativeMessages.GroupingKeepsOrder` | codecub/context_compiler.py:1760-1792 | as long as no message in a role the scan ignores stands among open calls, flattening the groups gives the history back in its own order |
| `NativeMessages.GroupingKeepsOrderIff` | codecub/context_compiler.py:1760-1792 | for every accepted history, flattening the groups gives it back in its own order exactly when no such message stands between a call and its results |
| `NativeMessages.InterruptionMovesResult` | codecub/context_compiler.py:1760-1792 | otherwise a result takes the place of the first such message |
| `NativeMessages.GroupsOfAcceptedAreAtomic` | codecub/context_compiler.py:1760-1792 | in an accepted history every group holds one result for each of its calls and nothing else |
| `NativeMessages.AtomicMeans` | codecub/context_validator.py:1033-1060 | an atomic group is an assistant's message with exactly one result for each of its calls, or a single message that is no tool result |
| `NativeMessages.AtomicGroupsAccepted` | codecub/context_validator.py:1033-1060 | atomic groups in any number and any order are accepted by the scan |
| `NativeMessages.AcceptedIffAtomicGroups` | codecub/context_validator.py:1033-1060 | for any roles, the accepted histories without such a message are exactly the concatenations of atomic groups; in the four standard roles there is no such message |
| `NativeMessages.OtherRoleIsReordered` | codecub/context_compiler.py:1760-1792 | any call, message in another role and result in this order are accepted and come out of grouping in another order |
| `NativeCompiler.PartitionGroups` | codecub/context_compiler.py:1794-1822 | recent and older groups: a floor of newest groups, then as many more going back as fit; both parts stay in order and lose nothing |
| `NativeCompiler.SelectRaw` | codecub/context_compiler.py:1924-2003 | raw evidence is picked down the ranking while it fits; an unpicked candidate did not fit beside the picked ones above it; picked and remaining together are all |
| `NativeOutcome.KeptRawIff` | codecub/context_compiler.py:1924-2003 | a group kept raw is fresh, scored above zero and the last with its signature; one that is all this and is not kept does not fit beside the kept ones of higher score, or of the same and newer |
| `NativeOutcome.SelectionIsByPosition` | codecub/context_compiler.py:1924-2003 | the group at each picked position is kept with its score, the one at any other position remains |
| `NativeOutcome.EstimateAdds` | codecub/context_compiler.py:2241-2248 | an estimate is the sum over the single messages |
| `NativeCompiler.SelectionConserves` | codecub/context_compiler.py:1376-1404 | partition and raw selection together keep every group exactly once |
| `NativeCompiler.SelectionKeepsAtomic` | codecub/context_compiler.py:1376-1404 | partition and raw selection never split a group |
| `NativeCompiler.AssembledIsAccepted` | codecub/context_compiler.py:1464-1502 | preamble plus atomic raw and recent groups is accepted by the pairing scan |
| `NativeOutcome.LaidOutHolds` | codecub/context_compiler.py:1464-1502 | the messages begin with the context text as one system message, and every raw or recent group stands in them in one piece |
| `NativeCompiler.EnforceNativeBudget` | codecub/context_compiler.py:1504-1561 | the trimming loop ends in the state the trimming steps lead to, for any counter; what was older stays at the end, and the summary is one condensation of exactly the older groups, none for none |
| `NativeCompiler.EnforcementSummarises` | codecub/context_compiler.py:1526-1550 | the same of every enforcement: a trimmed group is in the summary that stands for it |
| `NativeOutcome.TrimsInOrder` | codecub/context_compiler.py:1504-1561 | which groups are taken out, one by one: raw evidence by ascending score and age, then, once none is left, the oldest recent groups that are neither system nor user; each went in front of what was older |
| `NativeCompiler.EnforcementConserves` | codecub/context_compiler.py:1504-1561 | no number of trimming steps loses or duplicates a group across raw, recent and older |
| `NativeCompiler.EnforcementEnds` | codecub/context_compiler.py:1504-1561 | trimming ends within budget, or with no raw evidence and only system and user groups in the recent layer |
| `NativeCompiler.EnforcementNeeded` | codecub/context_compiler.py:1504-1561 | enforcement is exactly the first n trims, each from a state over budget with something to trim, up to the first state that is not; n is the number of groups moved |
| `NativeCompiler.EnforcementOrder` | codecub/context_compiler.py:1504-1561 | recent groups go oldest first, and only once no raw evidence is left |
| `NativeCompiler.EnforcementKeepsSeeds` | codecub/context_compiler.py:1504-1561 | every system and user group of the recent layer survives, in order |
| `NativeCompiler.EnforcementDropsWeakest` | codecub/context_compiler.py:1504-1561 | raw evidence goes weakest first: what is kept scores no lower than what was dropped |
| `NativeCompiler.EnforcementKeepsPairing` | codecub/context_compiler.py:1504-1561 | after any number of trimming steps the assembled messages are accepted by the pairing scan |
| `NativeCompiler.SwapSystemMessages` | codecub/context_compiler.py:1464-1502 | exchanging two leading system messages does not change the scan's verdict |
| `NativeCompiler.CompileNative` | codecub/context_compiler.py:1237-1462 | the messages are those of the layers enforcement ends in, from a start that is exactly the untouched, wrapped or compressed history; laid out as preamble, raw evidence and recent groups once anything is trimmed; accepted if the history is; every group is in one layer and the summary condenses exactly the older ones; within budget or only system and user groups left |
| `NativeCompiler.WrapNative` | codecub/context_compiler.py:1304-1332 | an uncompressed history goes behind the preamble, but for its own leading system message, which goes in front of it |
| `NativeCompiler.CompressNative` | codecub/context_compiler.py:1376-1400 | the compressed start: recent groups verbatim, picked older ones raw, the rest summarised, condensed again when raw evidence was taken out |
| `NativeCompiler.EnforcementLaysOut` | codecub/context_compiler.py:1504-1561 | once a group is trimmed the messages are the preamble, the raw evidence and the recent groups left, in this order |
| `NativeCompiler.SystemMessageFirstIff` | codecub/context_compiler.py:1322-1344 | a wrapped history keeps its leading system message first exactly when nothing has to be trimmed, or the preamble is empty or equal to it |
| `LegacyBudget.EnforceLegacyBudget` | codecub/context_compiler.py:1563-1682 | the guard's four drop phases end as dropping one thing at a time in the fixed order would, and it reports a change exactly when it acts; the user's task, runtime constraints, protected items and instructions that are not legacy stay as often as they were, and so does the working state |
| `LegacyBudget.BaseIsKept` | codecub/context_compiler.py:1606-1634 | the base consists of the working state and exactly these pinned items |
| `LegacyBudget.OnlyKeptWhenStillOver` | codecub/context_compiler.py:1635-1682 | when dropping ends over budget, memory is blank, the other layers are empty and only such pinned items are left |
| `LegacyBudget.PromptShows` | codecub/context_compiler.py:2202-2224 | whatever solid text stands in the working state, the memory or an item of any layer stands in the assembled prompt |
| `LegacyBudget.TrimmedFits` | codecub/context_compiler.py:1606-1682 | trimming keeps every required pinned item and reaches the budget whenever the required base fits |
| `LegacyBudget.GuardedFitsIff` | codecub/context_compiler.py:1587-1682 | for any counter and a positive, known budget, the result fits exactly when the first text fitted or the required base does; required items are never lost |
| `LegacyBudget.GuardDropsInOrder` | codecub/context_compiler.py:1635-1682 | layers go in their fixed order; the result is exactly the first n drops, each from a text over budget, up to the first text that fits or has nothing left to drop; n is positive exactly when the guard acts |
| `LegacyBudget.BareIsBase` | codecub/context_compiler.py:2202-2224 | when nothing is left to drop, the assembled text is that of the required base |
| `BudgetVerdict.BudgetCheckFailsIff` | codecub/context_validator.py:637-659 | with the compiler's own records the validator's budget check fails exactly when the first text and the required base both overflow |
| `BudgetVerdict.LegacyPromptDecision` | codecub/context_validator.py:455-489 | when every other required check passes, a prompt that cannot fit is sent back for reassembly and any other is allowed |
| `BudgetVerdict.DecisionIs` | codecub/context_validator.py:455-489 | a decision rejects exactly when a required hard check failed that may not be retried, asks for reassembly when all such failures may be, and else allows, with a fallback noted when one was used or a soft check failed |
| `BudgetVerdict.NamedLimitComesFirst` | codecub/context_validator.py:592-598 | the limit named for the compiler comes first, in the requirements before the metadata; a flag does not count |
| `BudgetVerdict.UnitDecidesLimit` | codecub/context_validator.py:599-628 | else a budget counted in characters takes the limit required in characters, and one of no unit the usable input budget |
| `BudgetVerdict.RecordedCountComesFirst` | codecub/context_validator.py:547-575 | the recorded token count comes before any other; with none, the prompt is counted, and never below zero |
| `BudgetVerdict.FallbackNeverFails` | codecub/context_compiler.py:1587-1600 | under a fallback budget the guard stands back and the check passes or abstains, never fails |
| `MemoryRecall.Dedupe` | codecub/memory.py:397-447 | all three passes: every candidate with text is kept or logged exactly once, kept texts and file keys are pairwise different, the identity pass drops nothing, each log entry names a candidate of the same text or file that ranks at least as high, and a kept candidate stands for each dropped one |
| `MemoryRecall.DedupePass` | codecub/memory.py:364-447 | one pass of the deduplication equals admitting the candidates one by one |
| `MemoryRecall.PassCounts` | codecub/memory.py:397-447 | one pass: each candidate is kept or logged, as often as it occurs |
| `MemoryRecall.PassSound` | codecub/memory.py:364-371 | one pass: for each displaced candidate the kept one of its key, and the one named in the log, rank at least as high |
| `MemoryRecall.BestIsKept` | codecub/memory.py:364-371 | for every candidate with a key the one kept for it is no lower in score, then time, then index, and is a file summary if summaries are preferred and one stands as high |
| `MemoryRecall.FileKeyByKind` | codecub/memory.py:374-387 | a file summary speaks about its source, a note of the episode or process about its source or else its first tag that is a known file, any other about no file |
| `MemoryRecall.PassKeepsAll` | codecub/memory.py:397-447 | a pass over candidates whose keys already differ keeps them all and logs nothing |
| `MemoryRecall.DedupeRepresents` | codecub/memory.py:397-447 | for every dropped candidate a finally kept one ranks at least as high and has its text, or the file of a candidate with its text that ranks in between |
| `MemorySelection.ApplyBudgets` | codecub/memory.py:455-472 | the loop with running counts takes what the greedy rule takes, in rank order; for limits of at least one it respects the limit, one file summary, one durable note and two notes of the episode and the process together |
| `MemorySelection.TakeWithinCaps` | codecub/memory.py:26-36 | for a limit of at least one, the selection respects the limit and has at most one file summary, one durable note and two notes of the episode and the process together |
| `MemorySelection.LeftOutForReason` | codecub/memory.py:455-472 | unless the selection is full every candidate is selected or skipped, and a skipped one has one of these kinds, with its cap used up |
| `MemorySelection.GreedyIsMaximal` | codecub/memory.py:455-472 | among the candidates above any score, the selection is full or exhausts every group up to its cap |
| `MemorySelection.GreedyDominates` | codecub/memory.py:455-472 | for every threshold, no feasible choice has more candidates above it than the selection |
| `MemorySelection.SelectionIsOptimal` | codecub/memory.py:455-472 | for a limit of at least one, no choice within the limit and these caps has a higher total score |
| `MemorySelection.LimitBelowOne` | codecub/memory.py:455-472 | for a limit below one, one candidate is still selected exactly when some candidate's group has a cap of its own |
| `MemorySelection.LimitRespectedIff` | codecub/memory.py:455-472 | for limits of zero or more, the limit is respected exactly for positive ones, or when no candidate's kind has a cap of its own |
| `MemorySelection.RankingDescends` | codecub/memory.py:313-318 | the ranking puts higher scores first, then later times, then higher note indices |
| `Extensions.ExtensionRegistry.ActivateExtension` | codecub/extensions.py:203-257 | the recursive walk over the shared entries terminates and ends with the outcome and active set of the pure walk |
| `Extensions.ActivateIsValid` | codecub/extensions.py:203-257 | whatever the outcome, what a walk activates comes dependencies first and each once; on success the name is active |
| `Extensions.ActivationKeepsClosed` | codecub/extensions.py:203-257 | on success or failure, a dependency-closed active set stays closed |
| `Extensions.FailureHasChain` | codecub/extensions.py:213-241 | a failing walk has found a chain of inactive dependencies that ends unregistered, ungranted, failing or in a repetition |
| `Extensions.LogImpliesReady` | codecub/extensions.py:203-257 | if a walk succeeds, every chain of inactive dependencies from the name is registered, granted and free of repetition |
| `Extensions.ActivateSucceedsIff` | codecub/extensions.py:203-257 | activation succeeds exactly when every chain of inactive dependencies from the name is registered, granted, working and free of repetition |
| `Extensions.ActivatesExactlyReachable` | codecub/extensions.py:203-257 | a successful activation activates exactly the inactive extensions reachable from the name; a failing one only such extensions |
| `Instructions.Resolve` | codecub/instructions.py:412-504 | the loops over scopes, duplicates and subjects give a resolution that keeps the winner of every contested subject, lists the losers and records each conflict |
| `Instructions.Deduplicate` | codecub/instructions.py:446-455 | the loop with its set of seen keys keeps the first instruction of every dedup key and counts the others |
| `InstructionLayers.OneOfTheSameTakesPart` | codecub/instructions.py:247-263 | of the active instructions alike in wording, source, layer, scope, protection, subject and, in the repository, path, exactly one takes part |
| `InstructionLayers.ActiveByScope` | codecub/instructions.py:515-533 | for each scope, which instructions a request activates |
| `Instructions.ShadowLosers` | codecub/instructions.py:457-490 | exactly the losers of contested subjects move from the survivors to the shadowed list, each with a conflict record |
| `Instructions.WinnerLayer` | codecub/instructions.py:536-547 | an instruction ranked below another does not have the stronger layer |
| `InstructionProperties.ResolutionPartitions` | codecub/instructions.py:446-504 | every deduplicated active instruction survives or is shadowed, and exactly once |
| `InstructionProperties.ShadowedByStronger` | codecub/instructions.py:457-491 | whoever is shadowed lost to a survivor on the same subject whose layer is at least as strong, and a record names the two |
| `InstructionLayers.ShadowedGivesWay` | codecub/instructions.py:457-547 | whoever is shadowed lost to a survivor that is not in a weaker layer of the seven; in its own layer it is unprotected or both are protected; and of equally protected ones of the repository it is no deeper |
| `InstructionProperties.ConflictLayers` | codecub/instructions.py:457-491 | no conflict record lets a strictly weaker layer win |
| `InstructionLayers.LayersDecide` | codecub/instructions.py:24-40 | in every record the loser's layer is not ahead of the winner's in the list of the seven layers, and survivors come in that list's order, protected ones first, shallower repository ones first |
| `InstructionLayers.OneSurvives` | codecub/instructions.py:457-491 | with distinct ids, of the instructions about a contested subject exactly one survives, and all others give way to it |
| `InstructionLayers.UncontestedSurvive` | codecub/instructions.py:457-479 | an instruction without subject or polarity, or contradicted by nobody about its subject, survives |
| `InstructionProperties.SurvivorsAgreeIff` | codecub/instructions.py:457-491 | no two survivors contradict each other exactly when nobody with the winner's id disagrees with it on a contested subject |
| `InstructionProperties.SurvivorsAgree` | codecub/instructions.py:457-491 | with distinct ids no two survivors have one conflict key and different polarities |
| `InstructionProperties.SharedIdContradicts` | codecub/instructions.py:470-479 | two instructions with one id about one subject both survive although one allows what the other denies |
| `InstructionOrder.ResolutionUnique` | codecub/instructions.py:412-504 | the candidates, as a set, determine survivors, shadowed list and conflicts |
| `InstructionOrder.ResolveIgnoresOrder` | codecub/instructions.py:412-504 | with pairwise distinct dedup keys and ids, every permutation of the input gives the same result |
| `InstructionOrder.ResolveIsIdempotent` | codecub/instructions.py:412-504 | resolving the survivors again returns them unchanged and shadows nothing |
| `Hysteresis.ContextBudget.ShouldCompress` | codecub/context_compiler.py:593-623 | the decision, and the counters it leaves in the asked pipeline's state alone |
| `Hysteresis.ContextBudget.MarkCompressed` | codecub/context_compiler.py:625-643 | a counted compression is registered in its own pipeline's state, thrashing included |
| `Hysteresis.ContextBudget.CompileTurn` | codecub/context_compiler.py:1168-1216 | one compile asks once, registers when it counts, and leaves the other pipeline's state alone |
| `Hysteresis.CompileRun` | codecub/context_compiler.py:587-660 | after a reset, a run of interleaved compiles counts exactly the turns that each pipeline's own history of turns makes count |
| `Hysteresis.ContextBudget.ResetHysteresis` | codecub/context_compiler.py:650-660 | a reset makes both pipelines' states fresh |
| `Hysteresis.PipelinesAreIndependent` | codecub/context_compiler.py:587-660 | each turn of an interleaved run is decided as in the run of its own pipeline alone |
| `Hysteresis.SuccessiveCompressionsAreSpaced` | codecub/context_compiler.py:593-643 | two successive counted compressions of a pipeline are at least the minimum number of new entries apart when the first saw a non-empty history |
| `Hysteresis.NextCompressionIff` | codecub/context_compiler.py:593-623 | after a counted compression of a non-empty history, the next is counted exactly when the estimate reaches the watermark, enough entries were added and the fingerprint is unknown or changed |
| `Hysteresis.ThrashingIff` | codecub/context_compiler.py:625-643 | thrashing is reported exactly when some counted compression reclaimed too few tokens or too small a part |
| `Hysteresis.SkippedAreCounted` | codecub/context_compiler.py:604-622 | the skipped turns are those over the watermark that did not count |
| `Hysteresis.GrowthSinceFirst` | codecub/context_compiler.py:593-643 | from the first counted compression of a non-empty history on, length grows by that minimum for each further one, whatever histories other turns saw |
| `Hysteresis.CompressionsAreBounded` | codecub/context_compiler.py:593-643 | with histories no longer than a bound, the number of counted compressions is that of the turns over the watermark while these see empty histories, plus at most 1 + (bound - length) / minimum from the first counted non-empty one on |
| `Hysteresis.NonEmptyCompressionsAreBounded` | codecub/context_compiler.py:593-643 | if the first counted compression saw a non-empty history, at most 1 + (bound - its length) / minimum are counted |
| `Hysteresis.UnthrottledWhileEmpty` | codecub/context_compiler.py:604-612 | until a non-empty history is compressed, a turn counts exactly when it is over the watermark |
| `Hysteresis.EmptyHistoryIsNotThrottled` | codecub/context_compiler.py:604-612 | after a counted compression of an empty history, the next turn over the watermark compresses again |
| `Hysteresis.EmptyHistoriesCountEveryTime` | codecub/context_compiler.py:604-612 | so with empty histories the bound fails: every turn over the watermark is counted |
| `TurnScheduler.Scheduler.Enqueue` | codecub/app_runner.py:497-537 | a message accepted while a run exists goes to the back, the front or the mailbox, and nowhere else |
| `TurnScheduler.PlacedByPolicy` | codecub/app_runner.py:497-537 | by policy, run and liveness: a message goes straight into a new run, behind the other injections, in front of what waits or behind it |
| `TurnScheduler.Scheduler.DrainInjections` | codecub/app_runner.py:273-277 | draining hands out the whole mailbox, in order, and empties it |
| `TurnScheduler.Scheduler.FinishRun` | codecub/app_runner.py:384-400 | finishing leaves the waiting turns as mailbox followed by old queue, minus the head, which is taken out to begin |
| `TurnScheduler.Scheduler.BeginRun` | codecub/app_runner.py:371-382 | beginning a run takes over the run id and the thread |
| `TurnScheduler.EveryMessageHasOnePlace` | codecub/app_runner.py:371-400 | under every interleaving each accepted message is in exactly one of queue, mailbox, drained, taken out or begun, as often as it was accepted |
| `TurnScheduler.QueueKeepsArrivalOrder` | codecub/app_runner.py:384-400 | under every interleaving queued turns leave in arrival order, with interrupts and returned injections before them |
| `TurnScheduler.ServedUnless` | codecub/app_runner.py:497-537 | a step leaves waiting turns with nothing to serve them exactly when it queues a message for a run that ended after the reader looked |
| `TurnScheduler.ServedThroughoutIff` | codecub/app_runner.py:384-537 | over every interleaving, waiting turns are served at every moment exactly when no step of that kind occurs |
| `TurnScheduler.WakeUpCanBeLost` | codecub/app_runner.py:497-537 | such a step is reachable: a turn can wait although no run exists or is about to begin |
| `ModelGateway.Gateway.Invoke` | codecub/model_gateway.py:59-150 | the loop makes the calls and emits the events of the recursive specification, for any stream of outcomes, and gives back the one permit it took on every exit |
| `ModelGateway.VisitsInChainOrder` | codecub/model_gateway.py:109-148 | clients are visited in chain order, from the first, without skipping or going back |
| `ModelGateway.CallsPerClient` | codecub/model_gateway.py:73-150 | no client is called more than once plus the allowed retries |
| `ModelGateway.CallsBounded` | codecub/model_gateway.py:73-150 | there are at most clients * (retries + 1) calls, and exactly that many when every call fails in a way that may be retried and passed on |
| `ModelGateway.TotalCallsBounded` | codecub/model_gateway.py:73-150 | the same bound for a whole invocation |
| `ModelGateway.EventsMatchCalls` | codecub/model_gateway.py:109-148 | each call but the last failed and emitted one event, retry or fallback as the next call's client shows; a value is returned exactly when the last call succeeded |
| `ModelGateway.RaisesOnlyWhenStuck` | codecub/model_gateway.py:109-148 | an error is raised only by a call whose error may not be retried or whose client has used up its retries, and may not be passed on or has no client after it |
| `SideEffectLedger.RunStore.ClaimSideEffect` | codecub/run_store.py:112-151 | a claim is granted exactly when the key is not on disk, reports a conflict exactly when tool or digest differ, and leaves the handle with the file's ledger |
| `SideEffectLedger.RunStore.UpdateSideEffect` | codecub/run_store.py:153-169 | an update changes state, time and result of one claimed entry and nothing else |
| `SideEffectLedger.RunStore.WriteTaskState` | codecub/run_store.py:50-54 | writing a handle replaces the file's ledger by the handle's |
| `SideEffectLedger.StepExtendsIff` | codecub/run_store.py:42-54 | outside the lock a step keeps every key with its identity exactly when it is no write of a ledger that lacks or contradicts an entry |
| `SideEffectLedger.ReopensIff` | codecub/run_store.py:50-169 | a key on disk can be claimed again after a step exactly when the step drops it, and a step drops it exactly when it writes a ledger that misses it, or it stores what was read under the lock before the key came to the file |
| `SideEffectLedger.OnlyWritesDrop` | codecub/run_store.py:112-169 | outside the lock no claim or update drops a key |
| `SideEffectLedger.WritesWhatWasCopied` | codecub/run_store.py:50-54 | a write puts in the file what its handle held when it was copied, whatever other handles and writers do until then |
| `SideEffectLedger.GrantsAreAccountedFor` | codecub/run_store.py:112-169 | over every interleaving, with writes inside a claim and claims inside a write, a key is granted at most once more than it is dropped |
| `SideEffectLedger.EntriesPersist` | codecub/run_store.py:112-169 | a key that is not dropped stays on disk with the tool and the digest it had, whatever happens to other keys |
| `SideEffectLedger.GrantedAtMostOnce` | codecub/run_store.py:112-151 | a key that is not dropped is granted at most once, and not at all if it was on disk at the start, whatever happens to other keys |
| `SideEffectLedger.GrantedAgainOnlyAfterDrop` | codecub/run_store.py:112-151 | between any two grants of one key some step drops it |
| `SideEffectLedger.RunGrantsOnce` | codecub/run_store.py:42-48 | from the moment the run's first file is written, a key that is never dropped is granted at most once and keeps one identity in every copy |
| `SideEffectLedger.LaterClaimsRefused` | codecub/run_store.py:121-135 | until a granted key is dropped, every later claim of it is refused, as a conflict exactly when tool or digest differ from the granted claim |
| `SideEffectLedger.StaleWriteGrantsAgain` | codecub/run_store.py:50-54 | a write of a ledger that misses a claimed key lets that key be granted again |
| `SideEffectLedger.OwnWriteIsSafe` | codecub/run_store.py:136-169 | right after a claim or update has stored, an undisturbed write from the same handle drops nothing |
| `SideEffectLedger.EarlierCopyDrops` | codecub/run_store.py:50-54 | a write that copied its handle's ledger before a claim on that handle drops the key just granted, although the handle knows it |
| `CodeIndex.Index.Refresh` | codecub/code_index.py:130-182 | the refresh loop, full or by paths, and its deletions leave the index of the specification, saved, with its report; after a full refresh of a coherent index exactly the listed Python files have a record, each with its hash and what its text parses to |
| `CodeIndex.FullRefreshIsRebuild` | codecub/code_index.py:130-182 | from any coherent index a full refresh gives what a rebuild from nothing gives |
| `CodeIndex.FullRefreshRecords` | codecub/code_index.py:130-173 | after a full refresh exactly the listed Python files that exist have a record: the hash of their text and what it parses to |
| `CodeIndex.PathRefreshRecords` | codecub/code_index.py:130-167 | after a refresh by paths the same holds of the given paths, and every other record is as before |
| `CodeIndex.PythonNames` | codecub/code_index.py:142-145 | which names are Python files: a stem and the suffix, in any directory |
| `CodeIndex.AnyRunThenRebuild` | codecub/code_index.py:115-182 | after any run of full, partial and interrupted refreshes, reloads and lost files, a full refresh gives the rebuild's index |
| `CodeIndex.ReachableIsCoherent` | codecub/code_index.py:115-182 | in every reachable state each record is what some text of its file gave |
| `CodeIndex.PathRefreshFrom` | codecub/code_index.py:130-173 | from any coherent index, a refresh by paths gives the rebuild's index exactly when the paths cover every out-of-date record and stay within the listing |
| `CodeIndex.PathRefreshIsRebuildIff` | codecub/code_index.py:130-173 | from an index that agreed with an earlier state of the files: exactly when the paths cover every in-scope change and stay within the listing |
| `CodeIndex.IgnoredFileEnters` | codecub/code_index.py:142-167 | a Python file outside the listing enters the index when refreshed by its path, and no rebuild would have it |
| `CodeIndex.ReparsesExactlyStale` | codecub/code_index.py:146-173 | a refresh reparses exactly the visited files whose text is new to the index, reuses the others, and reports exactly the reparsed files that do not parse |
| `CodeIndex.ReparsesByHash` | codecub/code_index.py:146-173 | reparsed are exactly the visited Python files without a record, or with one of another hash |
| `VectorIndex.LocalVectorIndex.Refresh` | codecub/vector_index.py:64-95 | the refresh loops over vanished, changed and pending chunks leave the records, vectors, cache and failures of the specification, with its counts |
| `VectorIndex.ToEmbedExact` | codecub/vector_index.py:69-79 | exactly the chunks that are new, changed or without a vector are embedded, each once |
| `VectorIndex.RefreshAt` | codecub/vector_index.py:64-95 | exactly what one refresh does to each vector, for any pattern of failing calls and any cache |
| `VectorIndex.RefreshIsReembeddingIff` | codecub/vector_index.py:64-95 | from a sound index the vectors equal a fresh embedding exactly when every chunk whose call raised already had the vector it should get |
| `VectorIndex.RefreshIsReembedding` | codecub/vector_index.py:64-95 | with no failed call the vectors equal a fresh embedding, and the index stays sound |
| `VectorIndex.VectorsAreOfTexts` | codecub/vector_index.py:78-94 | then each listed id has the embedding of the first 2000 characters of its text, and no other id has a vector |
| `VectorIndex.LastListedCounts` | codecub/vector_index.py:64-69 | of several chunks with one id the last one counts |
| `VectorIndex.RunIsReembedded` | codecub/vector_index.py:64-95 | after any run of refreshes without failed calls, records and vectors are those of the chunks last listed, embedded afresh |
| `VectorRuns.LaterRefreshRepairsIff` | codecub/vector_index.py:69-92 | in particular one later refresh without failed calls repairs it exactly when no failed chunk still had an earlier, different vector |
| `VectorRuns.StaleVectorStays` | codecub/vector_index.py:69-92 | when a refresh records a changed chunk but its call raises, or it is killed before the vector is saved, the old vector stays through every later run that lists the chunk unchanged, whatever else is listed, whichever calls raise and whichever refreshes are killed |
| `VectorRuns.OnlyChunkStaysStale` | codecub/vector_index.py:78-92 | a family of such cases: the only chunk's text changes and the call for the new text raises once |
| `VectorRuns.VectorWhileUnchanged` | codecub/vector_index.py:69-92 | while a chunk stays as recorded, a vector it has is never replaced, and one it lacks is there from the first refresh that embeds and saves it, killed refreshes included |
| `VectorRuns.LaterRoundsRepairIff` | codecub/vector_index.py:69-92 | after a refresh that recorded its chunks, any later run of the same chunks repairs a sound index exactly when each id it missed had the right vector all the same, or had none and is completed later |
| `VectorRuns.RunRepairsIff` | codecub/vector_index.py:64-95 | over any run that lists the same chunks, with raising calls and killed refreshes, the vectors end as a fresh embedding exactly when each id had the right vector, or none where none belongs, or some refresh completed it |
| `VectorRuns.RoundAt` | codecub/vector_index.py:64-112 | exactly what one refresh, complete or killed between or within its saves and loaded again, does to the vector of any id |
| `VectorRuns.KilledKeepsCache` | codecub/vector_index.py:78-112 | a killed refresh leaves in the cache what it knew and the texts embedded and saved until then, so that these are not sent again |
| `VectorRuns.KilledStaysStale` | codecub/vector_index.py:78-94 | a kill alone leaves a changed chunk with its old vector for good: every record is saved with the first vector |
| `TokenBudget.ClipToBudget` | codecub/token_budget.py:39-54 | the binary search gives the clip of the specification; without a counter the text is returned |
| `TokenBudget.SearchStops` | codecub/token_budget.py:45-54 | for any counter the search ends at a cut that fits while the next longer one does not, or at none when the ellipsis alone does not fit |
| `TokenBudget.ClipIsLongest` | codecub/token_budget.py:39-54 | under a monotone counter the clip is the longest prefix that fits together with the ellipsis, and empty exactly when the ellipsis alone does not fit |
| `TokenBudget.ClipFits` | codecub/context_manager.py:206-207 | for any counter, what is clipped to a positive budget measures within it |
| `TokenBudget.ClipKeepsIff` | codecub/context_manager.py:206-207 | a text is kept exactly when it fits, and clipping twice is clipping once |
| `TokenBudget.ClipIsPrefix` | codecub/token_budget.py:39-54 | what is clipped is a prefix of the text, at most with an ellipsis |
| `TokenBudget.TailClip` | codecub/context_manager.py:35-43 | clipping by characters: never longer than the limit, unchanged exactly when the text fits, and of exactly the limit's length when cut with an ellipsis |
| `PromptSections.RenderRelevantMemory` | codecub/context_manager.py:274-319 | the note section: an equal share per note, lowered until the section fits, else the raw section clipped |
| `PromptSections.NotesFitIff` | codecub/context_manager.py:274-306 | for a positive budget the section fits exactly when there is a note to show or the fixed text for no notes happens to fit |
| `PromptSections.NoteIsShown` | codecub/context_manager.py:275-320 | a note within the first share stands in its section, complete, when all notes clipped to it fit |
| `PromptSections.Share` | codecub/context_manager.py:295-302 | the share is the largest one not above the first at which the section fits, or one |
| `PromptSections.PerNoteIsLargest` | codecub/context_manager.py:322-327 | the first share is the largest with which all notes and their marks keep within the budget in characters, or one |
| `PromptSections.RenderHistory` | codecub/context_manager.py:328-390 | the transcript is filled from the newest entry back, each whole, clipped or left out, and replaced by the clipped raw text when still over budget |
| `PromptSections.HistoryFitsIff` | codecub/context_manager.py:328-378 | for a positive budget the section fits exactly when there is a history or the fixed text for none happens to fit |
| `PromptSections.RawOnlyWhenNothingKept` | codecub/context_manager.py:375-378 | the raw transcript is used exactly when no line was kept and the title alone is over budget |
| `PromptSections.NewerLinesStay` | codecub/context_manager.py:350-374 | older entries never displace or shorten what was kept of newer ones |
| `PromptSections.EntryAdds` | codecub/context_manager.py:350-374 | an entry adds all its lines when they fit, else nothing or every line clipped, to twenty for an older one and no less for a recent one |
| `PromptSections.NewestIsShown` | codecub/context_manager.py:350-374 | when the newest entry fits, each of its lines stands in the transcript, complete |
| `PromptSections.FittingHistoryIsWhole` | codecub/context_manager.py:350-374 | when every later part of the transcript fits whole, nothing is dropped or clipped |
| `PromptSections.CompressedHistory` | codecub/context_manager.py:392-436 | the loop with its set of seen paths leaves out exactly the older reads of a path that was read before |
| `PromptSections.RecentItemsStay` | codecub/context_manager.py:402-411 | the last six items are always entries of their own, in order, at the end |
| `PromptSections.OlderItems` | codecub/context_manager.py:413-436 | an older item leaves nothing if it reads a file read before, else one entry; a read of a summarised file the line with its summary |
| `PromptReduction.ReduceBudgets` | codecub/context_manager.py:158-184 | the loop terminates with the budgets and the log of the specification, for any measure of the prompt |
| `PromptReduction.ReductionEnds` | codecub/context_manager.py:158-184 | it ends with a prompt that fits or with every section of the order at or below its floor |
| `PromptReduction.ReductionRespectsFloors` | codecub/context_manager.py:158-184 | no budget is raised or lowered below its floor; sections at their floor or outside the order stay; a fitting prompt lowers nothing |
| `PromptReduction.EarlierSectionsFirst` | codecub/context_manager.py:161-184 | a section is lowered only once every section before it in the order is at or below its floor |
| `PromptReduction.LogAccounts` | codecub/context_manager.py:169-177 | the reduction log accounts for every lowered budget, to the unit |
| `PromptReduction.LogIsProper` | codecub/context_manager.py:158-184 | each entry lowers the first section of the order above its floor by the whole overflow, but not below the floor; in turn they lead to the final budgets |
| `PromptReduction.FittedWithinTotal` | codecub/context_manager.py:209-213 | fitted section budgets are positive and exceed the total by at most one unit for each section whose share is below one |
| `PromptReduction.ShareIsProportional` | codecub/context_manager.py:209-213 | a share is the section's part of the total, rounded down, and at least one |
| `PromptBuild.Build` | codecub/context_manager.py:140-198 | the prompt is rendered from the reduced budgets; it is flagged over budget exactly when it is, and then every section of the order is at its floor |
| `PromptBuild.RenderPrompt` | codecub/context_manager.py:475-485 | the four sections in order, then the request, stripped of outer white space |
| `PromptBuild.RequestSurvives` | codecub/context_manager.py:475-485 | whatever the budgets, the prompt ends with the request, complete but for white space at its end |
| `PromptBuild.RequestVerbatim` | codecub/context_manager.py:475-485 | a request that does not end in white space is the prompt's last part to the letter |
| `PromptBuild.PromptShows` | codecub/context_manager.py:475-485 | solid text of the prefix or memory that keep within their budgets, or of the rendered notes and history, stands in the prompt |
| `PromptBuild.LimitOfWindow` | codecub/context_manager.py:140-150 | the limit in numbers, and when section budgets stay as given |
| `PromptBuild.RequestOverBudget` | codecub/context_manager.py:158-198 | if text in front of the request never makes it measure less (as in characters) and the request alone is over the limit, every prompt is over it and every section of the order ends at its floor |
| `PromptBuild.SectionsFit` | codecub/context_manager.py:257-272 | each section with a positive budget measures within it, but for the two fixed texts for no notes and no history |
| `PromptBuild.StartWithinTotal` | codecub/context_manager.py:141-150 | with a token budget the starting budgets exceed it by at most one token for each section whose share is below one |
| `CronSchedule.CronField` | codecub/automation.py:64-93 | a field is refused exactly when some part is malformed or out of range; else it denotes exactly the values on the steps of its parts |
| `CronSchedule.PartsMean` | codecub/automation.py:64-93 | what a star, a value and a range mean, with and without a step |
| `CronSchedule.CronNext` | codecub/automation.py:109-123 | the minute-by-minute loop finds what the search over the horizon finds |
| `CronSchedule.NextIsFirstMatch` | codecub/automation.py:109-123 | the answer is the first whole minute strictly after the given time that matches all five fields, within the horizon |
| `CronSchedule.NextIsOnCalendar` | codecub/automation.py:109-123 | the answer lies within 366 days, and its minute, hour, day, month and weekday are all in the expression |
| `CronSchedule.NoneMisses` | codecub/automation.py:109-123 | without an answer each minute of those days misses in one of the five |
| `Automation.RestartRoundTrip` | codecub/automation.py:141-207 | writing a job and reading it back succeeds and gives the same job, but that a completed `at` job shows its time again, disabled |
| `Automation.FirstRunByKind` | codecub/automation.py:141-186 | when a new job first runs, by kind of schedule |
| `Automation.RefusedIff` | codecub/automation.py:141-186 | exactly which mappings are refused |
| `Automation.AutomationScheduler.Create` | codecub/automation.py:270-277 | a job is added in memory, and in the file if the save succeeds; an existing id or a bad mapping changes nothing |
| `Automation.AutomationScheduler.Cancel` | codecub/automation.py:283-291 | a known job is disabled in memory, and in the file if the save succeeds |
| `Automation.AutomationScheduler.Mark` | codecub/automation.py:294-317 | the locked half of a tick: exactly the due jobs are marked, in order, up to the first without a next match, and saved only if all have one |
| `Automation.AutomationScheduler.Fail` | codecub/automation.py:332-339 | a failing submission is recorded, and an `at` job is enabled again for one tick interval later |
| `Automation.AutomationScheduler.Tick` | codecub/automation.py:293-340 | a whole tick completes exactly when every due job has a next match, and then does to each job what the per-job rule says; an incomplete one leaves the jobs marked up to the first without a next match, in memory only |
| `Automation.TickByKind` | codecub/automation.py:293-340 | field by field what a completed tick does to a job that is not due, an at, every or cron job, submitted or failed |
| `Automation.AtMostOnce` | codecub/automation.py:270-340 | over every run of creations, cancellations, ticks, failing submissions, failing saves and restarts, submitted, under way and still possible submissions of an `at` job stay at most one, in memory and on disk |
| `Automation.SubmittedAtMostOnce` | codecub/automation.py:270-340 | from the start of a scheduler on any store, an `at` job is submitted successfully at most once |
| `Automation.StepKeepsOnce` | codecub/automation.py:270-340 | each step keeps that invariant |
| `Automation.CancelHoldsIff` | codecub/automation.py:283-340 | a saved cancellation holds in every later run exactly when no submission of the job is under way or it is not an `at` job |
| `Automation.TickSettlesIff` | codecub/automation.py:305-313 | after a completed tick a job is disabled or its next run lies strictly ahead, exactly when the delay applied to it is at least one clock unit |
| `Automation.NothingDueAfterTick` | codecub/automation.py:293-340 | with delays of at least one unit, no job is due after a completed tick |
| `Automation.UnmatchedStopsTick` | codecub/automation.py:300-316 | a due cron job without a next match stops the tick: nothing is submitted or saved, and `at` jobs before it are disabled in memory |
| `Automation.LaunchesExactlyDue` | codecub/automation.py:293-318 | when the locked half goes through, exactly the due jobs are under way once more |
| `Automation.UnsavedFailureEndsTick` | codecub/automation.py:332-339 | when the save of a failure raises, what the tick had still to submit is abandoned, and nothing else |
| `Automation.MicrosPositiveIff` | codecub/automation.py:310-311 | a delay is at least one clock unit exactly when it is more than half a microsecond |

## Left out

- Whether a user message survives compression: partitioning may move user groups into the summarised part; only what enforcement does to recent groups is stated.
- Rendering of working state, repository map, summaries and pinned items, the condenser's text and the redaction of secrets: arbitrary texts here.
- Scores of raw evidence and of recalled candidates: arbitrary numbers; recall scores are taken as non-negative, as `codecub/memory.py:346-351` makes them.
- Token counting by a particular tokenizer: arbitrary counters instead.
- NativeCompiler.CompileNative: the metadata a compile records besides its messages is not modelled.
- BudgetVerdict.LegacyPromptDecision: the other validator checks (freshness, protected constraints, evidence, instruction integrity, provider limit) enter as given outcomes.
- Extensions.ExtensionRegistry.ActivateExtension: loading of entry points, hooks that touch the registry, deactivation and discovery from directories are not modelled.
- Instructions.Resolve: normalisation of contents, layers and sources before resolution, and the derivation of conflict keys from text; instructions arrive with these fields filled.
- TurnScheduler.EveryMessageHasOnePlace: cancellation, approvals and heartbeats; that only one run exists at a time is not claimed, since beginning a run is outside the scheduling lock.
- ModelGateway.Gateway.Invoke: waiting times and the classification of errors from their texts.
- SideEffectLedger.RunStore.UpdateSideEffect: the order of an entry's states, since any state text is accepted.
- CodeIndex.Index.Refresh: symbol search, outlines and call lookup on top of the records; parsing itself is a parameter.
- VectorIndex.LocalVectorIndex.Refresh: the class does not write files; what the files hold matters only when a refresh is killed, and VectorRuns states that. Unreadable files, similarity search, chunking of files and more than one embedding client are not modelled.
- TokenBudget.ClipIsLongest: a counter that is not monotone; for those, SearchStops states what still holds.
- PromptBuild.RequestOverBudget: a counter for which text in front of the request lowers the count; the prompt may then fit although the request alone does not.
- PromptBuild.Build: the mode without reduction, the metadata, and the texts of checkpoint, memory and transcript items.
- Automation.AutomationScheduler.Tick: the class states a tick in which every save succeeds; saves that fail and steps of other callers in between are covered by the events.
- Automation.AutomationScheduler: jobs are values in a map rather than shared mutable objects; jobs are never removed, so both views agree. Metadata of jobs, the parsing of durations, timestamps and expressions from text, and the background task are not modelled.
- CronSchedule.NextIsFirstMatch: the calendar is a parameter; day and weekday must both match and Monday is 0, as in the code.
- Hybrid retrieval, channels, the gateway server, model providers, evaluation, metrics, watchdog and command line: network, processes and static data.
- Task policies (which requests need source evidence), the edit-decision watchdog (whether requests for more evidence still make progress), the run queue and its worker (queued runs handed out one by one), and the tool circuit breaker are not modelled.
