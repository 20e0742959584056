# A verified model of the multi-agent session runtime

This project models, in Dafny, how an agent session turns one request into one answer: routing and
preselecting roles, planning a graph of nodes, running it over workers with asynchronous queues, joining
role contributions, reading JSON out of model replies, and remembering the result in a compacted, file-backed
store. `dafny verify dfyconfig.toml` checks everything.

## How the model is laid out

- `TaskGraphs`, `Evaluator`, `GraphRuntime`, `RuntimeInvariant`, `Scheduling`, `Synthesis`, `FinalTexts`: one task graph, its
  runtime maps as a mutable class proved against functions, and what every operation keeps.
- `TaskCommander`, `Workers`, `WorkerReports`, `Protocol`, `ProtocolSafety`, `Accounting`, `Runs`: the commander and the workers
  as classes, and the transition system of both with FIFO queues. A step is one worker step or the delivery
  of one message to the commander.
- `CommanderRuns`: the commander of the transition system is the commander class, fed with what a run delivers.
- `Denotation`, `Ledger`, `ScheduleIndependence`, `AnsweringRuns`, `Assignments`: what runs compute, independently of
  their interleaving.
- `CycleCheck`, `Rules`, `Templates`, `Planner`, `PlanWords`, `TaskPlanning`, `EndToEnd`: validation and planning, which supply the DAG that runs need.
- `MemoryRecords`, `Normalization`, `Compaction`, `Retention`, `Upserts`, `KeyedMap`, `Reload`, `Bundles`,
  `SessionMemory`, `InMemoryStore`, `FlushProtocol`: the memory store, from one record to concurrent flushes.
- `JsonText`, `JsonExtraction`, `JsonRecovery`, `JsonFences`: the concrete syntax of RFC 8259 (sections 2 to 7), the
  scanner and the code fences.
- `Roles`, `Router`, `Preselection`, `Agreement`, `Coverage`: the role catalog, routing and preselection.
- `Collaboration`, `CollaborationRuns`, `CollaborationFailures`: primary and support workers.
- `Common`, `Text`: options, sums over keys, and the string operations of the standard library.

Operations that update fields are methods of classes whose `ensures` equate the whole new state with a
function of the old one; the properties are lemmas about those functions.

Premises of the main results are results themselves:

- a started graph is well formed and registered (`AcceptedRuleGraph`, `BuiltinGraphIsDag`, `TryTaskGraphRoute`);
- every reachable system satisfies `SystemOk` (`BootOk`, `StepKeeps`), and completed runs exist (`CanFinish`),
  for any answers that workers can give (`EvaluationAttained`);
- every reachable record list satisfies `StoreOk` (`ReachableOk`), every reachable file store `FlushOk` (`OpenedOk`,
  `FlushProtocol.StepKeeps`);
- a validated catalog has unique roles (`ValidateConfiguredRoles`), and its routes give plans of distinct workers
  (`RoutedPlanOk`).

## What the proofs found

- `apply_report` never asks whether the node is running. In every reachable system it is, but only because
  of the one-token invariant (`Runs.ReportsAreAwaited`).
- The checks for self-dependencies and for a missing root decide no verdict: such rules have a cycle anyway.
  They only choose the message.
- The retention comparator is not an order: two records of equal keyedness, confidence and update time
  compare `Greater` both ways, and so does a record with itself; the comparison by length is unreachable
  (`Compaction.ComparatorClash`). Its answer `Less` is a strict weak order.
- A truncated content holds line breaks, or may end in a blank, so reopening the store rewrites it; with a
  limit of zero it is empty and reopening drops it. `Reload.ReloadIdentity` and `Reload.StoredStable` say exactly when
  a store survives reopening. A second reopening never changes anything.
- Keyed records are a map only while no scope and kind receives more keys than its cap (`KeyedMap.MapRefinement`).
- Extraction recovers every JSON value behind a prefix exactly when the prefix closes its quotes and opens no
  bracket outside them (`JsonRecovery.QuietExactly`). An open quote can hide the value, and an open bracket can
  take it for its own content (`UnclosedQuoteHides`, `OpenBracketSwallows`).
- A fenced value whose own text holds three backticks is cut there and lost (`JsonFences.FencedExactly`).
- The source marker of a citation holds the id of the input, so looking for it decides nothing (`Evaluator.CitesExactly`).
- Rendering fills a rule's places one after the other, so a task that names a place is rendered itself
  (`Templates.TaskIsRenderedToo`).
- The copy node of a data plan comes after its operations node, which never refers to it (`PlanWords.BuiltinByWords`).
- Every rework carries the evaluator's instruction; the runtime's own text is never used (`GraphRuntime.OutcomeExactly`).
- Preselection serves the commander's plan exactly when the catalog has every planned role. Only the fixed
  built-in plans can ask for one that is missing (`Coverage.PlannedInCatalog`).
- The minimum score is checked against the preselected roles only. A configured rule or a fixed plan may leave the
  best-scoring role out, and then the commander does not start a graph that the full catalog's score would have let
  it start, and goes on to its other routes (`Coverage.SelectionScore`, `Coverage.LowSelectionRefused`).
- Scores decide the routing order together with priorities alone: equal scores imply equal keyword hits, so the
  comparison by hits never decides (`Router.KeywordsDecide`).
- A failed support leaves its collaboration open for ever: the host gets the failure text and never the joint
  answer (`CollaborationFailures.AnsweredIffNoFailure`).
- `min_confidence_to_keep_when_pruning` is in the compaction policy but no code reads it.

## Model

| member | source | states |
|---|---|---|
| `Evaluator.EvaluateUpstreamEvidence` | src/agent/commander/task_graph.rs:1084-1120 | the citation loop pushes one reason per input reference that no evidence item cites, in order, and nothing else |
| `Evaluator.CitationComplete` | src/agent/commander/task_graph.rs:1084-1120 | no reason is pushed if and only if every input is cited by id, source marker or role |
| `Evaluator.PassedExactly` | src/agent/commander/task_graph.rs:937-994 | a report passes if and only if it completed, is not blank, meets its text and role checks and cites all inputs |
| `Evaluator.EvaluateFrame` | src/agent/commander/task_graph.rs:937-994 | a verdict depends on upstream reports only at the node's own inputs |
| `Evaluator.CitesExactly` | src/agent/commander/task_graph.rs:1096-1110 | an evidence item cites an input if and only if, trimmed, it holds the id of the input or its role; the source marker holds the id and so decides nothing |
| `Evaluator.ReasonsExactly` | src/agent/commander/task_graph.rs:937-994 | the reasons of a rejection are exactly the faults of the report, each in its own words |
| `GraphRuntime.OutcomeExactly` | src/agent/commander/task_graph.rs:121-168 | passed without reasons, rework while attempts are left and always with the evaluator's instruction to resubmit, failed otherwise with the reasons joined |
| `GraphRuntime.TaskGraphRuntime.SelectReadyNodes` | src/agent/commander/task_graph.rs:56-91 | the filter with its set of claimed workers yields the ready nodes |
| `GraphRuntime.TaskGraphRuntime.Assign` | src/agent/commander/task_graph.rs:93-112 | the assignment of the next attempt with input reports in order and the pending rework instruction |
| `GraphRuntime.TaskGraphRuntime.MarkNodeRunning` | src/agent/commander/task_graph.rs:114-119 | the whole new state after a dispatch |
| `GraphRuntime.TaskGraphRuntime.Apply` | src/agent/commander/task_graph.rs:121-168 | the whole new state and the outcome after a report: passed, sent back, or failed with its dependants skipped |
| `GraphRuntime.TaskGraphRuntime.SkipBlockedDescendants` | src/agent/commander/task_graph.rs:366-400 | repeated sweeps reach exactly the fixpoint: every pending node behind a failed or skipped one, however far, becomes skipped and nothing else changes |
| `Scheduling.ReadyExact` | src/agent/commander/task_graph.rs:56-91 | readiness selects runnable nodes of idle workers, one per worker, and leaves no idle worker with a runnable node unserved |
| `Scheduling.ReadyForemost` | src/agent/commander/task_graph.rs:56-91 | ready nodes come in the order of the graph, each the first that its worker could run |
| `RuntimeInvariant.DispatchKeeps` | src/agent/commander/task_graph.rs:93-119 | a dispatch stays within `max_attempts`, so the 8-bit counter never wraps; `attempt > 1` if and only if an instruction is attached; the runtime invariant and settled results are kept |
| `RuntimeInvariant.ReportKeeps` | src/agent/commander/task_graph.rs:121-168 | a report on a running node keeps the runtime invariant: attempts, reports and instructions fit each node's state |
| `Scheduling.SkipExactness` | src/agent/commander/task_graph.rs:366-400 | in every consistent runtime a node is skipped if and only if a proper ancestor failed; skipped nodes were never attempted; running, passed and failed nodes have only passed ancestors |
| `Scheduling.NeverStalls` | src/agent/commander/task_graph.rs:56-91 | in a DAG, an unfinished runtime without a waiting runnable node has a running node |
| `Synthesis.SynthesizeText` | src/agent/commander/task_graph.rs:181-254 | the loop yields the text whose contents `FinalTexts.TextTells` states |
| `Synthesis.ProductsAndGapsPartition` | src/agent/commander/task_graph.rs:189-246 | on finish the passed nodes and the listed gaps partition the node list |
| `FinalTexts.TextTells` | src/agent/commander/task_graph.rs:181-254 | the final text names the task, then shows each passed node with title, role, trimmed summary and every non-blank finding, recommendation, risk and open question of its report under its caption and in order, and after all of them each failed or skipped node with its reason |
| `FinalTexts.PassedInOrder` | src/agent/commander/task_graph.rs:189-246 | products and gaps come in the order of the graph |
| `TaskCommander.Commander.TryTaskGraphRoute` | src/agent/commander/runner.rs:399-434 | a graph starts if and only if there is a current job, its route does not score below the minimum and every planned node's worker is registered; then the collaboration fields are reset, and a fresh runtime of the planned graph is scheduled and stays active while unfinished; otherwise nothing changes |
| `TaskCommander.Commander.ScheduleTaskGraphRuntime` | src/agent/commander/runner.rs:517-550 | what is sent, kept and emitted by one scheduling pass, in order |
| `TaskCommander.Commander.FinishTaskGraph` | src/agent/commander/runner.rs:552-570 | one text with the synthesis, one recorded runtime, and no active graph |
| `TaskCommander.Commander.HandleTaskGraphReport` | src/agent/commander/runner.rs:436-515 | a report without an active graph is dropped; otherwise it is applied to the active runtime, announced and followed by a scheduling pass, and the same runtime with the same graph and checks stays active while unfinished |
| `TaskCommander.Commander.HandleMessage` | src/agent/commander/runner.rs:130-221 | a report moves the commander as stated, a start notice does not |
| `TaskCommander.Commander.Run` | src/agent/commander/runner.rs:108-119 | over any sequence of these messages the commander object does what its reports make it do one after the other |
| `TaskCommander.Commander.Serve` | src/agent/commander/runner.rs:399-515 | starting a graph and then handling any messages is one function of the graph and these messages |
| `CommanderRuns.RunsServe` | src/agent/commander/runner.rs:399-570 | in every run the commander of the transition system has the graph, texts, records and events of the commander object fed with the messages that the run delivered; these are start notices and reports only |
| `Workers.ConcludeAnswers` | src/agent/worker/runner.rs:233-333 | whatever a worker thought and did, it concludes an assignment with one report that echoes its ids, and becomes idle |
| `Workers.Worker.StartTask` | src/agent/worker/runner.rs:142-159 | accepting a job resets the worker and announces it |
| `Workers.Worker.RuntimeStep` | src/agent/worker/runner.rs:79-86 | one step of the run loop does what the worker's phase asks for; what comes of it is stated by `WorkerReports.JobReports` |
| `WorkerReports.JobReports` | src/agent/worker/runner.rs:161-333 | for every assignment, thought and course of the action: the one report carries the output of the thought when no action was selected or the action completed, and is failed with the failure of cognition or with `action aborted` otherwise; a still active action sends nothing |
| `WorkerReports.AnswersAsTold` | src/agent/worker/runner.rs:161-333 | in every run a working worker can answer if and only if its thought and the last drive of its action settle it, and then sends just that report of its current assignment |
| `ProtocolSafety.StepKeeps` | src/agent/commander/runner.rs:377-550 | the protocol invariant is inductive over every step of commander, workers and queues |
| `ProtocolSafety.BootOk` | src/agent/commander/runner.rs:399-434 | the invariant holds once a graph is started |
| `Runs.RunOk` | src/agent/commander/runner.rs:436-550 | every system a run reaches satisfies the protocol and runtime invariants, among them: pending nodes have attempts left and running ones between 1 and `max_attempts` |
| `Runs.OneTokenPerRunningNode` | src/agent/commander/runner.rs:517-550 | in every reachable system each running node has exactly one token in flight (queued, worked on or reported), idle workers have none, and no worker runs two nodes |
| `Runs.ReportsAreAwaited` | src/agent/commander/task_graph.rs:121-168 | every report the commander applies answers the current assignment of a running node of the reporting worker, which `apply_report` itself does not check |
| `Runs.StepDrops` | src/agent/commander/runner.rs:517-550 | every effective step lowers one measure; the only other step changes nothing |
| `Runs.EveryRunEnds` | src/agent/commander/task_graph.rs:114-168 | a run makes at most seven effective steps per allowed attempt and dispatches at most the sum of `max_attempts`; attempts = evaluations + running nodes |
| `Runs.NeverStuck` | src/agent/commander/runner.rs:517-570 | while a graph is active some effective step is enabled |
| `Runs.CanFinish` | src/agent/commander/runner.rs:517-570 | from every reachable system the run can be brought to its end |
| `Runs.HostHearsOnce` | src/agent/commander/runner.rs:552-570 | the host hears nothing while the graph is active and exactly one final text once it is finished; a run that cannot go on has finished |
| `Runs.NoIdleWorkerWaits` | src/agent/commander/task_graph.rs:56-91 | between the steps of every run no runnable node waits for an idle worker |
| `Runs.SkipsAreExact` | src/agent/commander/task_graph.rs:366-400 | skip exactness between the steps of every run |
| `Denotation.FinishedAsEvaluated` | src/agent/commander/task_graph.rs:56-168 | a finished node ended as a plain recursive evaluation of the DAG says |
| `ScheduleIndependence.RunsAsEvaluated` | src/agent/commander/runner.rs:436-550 | a completed run leaves every node as the recursive evaluation says, whatever the interleaving |
| `ScheduleIndependence.RunRecord` | src/agent/commander/task_graph.rs:121-168 | a completed run leaves on record the trace of every node's attempts, and as evaluations exactly one verdict for each of them |
| `ScheduleIndependence.SchedulesAgree` | src/agent/commander/runner.rs:436-550 | two completed runs whose workers answer alike end with equal states, reports, attempts and final text, and with the same evaluations up to order |
| `Ledger.ReportBalanced` | src/agent/commander/task_graph.rs:121-168 | applying the answer to a running node's assignment keeps the evaluations equal to the verdicts on all concluded attempts |
| `AnsweringRuns.EvaluationAttained` | src/agent/worker/runner.rs:161-333 | for every answer that workers can give to their assignments some run follows it to the end and leaves every node as the recursive evaluation says |
| `AnsweringRuns.OnlyAnswers` | src/agent/worker/runner.rs:161-333 | in every run each report that a worker sends is such an answer to the current assignment of its running node |
| `Assignments.AssignmentsFaithful` | src/agent/commander/task_graph.rs:93-161 | every assignment is dispatched only after all inputs of its node were announced as passed, names its graph and task, carries one accepted, fully citing report per input reference, in order, and a rework is exactly the attempt announced last |
| `CycleCheck.DependencySearch.Visit` | src/agent/commander/task_graph.rs:893-916 | one visit of the three-colour search: lists the node after its dependencies or closes a real cycle |
| `CycleCheck.DependencySearch.Search` | src/agent/commander/task_graph.rs:886-935 | the search succeeds if and only if the dependencies have no cycle; success yields a topological order, failure a cycle |
| `CycleCheck.AcyclicHasOrder` | src/agent/commander/task_graph.rs:886-935 | without a cycle every node can be listed after its dependencies |
| `CycleCheck.RootlessHasCycle` | src/agent/commander/task_graph.rs:877-882 | a nonempty closed set of nodes without a root holds a cycle |
| `Rules.ValidateRule` | src/agent/commander/task_graph.rs:821-884 | a rule is accepted if and only if it is described, unique, resolved and acyclic; every error names a real fault |
| `Rules.ValidateNodes` | src/agent/commander/task_graph.rs:829-858 | the first loop accepts exactly unique, described nodes |
| `Rules.ValidateDependencies` | src/agent/commander/task_graph.rs:860-875 | the second loop accepts exactly dependencies on other declared nodes |
| `Rules.ValidateRules` | src/agent/commander/task_graph.rs:800-819 | a rule set is accepted if and only if every rule is and no rule id repeats |
| `Rules.RootlessRule` | src/agent/commander/task_graph.rs:877-882 | a rule without a root has a cycle, so the root check never decides whether a rule is accepted |
| `Rules.AcceptedRuleGraph` | src/agent/commander/task_graph.rs:757-787 | the graph of an accepted rule is node by node what the rule asks for: id, role, title, worker, inputs equal to the dependencies in order, rendered objective, attempts and acceptance with their defaults; it is well formed, a DAG and nonempty |
| `Templates.RenderFills` | src/agent/commander/task_graph.rs:789-794 | rendering a template puts task, rule id and description into every one of their places and changes nothing else, when words, task and rule id hold no opening brace |
| `Templates.TaskIsRenderedToo` | src/agent/commander/task_graph.rs:789-794 | witness: a task that names a place is rendered itself |
| `Text.ReplaceLeftmost` | src/agent/commander/task_graph.rs:789-794 | replacing takes the leftmost occurrence and goes on behind it |
| `Text.ReplaceNothing` | src/agent/commander/task_graph.rs:789-794 | where the pattern does not occur nothing changes |
| `TaskPlanning.FirstMatchExactly` | src/agent/commander/task_graph.rs:732-740 | the rule used is the first that applies, and none is used exactly when none applies |
| `Planner.PlanBuiltin` | src/agent/commander/task_graph.rs:420-635 | for every text the pushes of the built-in planner yield a nonempty, well-formed DAG whose nodes are unique and come after everything they refer to |
| `Planner.BuiltinInOrder` | src/agent/commander/task_graph.rs:420-635 | for every text the built-in plan lists unique nodes after everything they refer to |
| `Planner.BuiltinGraphIsDag` | src/agent/commander/task_graph.rs:420-635 | every built-in graph is well formed, a DAG and nonempty |
| `PlanWords.BuiltinByWords` | src/agent/commander/task_graph.rs:420-635 | which words yield which nodes, in the order of precedence, and what each node refers to; a node that waits for nothing is told the task |
| `EndToEnd.AcceptedRulesRunToTheEnd` | src/agent/commander/task_graph.rs:821-935 | an accepted rule whose roles have workers: every run is bounded, never deadlocks and ends with one text that tells of every node in order, each product with all that its accepted report says and each gap with its reason |
| `EndToEnd.RuleNodesAwaitDependencies` | src/agent/commander/task_graph.rs:757-776 | in every run of an accepted rule each dispatched node is given to its role's worker after all its dependencies passed, and with their reports in order |
| `EndToEnd.BuiltinPlansRunToTheEnd` | src/agent/commander/task_graph.rs:420-635 | the same for every built-in plan that passes the registration check |
| `Normalization.NormalizeTwice` | src/agent_session/memory/compaction.rs:191-193 | white-space normalisation is idempotent |
| `Normalization.NormalizeKeepsInk` | src/agent_session/memory/compaction.rs:191-193 | it loses and reorders no visible character |
| `Normalization.NormalizeKeepsWords` | src/agent_session/memory/compaction.rs:191-193 | a visible character begins a word afterwards if and only if it did before |
| `Normalization.FixedIffSettled` | src/agent_session/memory/compaction.rs:191-193 | it fixes exactly the texts with single inner blanks |
| `Normalization.NormalizeTagsTwice` | src/agent_session/memory/compaction.rs:195-203 | tag normalisation is idempotent |
| `Normalization.NormalizeTagsExactly` | src/agent_session/memory/compaction.rs:195-203 | the stored tags are the non-blank given ones, trimmed, each once and ascending |
| `Compaction.StoredLength` | src/agent_session/memory/compaction.rs:213-235 | a stored content never exceeds the limit, a truncated one meets it exactly, and none grows |
| `Compaction.TruncationKeepsEnds` | src/agent_session/memory/compaction.rs:213-235 | a content cut around the marker is its own beginning, the marker and its own end, halves of the room that is left |
| `Compaction.ShortTruncation` | src/agent_session/memory/compaction.rs:213-235 | a content that fits is stored whole, and one without room for the marker is cut to its beginning |
| `Compaction.CompactRecordKeeps` | src/agent_session/memory/compaction.rs:92-121 | a record with content is kept with its identity, source and times, its confidence moved to the nearest probability; one without is dropped |
| `Compaction.CompactionFixes` | src/agent_session/memory/compaction.rs:92-121 | exactly which records pass through compaction unchanged |
| `Compaction.ComparatorClash` | src/agent_session/memory/compaction.rs:170-189 | the comparator answers `Greater` both ways exactly on records of equal keyedness, confidence and update time, and never reaches its last component |
| `Compaction.BeforeExactly` | src/agent_session/memory/compaction.rs:170-189 | one record goes before another if and only if it alone has a key, or else has the higher confidence, or else was updated later |
| `Compaction.ComparatorOrders` | src/agent_session/memory/compaction.rs:170-189 | its answer `Less`, which `BeforeExactly` describes, is a strict weak order |
| `Compaction.SortedUnique` | src/agent_session/memory/compaction.rs:134 | without clashes any two sorted permutations agree, so the sorting algorithm does not matter |
| `Compaction.CompactScopeKind` | src/agent_session/memory/compaction.rs:123-167 | the loop over `kept` and `unkeyed_count` yields the group that `Retention.CompactedExactly` and `Retention.BestRetained` describe, and its statistics |
| `Retention.CompactedExactly` | src/agent_session/memory/compaction.rs:123-167 | the kept records are the best keyed ones up to the group cap, then the best unkeyed ones up to both caps |
| `Retention.CompactedCaps` | src/agent_session/memory/compaction.rs:136-153 | both caps are met and nothing is invented |
| `Retention.KeyedSurviveUnkeyed` | src/agent_session/memory/compaction.rs:123-167 | no keyed record is dropped while an unkeyed one stays |
| `Retention.BestRetained` | src/agent_session/memory/compaction.rs:123-167 | among records of one keyedness what is kept has at least the confidence of what is dropped, and with equal confidence was updated no earlier |
| `Retention.DroppedOnlyWhenFull` | src/agent_session/memory/compaction.rs:136-153 | a record is dropped only when a cap is reached |
| `Retention.CompactedTwice` | src/agent_session/memory/compaction.rs:123-167 | compaction of a group is idempotent |
| `Upserts.UpsertKeeps` | src/agent_session/memory/in_memory.rs:240-294 | every upsert keeps the store invariant: one block per scope and kind, each sorted and within caps, unique keys, compact records |
| `Upserts.ReachableOk` | src/agent_session/memory/in_memory.rs:240-294 | the invariant holds after any writes |
| `Upserts.OtherGroupsUntouched` | src/agent_session/memory/in_memory.rs:282-292 | an upsert leaves every other scope and kind alone |
| `Upserts.UpsertAccounts` | src/agent_session/memory/in_memory.rs:240-294 | one upsert adds one record less what it merges and drops, and its statistics balance |
| `Upserts.Conservation` | src/agent_session/memory/compaction.rs:39-48 | over any writes: size = writes - merged - dropped, input = output + dropped, and no characters are added |
| `KeyedMap.MapRefinement` | src/agent_session/memory/in_memory.rs:265-280 | after any writes the keyed records are exactly the entries of a plain map if and only if no group received more keys than it may hold |
| `KeyedMap.OverflowLosesAKey` | src/agent_session/memory/in_memory.rs:282-292 | two keys in a group that may hold one record: the list is not the map |
| `KeyedMap.EntryMeaning` | src/agent_session/memory/in_memory.rs:265-280 | an entry has the content last written under the id and creation time first written |
| `Reload.ReloadIdentity` | src/agent_session/memory/file_store.rs:53-64 | reopening from its own records restores the same list if and only if every stored content is non-empty and settled |
| `Reload.StoredStable` | src/agent_session/memory/compaction.rs:213-235 | exactly which writes leave such content: nothing cut, or a cut too short for the marker that does not end in a blank |
| `Reload.UntruncatedRunsReload` | src/agent_session/memory/in_memory.rs:33-39 | after writes that truncate nothing, reopening restores the store |
| `Reload.CutContentIsRewritten` | src/agent_session/memory/compaction.rs:213-218 | one cut content that a reload rewrites |
| `Reload.SecondReload` | src/agent_session/memory/in_memory.rs:33-39 | one reload always reaches a list that every later reload restores |
| `Bundles.LoadBundle` | src/agent_session/memory/in_memory.rs:50-86 | the lazy loop with its character budget and count yields the bundle |
| `Bundles.TakeIsCutPrefix` | src/agent_session/memory/in_memory.rs:65-80 | a bundle is a prefix of the newest-first matches in which only the last content may be cut, to a prefix |
| `Bundles.TakeExhausts` | src/agent_session/memory/in_memory.rs:65-80 | count and characters stay within bounds, and only their exhaustion ends a bundle early |
| `Bundles.BundleUnique` | src/agent_session/memory/in_memory.rs:65-80 | these two properties determine the bundle |
| `Bundles.InCandidates` | src/agent_session/memory/model.rs:218-236 | the candidates are exactly the records that match scope, kind and text |
| `Bundles.BundleExactly` | src/agent_session/memory/in_memory.rs:50-86 | a bundle is the newest records whose scope contradicts the query in no field and whose kind and text fit, without a gap, whole but for the last; count and characters are bounded, and a fitting record is left out only when they are used up |
| `Bundles.SummaryExactly` | src/agent_session/memory/in_memory.rs:81-86 | the summary is the content of the first session summary in the bundle |
| `InMemoryStores.InMemoryMemoryStore.UpsertRecord` | src/agent_session/memory/in_memory.rs:240-294 | the edits in place yield the next list and outcome, and the totals grow by that outcome |
| `InMemoryStores.InMemoryMemoryStore.WithRecords` | src/agent_session/memory/in_memory.rs:33-39 | opening a store replays all its records in order |
| `InMemoryStores.InMemoryMemoryStore.PersistSession` | src/agent_session/memory/in_memory.rs:88-238 | a session without text writes nothing; otherwise exactly one record is written for each part of the snapshot that says something, in order, and the outcomes are summed; so something is written if and only if the session has text |
| `SessionMemory.DraftsSpeak` | src/agent_session/memory/in_memory.rs:88-238 | every part that passes the filters has visible content |
| `SessionMemory.NormalEmptyIffBlank` | src/agent_session/memory/compaction.rs:104-111 | a content that normalises to nothing is exactly a blank one, so compaction drops no part that passed |
| `FlushProtocol.StepKeeps` | src/agent_session/memory/file_store.rs:74-117 | the flush invariant is inductive over every step of every caller |
| `FlushProtocol.FlushAgreement` | src/agent_session/memory/file_store.rs:74-117 | with any number of interleaved callers, whenever none is active and some write has happened, the file holds exactly the memory |
| `FlushProtocol.FileNeverGoesBack` | src/agent_session/memory/file_store.rs:74-90 | no flush replaces the file by an older state |
| `FlushProtocol.NeverBlocked` | src/agent_session/memory/file_store.rs:74-90 | while a caller is active, it or the holder of the lock can step |
| `FlushProtocol.ReopenRestores` | src/agent_session/memory/file_store.rs:53-64 | reopening a quiet store's file restores its memory if and only if all its content is stable |
| `JsonExtraction.ExtractBalancedJson` | src/cognition/engine/decoder.rs:142-187 | the loop over string, escape and depth flags returns the text from the first bracket to where it is first closed, counting brackets outside string literals, and nothing when it never is |
| `JsonExtraction.ExtractJsonValue` | src/cognition/engine/decoder.rs:111-140 | the prefix scan returns the shortest balanced text of the first bracket outside string literals that has one, and nothing if and only if no such bracket balances |
| `JsonRecovery.ValueRun` | src/cognition/engine/decoder.rs:142-187 | every value of RFC 8259 leaves the matcher at the depth where it met it |
| `JsonRecovery.ContainerBalanced` | src/cognition/engine/decoder.rs:142-187 | from the first bracket of an object or array exactly its text is returned, whatever follows |
| `JsonRecovery.ExtractsEmbedded` | src/cognition/engine/decoder.rs:111-140 | an object or array after a prefix with closed quotes and no open bracket is extracted exactly, whatever follows |
| `JsonRecovery.QuietExactly` | src/cognition/engine/decoder.rs:111-187 | extraction recovers every object and array behind a prefix, with every suffix, if and only if the prefix closes its quotes and opens no bracket outside them |
| `JsonRecovery.PlainIsQuiet` | src/cognition/engine/decoder.rs:111-140 | a prefix without quotes and opening brackets is such a prefix |
| `JsonRecovery.UnclosedQuoteHides` | src/cognition/engine/decoder.rs:111-140 | witness: a reply whose open quote hides the value behind it |
| `JsonRecovery.OpenBracketSwallows` | src/cognition/engine/decoder.rs:142-187 | witness: a reply whose open bracket takes the value for its own content |
| `JsonFences.StripsFence` | src/cognition/engine/decoder.rs:93-109 | the body is returned up to the first fence behind the opening line, its own closing fence or an earlier one |
| `JsonFences.StripsInline` | src/cognition/engine/decoder.rs:93-109 | the same for a fence in one line |
| `JsonFences.KeepsUnclosed` | src/cognition/engine/decoder.rs:93-109 | a reply without a fence, or with a single one, stays as it is |
| `JsonFences.FencedExactly` | src/cognition/engine/decoder.rs:93-140 | a value behind a quiet lead in a fenced block is recovered from the whole reply if and only if no three backticks stand in the lead or in the value's text |
| `JsonFences.InlineExactly` | src/cognition/engine/decoder.rs:93-140 | the same for a fence in one line |
| `JsonFences.FencedQuietExactly` | src/cognition/engine/decoder.rs:93-187 | in a fenced block every unfenced value is recovered behind a lead if and only if the lead closes its quotes and opens no bracket outside them |
| `JsonFences.BackticksCutTheValue` | src/cognition/engine/decoder.rs:93-109 | witness: a fenced array whose string of three backticks is lost |
| `Roles.ValidateConfiguredRoles` | src/roles/catalog.rs:83-131 | a catalog is accepted if and only if its roles are declared and both ids and runtime roles are unique; every error names a real fault |
| `Router.PrimaryIsBest` | src/roles/router.rs:40-85 | the primary is the first of the best roles if it scores at all, and else the fallback |
| `Router.KeywordsDecide` | src/roles/router.rs:120-150 | one keyword outweighs action and domain, and equal scores mean equal keyword hits |
| `Router.ScoreExactly` | src/roles/router.rs:120-150 | in points: two for each keyword that occurs in the message, one for a preferred action, and half of one for the domain of a role that has any |
| `Router.BetterExactly` | src/roles/router.rs:56-64 | one role outranks another by more keywords, then by the action, then by the domain, then by the smaller priority number |
| `Router.FallbackExactly` | src/roles/router.rs:66-79 | without a scoring role `chat` answers, else `ops`, else the first role |
| `Router.RouteByRank` | src/roles/router.rs:58-66 | the stable sort of the scores is the ranking of the roles |
| `Router.PrimaryScoreIsBest` | src/agent/commander/runner.rs:992-999 | the score by which a route is accepted is the best in the catalog, and a role attains it |
| `Preselection.SelectRolesForTask` | src/agent_session/session.rs:198-252 | the pushes and the loop yield the selected roles |
| `Preselection.PickedHas` | src/agent_session/session.rs:231-245 | a wanted name is picked if and only if the catalog has it |
| `Preselection.RouteOfScoring` | src/roles/router.rs:68-111 | a route with a scoring role is the shortlist of the ranking |
| `Preselection.SupportsExactly` | src/roles/router.rs:91-102 | the supports are the best other roles that score, at most two; one that scores is left out only for two that it does not outrank |
| `Agreement.RouteOfSilent` | src/roles/router.rs:68-111 | a route without a scoring role is the fallback alone |
| `Agreement.SameRouteWithoutPlan` | src/agent_session/session.rs:223-252 | without the fast route the router over the selected roles gives the route of the full catalog, scores aside |
| `Agreement.SamePrimary` | src/agent_session/session.rs:212-221 | for a text without a rule or fixed plan the reduced router picks the same primary |
| `Agreement.SameNodes` | src/agent_session/session_runtime.rs:107-147 | the commander plans exactly the nodes the session preselected for |
| `Coverage.PreselectionCovers` | src/agent/commander/runner.rs:410-418 | over the selected workers the commander accepts its plan if and only if every planned role is in the catalog |
| `Coverage.PlannedInCatalog` | src/agent/commander/task_graph.rs:413-418 | under accepted rules only a fixed built-in plan can ask for a role that the catalog lacks |
| `Coverage.SessionStarts` | src/agent/commander/runner.rs:399-418 | the commander starts its plan if and only if the selection scores enough and the catalog has every planned role |
| `Coverage.SelectionScore` | src/agent/commander/runner.rs:403-408 | the selection never scores above the catalog, and equals it if and only if it holds a role of the best score, as it does for an unplanned text |
| `Coverage.PreselectedSessionsEnd` | src/agent_session/session_runtime.rs:107-147 | the session starts its graph if and only if the selection scores enough and, for a fixed plan, the catalog has all planned roles; a started graph comes to its end in every run |
| `Coverage.MissingRoleRefused` | src/agent/commander/runner.rs:410-418 | witness: a fixed plan that needs a role the catalog lacks never starts |
| `Coverage.LowSelectionRefused` | src/agent/commander/runner.rs:403-408 | witness: the selection leaves out the only scoring role, and the graph is not started although the catalog scores |
| `Collaboration.CollaborationCommander.PrepareCollaboration` | src/agent/commander/runner.rs:608-650 | a collaboration begins only with supports and the routed primary as target |
| `Collaboration.PreparedExactly` | src/agent/commander/runner.rs:608-650 | a collaboration begins if and only if the routed primary is the target and has supports, and then with the plan of the route and empty records |
| `Collaboration.CollaborationCommander.HandleFinished` | src/agent/commander/runner.rs:652-715 | the whole new state, sends and texts after a finished worker |
| `Collaboration.CollaborationCommander.DispatchSupportWorkers` | src/agent/commander/runner.rs:717-752 | exactly the registered supports are asked and awaited, in plan order |
| `Collaboration.OnlyInOrder` | src/agent/commander/runner.rs:717-752 | the supports asked are those with a worker, in plan order |
| `Collaboration.CollaborationCommander.SendCollaborationDone` | src/agent/commander/runner.rs:754-787 | one text is sent and every field is reset |
| `CollaborationRuns.RoutedPlanOk` | src/roles/collaboration.rs:46-65 | the plan of a route over a valid catalog gives every role a worker of its own |
| `CollaborationRuns.AssignmentUnique` | src/roles/collaboration.rs:67-75 | looking up a planned worker finds its own assignment |
| `CollaborationRuns.StepKeeps` | src/agent/commander/runner.rs:652-787 | pending and completed supports stay disjoint and together are the dispatched ones, and the recorded outputs are what was heard |
| `CollaborationRuns.JointText` | src/agent/commander/runner.rs:817-848 | the joint answer holds all contributions, the primary's first and the rest in plan order |
| `CollaborationRuns.ContributionsExactly` | src/agent/commander/runner.rs:817-841 | the joined contributions are exactly those of the workers that gave an output, the primary's first and the rest in plan order |
| `CollaborationRuns.CollaborationEnds` | src/agent/commander/runner.rs:652-787 | in every order of answers the host gets exactly one text, and only after the primary and all dispatched supports answered |
| `CollaborationFailures.FailedSupportSilences` | src/agent/commander/runner.rs:185-210 | once a dispatched support fails, the host gets nothing but failure texts and the collaboration stays open |
| `CollaborationFailures.AnsweredIffNoFailure` | src/agent/commander/runner.rs:185-210 | once nobody works any more, the host has the one final text if and only if no worker failed |

## Left out

- Model calls, prompts, environment and configuration reading, JSON decoding and tracing: I/O or code of other libraries.
- Session events other than the ones a run's history is read from; the real channel may drop events.
- The keyword, quality-contract and role-contract checks on report texts: uninterpreted predicates of the report; the citation loop is modelled.
- Conversion to lower case and the keyword match of a configured rule: parameters of the model.
- `memory_summary`: a text template. The formatting of snapshot parts into memory records is modelled.
- Parsing of worker outputs and skill results (`parse_worker_role_output`, `merge_skill_results`, `extract_worker_content`): inputs of the model.
- Templates.RenderFills: supposes words, task and rule id without an opening brace, since values are rendered again; `Text.ReplaceLeftmost` holds for all texts.
- TaskCommander.Commander.HandleMessage: takes only what the workers of a graph send; text answers and failures of workers are handled in `Collaboration`.
- Pause, resume and shutdown messages, a second human command during a run, and reports for unknown nodes arriving in a run: outside the modelled runs.
- A worker or channel that disappears during a run: a run starts with all its workers registered and they stay.
- Cognition-driven decisions of the commander (`decision_intent_from_json`).
- f32 rounding and NaN: confidences are reals; role scores are whole half points, exact below 2^24 of them.
- usize and u32 wrap-around: sizes and priorities are unbounded; the 8-bit attempt counter is modelled with its wrap-around.
- The order of equally ranked elements under the library sort: modelled as the stable sort that asks only whether one element comes before another. `Compaction.SortedUnique` shows when that choice does not matter; a library that panics on an inconsistent comparator is not modelled.
- Lock poisoning and I/O failure during a flush, and the version check of the file: a flush always succeeds.
- Byte offsets of UTF-8 text: texts are sequences of characters.
- `validate_shape_at` and the decoder around the extraction: a structural recursion over the template.
- The wording of the synthesised collaboration prompt: the joint answer keeps its inputs (job id, request, support names, contributions) as a value.
- The fields `confidence` and `needs_follow_up` of a contribution: constants in the code.
