# Verification of the deterministic workflow engine

This project models, in Dafny, the deterministic core of an analytics platform: the engine that runs a
workflow of data operations, and the gates that decide whether its result may be released. No language model
decides anything in this core, and everything below is about the code that does.

The parts, and what is proved about them:

* **Crash-safe execution** (`Graph`, `Dsl`, `Denotation`, `Protocol`, `Recovery`, `Safety`, `Guarantees`, `GivenInputs`,
  `Collisions`, `Overwriting`, `Budget`, `Store`, `Orchestrator`). A workflow has a meaning that does not mention execution at all: the
  one assignment of a frame to every node in which each step is worth what its operation makes of its inputs.
  `run()` is a machine of single durable writes (a step row, an artifact file, the run's state) that may be cut
  off between any two of them and called again. Whatever crashed, one more call leaves exactly the stores of a
  run that never crashed, a run that reaches VERIFYING holds the meaning of every node, and a run with a step
  that fails never gets there. `Orchestrator.WorkflowOrchestrator` is the imperative form over the two stores;
  its `Run` takes the number of durable writes the process lives through, and leaves and returns exactly what such a
  process sees of the machine; three writes a step and one more are always enough to see the end.
* **The execution order** (`Graph`, `Dsl`). The layered sort fails exactly on cyclic graphs, and otherwise
  returns the one order by longest dependency path and id.
* **Workflow rewriting** (`Cleaning`, `CleaningValidity`, `ApprovedCleaning`). Applying approved cleaning rules means the
  old workflow on sources trimmed, lower-cased and deduplicated as the approved ids say, and yields a valid workflow exactly for rules over declared sources whose
  generated ids are new and distinct.
* **Relational operations and their independent checkers** (`Join`, `JoinReview`, `Profiling`, `Aggregate`,
  `Reconciliation`, `RunReconciliation`, `Deduplicate`, `Reshape`, `TextClean`). The check made beforehand or
  afterwards agrees with what the operation does.
* **Release** (`Contract`, `PolicyGate`, `Validation`, `CheckedRules`, `Verifier`, `RunEvidence`, `Release`, `Assessment`,
  `Incident`, `StateMachine`, `Lifecycle`, `ReleasedChecks`, `Sessions`, `Rejudged`). What must be true whenever a run is RELEASED, over
  its whole life, on whatever contracts it was submitted, and that every use of the orchestrator's methods is such a
  life. `ReleasedRun`, `ReleasedSession` and `QuarantinedRun` are instances that show the assumptions can be met.

The operations are parameters (`Denotation.Engine`): deterministic functions that return a frame with evidence,
reject with a typed error, or let any other exception escape, which acts like a crash. The relational operations
are modelled one by one on frames whose cells are null, an exact number, or text. JSON-like parameters and
evidence are `Values.Value`. `Protocol.JobOk` gathers what a run is assumed to be: one validated workflow, fixed
for the run, whose nodes have pairwise different artifact file names.

Where the code and its own description differ, the code is modelled and the difference is a lemma:

* Row-count conservation is documented as exact; the agent fails a row-conserving step exactly when it lost rows
  (`Reconciliation.FailsIffRowsLostOrSumsDiffer`), and a step that adds rows passes
  (`Reconciliation.PassesThoughChangedIffRowsAdded`). A run with such a step is released
  (`ReleasedRun.SomeRunIsReleased`); the registry's own cast, derive and export keep the height of their input, so this
  takes another operation registered under one of their names. What does hold is that no released run lost a row in
  such a step (`Lifecycle.ReleasedRunsKeepRows`).
* `release` is documented to recompute the same verdict on a run that has ended. It judges such a run again exactly if
  every step's file is stored, which is exactly if a release ended it (`Rejudged.JudgedAgainIff`). The decision then
  always is QUARANTINE, because the run is no longer VERIFYING: it repeats the first decision exactly if that was
  QUARANTINE (`Rejudged.RepeatsIffQuarantined`), and on a RELEASED run it never does (`Rejudged.SomeVerdictIsReversed`
  is such a run). On a run that `run` itself quarantined, the failed step has no artifact file, and raising an untyped
  error is the one thing `release` can do (`Lifecycle.ReleaseOfStoppedRun`; `QuarantinedRun.SomeRunIsNeverJudged` is
  such a run).
* A text-clean rule id is split at the first dot, so a data set whose name contains a dot is not the one that is
  cleaned (`CleaningValidity.RuleIdReadBackIff`).
* Two nodes whose ids agree up to ':' and '_' share an artifact file, so a step can overwrite a locked source
  (`Collisions.StepOverwritesSource`), and unless it happens to return the locked frame no VERIFYING run still holds
  that frame (`Overwriting.LockedFrameIsLost`). The results about runs exclude exactly this.
* A declared side effect was to make the risk MEDIUM; since it is asked for itself, the risk is HIGH, and never MEDIUM
  (`PolicyGate.RiskIs`).
* Pivoting an unpivoted frame restores its columns exactly when it has a row (`Reshape.RoundTripColumnsIff`).

Run `dafny verify dfyconfig.toml` to check the project.

## Model

| member | source | states |
|---|---|---|
| Graph.KahnFailsIffCyclic | src/dataos/workflow/dsl.py:96-115 | the sort raises exactly when the dependency graph has a cycle, and the ids it then reports contain one and all depend on reported ids |
| Graph.KahnIffCanonical | src/dataos/workflow/dsl.py:96-115 | an order is returned exactly when it lists every id once by (longest dependency path, id): it is canonical |
| Graph.CanonicalRespectsDependencies | src/dataos/workflow/dsl.py:96-115 | in that order every dependency stands strictly before its dependant |
| Dsl.TopologicalOrder | src/dataos/workflow/dsl.py:96-115 | the while loop over rounds of ready ids terminates, for repeated ids too, and computes the order (or the unsorted rest) that the lemmas above are about |
| Dsl.ValidateDagIff | src/dataos/workflow/dsl.py:66-89 | validation raises nothing exactly for unique ids, known references and no cycle, and its error code tells which failed |
| Dsl.RepeatedIdsAreNamed | src/dataos/workflow/dsl.py:66-89 | with repeated ids the error names exactly these |
| Dsl.UnknownInputsAreNamed | src/dataos/workflow/dsl.py:66-89 | with unknown inputs it names the first step in list order that has any, and then exactly them |
| Dsl.OrderIsTopological | src/dataos/workflow/dsl.py:91-115 | for unique ids the execution order is a permutation of the step ids in which each step follows the steps it reads |
| Dsl.OrderIgnoresPosition | src/dataos/workflow/dsl.py:96-115 | the order depends only on the set of (id, inputs): not on the position of steps in the list or anything else about them |
| Dsl.StepByIdFinds | src/dataos/workflow/dsl.py:60-64 | with unique ids a lookup by id returns that step |
| Denotation.MeaningIsUnique | src/dataos/workflow/orchestrator.py:844-931 | a valid workflow has exactly one assignment of values to nodes that is consistent with its operations, and evaluating in execution order finds it |
| Guarantees.CrashesDoNotShow | src/dataos/workflow/orchestrator.py:836-933 | after any calls and crashes, one more uninterrupted call leaves exactly the stores of a single run that never crashed; they say VERIFYING if and only if every step has a value |
| Guarantees.FinishedRunIsExact | src/dataos/workflow/orchestrator.py:836-933 | a run that reached VERIFYING or QUARANTINED, however often it crashed, has exactly the records, files and state of the uninterrupted run |
| Guarantees.VerifyingHoldsMeaning | src/dataos/workflow/orchestrator.py:836-933 | in a VERIFYING run every node is COMPLETED and its file holds the value the workflow denotes over the locked sources |
| Guarantees.FailingStepNeverVerifies | src/dataos/workflow/orchestrator.py:886-901 | if a step has no value, no sequence of calls and crashes reaches VERIFYING |
| Guarantees.CompletedStepsArePrefix | src/dataos/workflow/orchestrator.py:844-931 | in every reachable state the COMPLETED steps are a prefix of the execution order and at most one further step has a record |
| Guarantees.FinishedIsForever | src/dataos/workflow/orchestrator.py:844-847 | once COMPLETED, a node's record and file never change again and its operation is never executed again |
| Guarantees.EvidenceIsGenuine | src/dataos/workflow/orchestrator.py:918-931 | the evidence of a COMPLETED step is what its operation returned for some inputs |
| GivenInputs.ExecutesOnStored | src/dataos/workflow/orchestrator.py:850-916 | in every trace an operation about to execute takes as many inputs as its step has and is given exactly their stored frames, in order, each defused if and only if the step is an export on one input; no export to a blocked destination is ever about to execute |
| GivenInputs.VerifyingIsComputed | src/dataos/workflow/orchestrator.py:850-931 | in a VERIFYING run the file and the evidence of every step are what its operation returned on the very files its inputs now have, defused if it is an export |
| GivenInputs.BlockedExportNeverRuns | src/dataos/workflow/orchestrator.py:877-892 | an export to a blocked destination is never executed by any calls and crashes, at most a FAILED record with POLICY_DENIED and no artifact is left of it, and the run never is VERIFYING |
| GivenInputs.BlockedExportQuarantines | src/dataos/workflow/orchestrator.py:877-892 | and when every step before it has a value, a call that is not cut short leaves exactly that record and quarantines the run |
| GivenInputs.RecordsAre | src/dataos/workflow/orchestrator.py:894-931 | whatever is on record about a step is one of three records, field by field: started, failed with its operation for a reason there is, or completed with its operation, its artifact and what the operation reported |
| GivenInputs.SourcesStayOnRecord | src/dataos/workflow/orchestrator.py:680-709 | every source is on record as COMPLETED with the version locked for it, from the start and in every state |
| GivenInputs.QuarantinedHasFailure | src/dataos/workflow/orchestrator.py:896-916 | a run is quarantined only for a step whose failure is on record; an error that is not typed leaves it RUNNING |
| Collisions.SaveKeepsIff | src/dataos/workflow/artifact_store.py:27-33 | saving one node leaves another's artifact alone exactly when their ids differ in more than ':' against '_' |
| Collisions.StepOverwritesSource | src/dataos/workflow/artifact_store.py:27-33 | whenever a step shares its file with a source it reads, some validated workflow runs to VERIFYING having overwritten the locked source |
| Collisions.SourceOrdersCollides | src/dataos/workflow/artifact_store.py:27-33 | the step id `source_orders` beside the source `orders` is such a pair |
| Overwriting.StepFilesAreOutputs | src/dataos/workflow/artifact_store.py:27-33 | whatever nodes of a valid workflow share files, and whatever crashed, in a VERIFYING run the file of every step is an output of a step with that file |
| Overwriting.LockedFrameIsLost | src/dataos/workflow/artifact_store.py:27-33 | so when a step of a valid workflow shares its file with a source, and no step with that file can return the locked frame, no VERIFYING run still holds it |
| Store.RunStore.CreateRun | src/dataos/workflow/store.py:97-113 | inserts the row of a new run and refuses a taken id |
| Store.RunStore.UpdateRunState | src/dataos/workflow/store.py:133-144 | moves exactly one run along a legal edge, keeping the rest of its row; raises and changes nothing otherwise |
| Store.RunStore.UpsertStepRun | src/dataos/workflow/store.py:146-172 | writes one row of one run; the rows of every other run stay |
| Store.RunStore.ListStepRuns | src/dataos/workflow/store.py:195-214 | lists each record of the run exactly once and no other |
| Store.ArtifactStore.Save | src/dataos/workflow/artifact_store.py:27-43 | writes one file of one run and names it by run and node; files of other runs stay |
| Store.ArtifactStore.LoadByIds | src/dataos/workflow/artifact_store.py:52-58 | reads back the last frame saved under the node's path, or raises |
| CellOrder.CellLessIff | src/dataos/registry/operations/deduplicate.py:56-58 | cells sort nulls first, then numbers by size, then texts by their first different character |
| Orchestrator.WorkflowOrchestrator.StartRun | src/dataos/workflow/orchestrator.py:603-709 | succeeds exactly for a valid workflow with all sources supplied and undrifted, every operation on the approval list that a step performs, every gate, approval and side effect granted, and no prohibited action among them; then the run is RUNNING with every version locked and every source seeded, and on failure the stores are untouched and the code names the first failed check |
| Orchestrator.WorkflowOrchestrator.FailStepAndQuarantine | src/dataos/workflow/orchestrator.py:1187-1209 | records the failure first and quarantines second, so a crash in between leaves a RUNNING run with a FAILED step |
| Orchestrator.WorkflowOrchestrator.Commit | src/dataos/workflow/orchestrator.py:918-931 | saves the artifact before the COMPLETED record, so a crash in between leaves the step unfinished |
| Orchestrator.WorkflowOrchestrator.VisitStep | src/dataos/workflow/orchestrator.py:844-931 | one turn of the loop by a process with a given number of writes to go leaves exactly the stores, the place in the protocol and the writes to go that the protocol prescribes; it reports a crash only where the next write is one too many; what the protocol gives an operation is GivenInputs.ExecutesOnStored |
| Orchestrator.WorkflowOrchestrator.Run | src/dataos/workflow/orchestrator.py:836-933 | unknown runs raise, runs that are not RUNNING are returned unchanged, and on a RUNNING run the stores left and the result are exactly those of a process that lives through the given number of durable writes of the protocol; all other runs stay as they are |
| Orchestrator.AmpleWritesEnd | src/dataos/workflow/orchestrator.py:844-933 | a call never needs more than three writes a step and one for the run's state: a process that lives through them sees the call end |
| Budget.OnlyWritesChange | src/dataos/workflow/orchestrator.py:844-933 | a step of a call that is not one of its durable writes changes nothing that is durable |
| Budget.MoreWritesGoOn | src/dataos/workflow/orchestrator.py:844-933 | living through some writes and then more is living through all of them: a later crash point extends an earlier one |
| Orchestrator.FollowsIsComplete | src/dataos/workflow/orchestrator.py:836-933 | a call that was not cut short leaves exactly what the protocol's whole call leaves |
| Orchestrator.WorkflowOrchestrator.ReleaseRun | src/dataos/workflow/orchestrator.py:935-999 | changes at most the run's state, to where the assessment takes it: terminal runs stay, illegal edges raise, and it raises an untyped error exactly when a needed artifact is missing |
| Orchestrator.WorkflowOrchestrator.LoadArtifacts | src/dataos/workflow/orchestrator.py:589-601 | loads the stored frame of every node asked for, in whatever order, or raises when one is missing |
| Cleaning.ApplyCleaningRules | src/dataos/workflow/orchestrator.py:359-459 | the loop over approved rules, growing steps and redirecting sources, returns the rewritten workflow, the original one when nothing was approved, or the first error; ApprovedCleaning.AppliedStepByStep says which workflow that is |
| Cleaning.RewritePreservesMeaning | src/dataos/workflow/orchestrator.py:398-459 | in the returned workflow every original step is worth what it was worth in the old one with each source replaced by what the added steps make of it, in approval order; ApprovedCleaning.ApprovedRulesClean says what that is |
| ApprovedCleaning.AppliedStepByStep | src/dataos/workflow/orchestrator.py:388-459 | from the approved ids and the returned workflow alone: one step for each approved rule in approval order, then the original steps; a text rule adds a text_clean of its one column, trim then lower, collapse allowed; a dedup rule a deduplicate on exactly the columns of the profile that keeps the first row; each step reads the last cleaned form of its source, and nothing else has changed |
| ApprovedCleaning.ApprovedRulesClean | src/dataos/workflow/orchestrator.py:359-459 | on any engine that runs text_clean and deduplicate as modelled here, every original step of the returned workflow is worth what it was worth in the old one on sources whose column is trimmed and lower-cased cell by cell, all else as it was, or of which the first row of each group that agrees on all columns of the profile is kept, rule by rule in approval order |
| ApprovedCleaning.SomeEngineCleans | src/dataos/registry/base.py:74-98 | there is such an engine, whatever trimming and lower-casing do |
| CleaningValidity.RewriteValidIff | src/dataos/workflow/orchestrator.py:401-459 | the rewritten workflow validates exactly when the rules are over declared sources and the generated ids are new and pairwise distinct |
| CleaningValidity.NoStepReadsCleanedSource | src/dataos/workflow/orchestrator.py:449-456 | no original step still reads a source that a rule cleans |
| CleaningValidity.RuleIdReadBackIff | src/dataos/workflow/orchestrator.py:403-407 | a proposed text-clean rule id is read back as its data set and column exactly when the data set's name has no dot |
| Join.CheckPreconditions | src/dataos/registry/operations/join.py:55-79 | collects the violations, in the source's order, whose absence Join.PreconditionsIff characterises |
| Join.PreconditionsIff | src/dataos/registry/operations/join.py:55-79 | no violation exactly when all keys exist with pairwise equal dtypes and a many-to-many join is opted into |
| Join.ViolationsAre | src/dataos/registry/operations/join.py:55-79 | every violation reported is one, missing keys, a pair of keys of different dtypes, or the missing opt-in, and every one there is is reported |
| Join.ExecutesIff | src/dataos/registry/operations/join.py:55-140 | the join runs exactly when the preconditions hold and every side declared unique is unique on its keys |
| Join.NoGroupsIffUnique | src/dataos/registry/operations/join.py:124-140 | the group-by duplicate check finds nothing exactly when no two rows share a key, nulls counted as equal |
| Join.InnerJoinPairs | src/dataos/registry/operations/join.py:81-90 | the inner join holds exactly the pairs of rows whose keys are equal and not null |
| Join.JoinedRowsAre | src/dataos/registry/operations/join.py:81-90 | for each of the four joins every row comes out exactly as often as it should: a pair that agrees on all key columns, none null, once for each occurrence of its two rows; a row nothing matches, if the join keeps its side, once for each of its own and with nothing on the other side; no other row at all |
| Join.JoinedMembers | src/dataos/registry/operations/join.py:81-90 | so exactly these rows are in the result |
| Join.PairsEitherWay | src/dataos/registry/operations/join.py:81-112 | the matched pairs are the same multiset whichever side they are enumerated from |
| Join.JoinAccounting | src/dataos/registry/operations/join.py:81-112 | rows out are the matched pairs plus the unmatched rows of the sides the join keeps, and the reported rates lie between 0 and 1 |
| Join.EvidenceCounts | src/dataos/registry/operations/join.py:81-112 | the evidence counts the matched pairs and the rows of each side that nothing matches, with multiplicity, and the rates and the multiplication factor are those of these counts |
| Join.CardinalityBoundsOutput | src/dataos/registry/operations/join.py:114-122 | once the uniqueness check has passed, a many-to-one left join has exactly the left rows and a one-to-many inner join at most the right rows |
| Profiling.ProfileDataset | src/dataos/ingestion/profiling.py:60-114 | the loop over columns builds the profile whose facts the join review relies on |
| Profiling.CandidateKeyIff | src/dataos/ingestion/profiling.py:69-72 | a column is reported as a candidate key exactly when it is non-empty and has neither a null nor a repetition |
| Profiling.CandidateKeysAre | src/dataos/ingestion/profiling.py:99-100 | the candidate keys of a profile are the names of exactly the columns that are, each once |
| Profiling.ColumnCountsAre | src/dataos/ingestion/profiling.py:64-86 | nulls, null rate, different values with all nulls as one, and different values after trimming and lower-casing, the last exactly for text columns with a value |
| Profiling.FrameCountsAre | src/dataos/ingestion/profiling.py:102-114 | rows, columns in their order, and the rows beyond the first of each kind |
| Profiling.RangeIsTight | src/dataos/ingestion/profiling.py:52-78 | a numeric or temporal column with a value reports a least and a greatest of its values, between which all of them lie; any other column reports none |
| JoinReview.Review | src/dataos/compiler/join_safety_reviewer.py:104-330 | the branches and loops collect the issues, the decision they imply (JoinReview.ApprovedIff) and, once the keys are resolved, the proposed contract with its checks |
| JoinReview.ApprovedContractRuns | src/dataos/compiler/join_safety_reviewer.py:299-309 | an approved review proposes a contract with the true row counts; the join it describes runs, and keeps exactly the unmatched rows that the contract's policy says it keeps |
| JoinReview.ApprovedIff | src/dataos/compiler/join_safety_reviewer.py:104-375 | APPROVE exactly when nothing in any group of issues blocks or asks for clarification |
| JoinReview.DecisionIs | src/dataos/compiler/join_safety_reviewer.py:104-298 | REJECT exactly for unresolved keys, keys alike in name alone, dtypes that differ, an unapproved many-to-many, or keys that repeat where they must not; else CLARIFY exactly for several candidates, an undeclared cardinality or uniqueness that nothing shows; else APPROVE |
| JoinReview.WarnsOfMatchRateIff | src/dataos/compiler/join_safety_reviewer.py:238-290 | with resolved keys and both frames, exactly a match rate below the threshold is warned of |
| JoinReview.WarnsOfAmplificationIff | src/dataos/compiler/join_safety_reviewer.py:238-290 | and exactly more rows out than the factor allows |
| JoinReview.PostchecksAre | src/dataos/compiler/join_safety_reviewer.py:238-309 | the checks a proposed contract asks for afterwards, with the rate and the factor seen beside the thresholds |
| JoinReview.ApprovalImpliesExecution | src/dataos/compiler/join_safety_reviewer.py:163-298 | approved with true profiles, with the real frames or with none, the join runs: no precondition violation and no duplicate-key block |
| JoinReview.ApprovalIffExecution | src/dataos/compiler/join_safety_reviewer.py:163-375 | with both frames at hand and nothing left to clarify, approval and execution success coincide |
| Aggregate.Run | src/dataos/registry/operations/aggregate.py:69-148 | the loop over metrics stops at the first sum on which the two engines disagree, and otherwise returns the grouped frame with its evidence |
| Aggregate.CompletesIff | src/dataos/registry/operations/aggregate.py:61-148 | an aggregate completes exactly when its columns exist, both engines agree within the tolerance on every sum, and the first sum meets the control total, if one is given |
| Aggregate.OneRowPerGroup | src/dataos/registry/operations/aggregate.py:74-81 | the result has one row for each group of rows that agree on the grouping columns, with these columns and each metric over exactly the cells of the group |
| Aggregate.TotalRowIs | src/dataos/registry/operations/aggregate.py:74-81 | without grouping there is one row, of each metric over the whole column |
| Aggregate.EvaluateIs | src/dataos/registry/operations/aggregate.py:28-35 | what each metric is: the mean times the number of values is their sum, the count leaves out nulls, least and greatest are values of the cells that bound them all, and n_unique counts null as a value |
| Aggregate.SumIsTotal | src/dataos/registry/operations/aggregate.py:28-35 | a sum adds up its numbers and passes over nulls |
| Aggregate.EvidenceReports | src/dataos/registry/operations/aggregate.py:83-148 | the evidence reports grouping, groups, rows, one entry for each sum with what both engines found, and one for the control total |
| Aggregate.GroupedSumsAddUp | src/dataos/registry/operations/aggregate.py:72-76 | for every frame and grouping, nulls included, the grouped sums add up to the total of the column |
| Aggregate.CompletedEvidencePasses | src/dataos/registry/operations/aggregate.py:78-148 | whatever the second engine computes, a completed aggregate reports no failed reconciliation |
| Aggregate.ExactEnginesAgree | src/dataos/registry/operations/aggregate.py:78-107 | when both engines compute the mathematical sum the dual check fails exactly for a sum under a negative tolerance |
| Aggregate.TotalIgnoresOrder | src/dataos/registry/operations/aggregate.py:72-76 | a column total does not depend on the order in which rows come out |
| Reconciliation.Reconcile | src/dataos/compiler/reconciliation_agent.py:87-155 | the loops over steps and metrics fill the tests and blocking reasons; FAIL on any failed test, else UNAVAILABLE on any blocking reason, else PASS |
| Reconciliation.SubtotalsReconcile | src/dataos/compiler/reconciliation_agent.py:178-208 | on a completed aggregate with a grouped sum the independent subtotal test finds difference zero, whatever the row order |
| Reconciliation.FailsIffRowsLostOrSumsDiffer | src/dataos/compiler/reconciliation_agent.py:87-208 | for every contract, workflow and artifacts the agent reports FAIL exactly when some cast, derive or export lost rows, or the subtotals stored by the last step naming some sum metric, a grouped aggregate, differ by more than 0.01 from the total of the column they came from |
| Reconciliation.PassesIff | src/dataos/compiler/reconciliation_agent.py:87-208 | it reports PASS exactly when no such step lost rows and every sum metric last named by an aggregate is grouped there, with both frames and columns at hand and subtotals that add up |
| Reconciliation.BlockedBecause | src/dataos/compiler/reconciliation_agent.py:104-128 | a sum metric blocks for want of an anchor exactly when the aggregate that names it last is not grouped, and for want of data exactly when a frame or a column is not at hand |
| Reconciliation.BlocksAre | src/dataos/compiler/reconciliation_agent.py:104-128 | the report lists exactly these reasons |
| Reconciliation.PassesThoughChangedIffRowsAdded | src/dataos/compiler/reconciliation_agent.py:157-176 | for any frames a row-count test passes although the counts differ exactly when rows were added, unlike documented |
| Reconciliation.AddedRowsNeverFail | src/dataos/compiler/reconciliation_agent.py:87-176 | however many rows the row-conserving steps add, the report fails only for its sums |
| RunReconciliation.FinishedSubtotalsReconcile | src/dataos/compiler/reconciliation_agent.py:178-208 | on every run that reached VERIFYING, however often it crashed, the subtotal test of a grouped sum finds difference zero on the stored artifacts |
| Deduplicate.KeepsOneLeaderPerKey | src/dataos/registry/operations/deduplicate.py:49-76 | the output is an order-preserving subsequence with pairwise distinct keys and the same key set, each row first, last or extremal in its group |
| Deduplicate.RowsAccountedFor | src/dataos/registry/operations/deduplicate.py:63-76 | rows in are rows out plus the removed rows reported |
| Deduplicate.ReportsRepeatedKeys | src/dataos/registry/operations/deduplicate.py:52-54 | the groups reported are the keys that two rows have |
| Deduplicate.LegalOrderExists | src/dataos/registry/operations/deduplicate.py:56-58 | every frame has an order in which it can be processed, whatever the ordering column |
| Deduplicate.UniqueIsUnchanged | src/dataos/registry/operations/deduplicate.py:49-76 | a frame already unique on the keys comes back as it is |
| Deduplicate.DeduplicatedStaysUnique | src/dataos/registry/operations/deduplicate.py:49-76 | deduplicating twice is deduplicating once, and the join's duplicate check passes on those keys |
| Reshape.RoundTripBlocksIff | src/dataos/registry/operations/pivot.py:63-78 | pivoting an unpivoted frame without an aggregate blocks exactly when the index does not identify the rows |
| Reshape.RoundTripRows | src/dataos/registry/operations/pivot.py:63-95 | otherwise it returns the original rows, in order |
| Reshape.RoundTripColumnsIff | src/dataos/registry/operations/unpivot.py:45-57 | and the original columns up to order, exactly when the frame has a row |
| Reshape.PivotsIff | src/dataos/registry/operations/pivot.py:53-78 | a pivot completes exactly when all its columns exist and, without an aggregate, no two rows share index and name |
| Reshape.PivotIs | src/dataos/registry/operations/pivot.py:80-95 | then, with an aggregate or without, it has one row for each group of rows that agree on the index, and under each new name what becomes of exactly the cells that stand for it: null of none, the aggregate of some, the only one without |
| Reshape.UnpivotsIff | src/dataos/registry/operations/unpivot.py:30-44 | an unpivot completes exactly when all its columns exist and neither new name is taken |
| Reshape.LongRowAt | src/dataos/registry/operations/unpivot.py:45-57 | its rows are, for each value column in turn, each row in turn, with index cells, the name of the column and the cell under it |
| TextClean.Normalize | src/dataos/registry/operations/text_clean.py:104-146 | the loop folds column after column, refuses the first unopted collapse, and reports for each spec the distinct counts of its column just before and after it, never fewer without opt-in |
| TextClean.GuardFiresIff | src/dataos/registry/operations/text_clean.py:109-142 | the guard refuses a spec exactly when two different values of its column fold together without opt-in; otherwise only that column changes, cell by cell |
| TextClean.CountDropsIffCollides | src/dataos/registry/operations/text_clean.py:118-130 | a distinct count drops under a fold exactly when two different values fold together |
| TextClean.ProfileDropsIffGuardFires | src/dataos/ingestion/profiling.py:80-86 | the profile's trim-and-lower count drops in exactly the case in which the guard fires for that fold |
| TextClean.TrimLowerIsIdempotent | src/dataos/registry/operations/text_clean.py:113-118 | trimming and lower-casing twice is doing it once, from facts about the single steps: trimming strips white space from the ends, lower-casing is idempotent and puts no white space there |
| TextClean.AsciiIsPlain | src/dataos/registry/operations/text_clean.py:113-118 | stripping and lower-casing of ASCII letters are such steps |
| TextClean.CleanCountsPrediction | src/dataos/ingestion/profiling.py:80-86 | whatever the steps do, after the approved clean a fresh profile counts what the old one predicted |
| TextClean.ReprofileAfterClean | src/dataos/compiler/data_quality_assessor.py:157-188 | after the approved clean a fresh profile counts what the old one predicted, its two counts are equal, and no variants are reported |
| TextClean.IdempotentFoldLeavesNoVariants | src/dataos/compiler/data_quality_assessor.py:157-188 | for an idempotent fold no variants remain after the clean |
| Contract.RequirementContract.constructor | src/dataos/contracts/requirement_contract.py:136-168 | constructing a contract validates it, whatever flags were passed in |
| Contract.RequirementContract.EnforceNoGuessing | src/dataos/contracts/requirement_contract.py:136-168 | afterwards a contract with an undefined metric, an open question or no source is blocked, and it is ready exactly when approved |
| Contract.ReasonsIffBlocked | src/dataos/contracts/requirement_contract.py:170-180 | a contract is blocked exactly when it can say why |
| Contract.ReasonsAre | src/dataos/contracts/requirement_contract.py:170-180 | the reasons are exactly the metrics whose definition is ambiguous or missing, the open questions, and a missing source |
| Contract.IsSumFormulaIff | src/dataos/compiler/validation_rule_generator.py:141-143 | a formula counts as a sum exactly if "sum(" in letters of any case stands in it after white space only |
| PolicyGate.Evaluate | src/dataos/compiler/policy_gate.py:56-118 | the loops compute the required approvals and blockers, sorted, the risk and the verdict that the four lemmas below characterise name by name |
| PolicyGate.ProceedsIff | src/dataos/compiler/policy_gate.py:69-112 | the gate lets a workflow pass exactly when every step's operation on the approval list, every gate of the workflow and every approval and side effect of the contract is granted, and no prohibited action is an operation of a step, a gate, an approval or a side effect |
| PolicyGate.ListsWhatItAsks | src/dataos/compiler/policy_gate.py:87-98 | the approvals listed are exactly the names it asks for, once each and sorted |
| PolicyGate.BlocksFor | src/dataos/compiler/policy_gate.py:69-103 | its blockers are exactly the forbidden names and the names asked for but not granted |
| PolicyGate.RiskIs | src/dataos/compiler/policy_gate.py:105-112 | CRITICAL exactly with a forbidden name, else HIGH exactly with a name asked for, else LOW; MEDIUM, meant for side effects, is never reached, because a side effect is asked for itself |
| PolicyGate.MoreGrantsNeverBlock | src/dataos/compiler/policy_gate.py:69-112 | more grants never block what passed, and no grant lifts a prohibition |
| Validation.Generate | src/dataos/compiler/validation_rule_generator.py:87-264 | the five builders emit the manifest, whose rules CheckedRules.ManifestIff lists, in order, the null rules of a step in the order its dictionary is iterated, which is any order that visits each key once |
| CheckedRules.ManifestIff | src/dataos/compiler/validation_rule_generator.py:87-264 | the manifest consists of exactly these rules, field by field: a null check with rate zero for each column the contract wants an error for, a recomputation of each sum metric on the single input of the last step naming it with its column and tolerance, a rule for each join, required columns, exactly the unique keys, each null rate, and the acceptance tests |
| CheckedRules.ContractColumnsChecked | src/dataos/compiler/validation_rule_generator.py:120-137 | nulls are checked at the contract stage for exactly the columns whose policy is "error", and none is tolerated |
| Validation.DecimalIsWorth | src/dataos/compiler/validation_rule_generator.py:252-264 | acceptance tests are numbered in decimal, so no two share an id |
| Validation.CommaSeparatedIs | src/dataos/compiler/validation_rule_generator.py:222-226 | the keys in the id of a uniqueness rule stand one after the other with a comma between |
| Validation.ManifestIsStrict | src/dataos/compiler/validation_rule_generator.py:120-264 | every rule it emits is BLOCKING and one the executor supports |
| Validation.ReconciliationReadsInput | src/dataos/compiler/validation_rule_generator.py:139-181 | the recomputation of a sum metric reads the single input of a step that covers the metric, never the release candidate |
| Validation.NullRulesAreThePolicy | src/dataos/compiler/validation_rule_generator.py:237-250 | a step's null rules are one for each column of its null policy and no other |
| Validation.DeclaredNullRatesAreChecked | src/dataos/compiler/validation_rule_generator.py:209-250 | every null rate a step declares has its rule in the manifest, a check on that step's own frame |
| Validation.Execute | src/dataos/validation/executor.py:45-91 | one result per rule in order, its severity carried through; it raises exactly when some rule is unsupported, and a missing frame or a raising check fails the rule |
| Validation.ResultsAre | src/dataos/validation/executor.py:45-91 | a rule passes exactly if it has no check function or the function held on the frame its stage means; a missing frame and a raising check fail |
| Validation.LoadStages | src/dataos/workflow/orchestrator.py:558-578 | each check gets the frame of its own node, or of the last step when its stage is no node, and a read raises exactly when such a file is missing |
| Validation.Validate | src/dataos/workflow/orchestrator.py:536-580 | on generated rules the stage never raises for an unsupported rule and judges every rule on the run's own files |
| Validation.PassedIffAllPassed | src/dataos/validation/engine.py:24-35 | a report on generated rules passes exactly when every single check passed |
| Validation.PassedRulesHold | src/dataos/validation/executor.py:45-91 | when every result passed, every rule with a check function was run on the frame of its stage, and held |
| Verifier.Verify | src/dataos/compiler/independent_verifier.py:65-162 | the loops collect the defects, the coverage of each metric and the unverified claims that decide the verdict |
| Verifier.PassIff | src/dataos/compiler/independent_verifier.py:81-154 | PASS exactly when sources are locked, every step completed with evidence, every metric is named by a step, no acceptance test was dropped, nothing prohibited was used, nothing is open, no reconciliation failed and every sum is reconciled; the order of the records does not matter |
| Verifier.DefectsAre | src/dataos/compiler/independent_verifier.py:78-154 | the defects reported are exactly those there are, of each of the nine kinds |
| Verifier.CoverageIs | src/dataos/compiler/independent_verifier.py:106-119 | each metric is reported once and in order, covered exactly when some completed step names it, with exactly these steps as evidence |
| Verifier.VerdictIgnoresOrder | src/dataos/compiler/independent_verifier.py:81-162 | in whatever order the records are listed, the verdict, the coverage and the unverified claims are the same |
| RunEvidence.ReconciliationNeverFails | src/dataos/compiler/independent_verifier.py:126-136 | on a run driven only by start and run calls, with any crashes, the verifier's reconciliation branch never adds a defect |
| RunEvidence.VerdictOfFinishedRun | src/dataos/compiler/independent_verifier.py:65-154 | a run that reached VERIFYING fails verification only for a mismatch of contract and plan or for a sum no aggregate reconciled |
| Release.Decide | src/dataos/compiler/release_gate.py:56-101 | RELEASE exactly when all conditions hold; otherwise the reasons are exactly the failed conditions and the remediation lists what each needs |
| Release.RemediationIs | src/dataos/compiler/release_gate.py:82-98 | what a quarantined case asks for is exactly every defect, every failed blocking check, and, if reconciliation did not pass, every failed test and blocking reason |
| Release.ScoresAreBounded | src/dataos/compiler/confidence_scorer.py:146-193 | all seven scores always lie between 0 and 1 |
| Release.ShareIsOneIff | src/dataos/compiler/confidence_scorer.py:162-193 | a score that is a share is one exactly when nothing falls short |
| Release.RequirementsScoreIs | src/dataos/compiler/confidence_scorer.py:146-152 | nothing with an open question or without a source, else the share of metrics that are neither ambiguous nor missing |
| Release.SemanticsScoreIs | src/dataos/compiler/confidence_scorer.py:51-57 | the average of 1 for a governed, 0.85 for an explicit, 0.7 for an inferred and 0 for any other metric |
| Release.DataQualityScoreIs | src/dataos/compiler/confidence_scorer.py:162-166 | the share of passed results among the null, uniqueness and required-column checks |
| Release.ValidationScoreIs | src/dataos/compiler/confidence_scorer.py:168-171 | the share of passed results |
| Release.ExecutionScoreIs | src/dataos/compiler/confidence_scorer.py:173-177 | the share of steps with a COMPLETED record |
| Release.ReconciliationScoreIs | src/dataos/compiler/confidence_scorer.py:179-184 | passed tests out of all tests and blocking reasons |
| Release.VerificationScoreIs | src/dataos/compiler/confidence_scorer.py:186-193 | nothing with a defect, else the share of metrics covered |
| Assessment.ReleaseImplies | src/dataos/compiler/release_gate.py:68-98 | whenever a run is decided RELEASE it is VERIFYING, the contract approved and the plan satisfied; every check was run on its frame and held, every sum adds up, and no cast, derive or export lost a row |
| Assessment.ReleaseHasFullScores | src/dataos/compiler/confidence_scorer.py:146-193 | if its contract was validated besides, six scores are exactly one and the semantics score is at least 0.7 |
| Assessment.ReadableIffStored | src/dataos/workflow/orchestrator.py:536-601 | whatever the contract asks to be checked, an assessment raises no missing file exactly if every node that some step reads or writes has its file |
| Incident.RetryIsTheFrontier | src/dataos/compiler/incident_recovery_agent.py:136-172 | RETRY is proposed exactly when a step is stalled and it has failed fewer than three times; the run is then RUNNING, the step is the first unfinished one in execution order and the only unfinished record, and the next call executes it first |
| Incident.FailuresAreNeverRetried | src/dataos/compiler/incident_recovery_agent.py:126-220 | nothing is retried while a step is on record as failed, compensation is proposed exactly for an unverified external write under a real policy, and the third failure escalates |
| Incident.DiagnosisIs | src/dataos/compiler/incident_recovery_agent.py:126-220 | the whole table from the code of the first failure to class and action, the default rollback text and the third failure included; with neither a failure nor a stalled step, STOP |
| Incident.StalledIsRetried | src/dataos/compiler/incident_recovery_agent.py:136-172 | with no failure on record the first stalled step is retried until it has failed three times |
| StateMachine.ReleasedOnlyInOrder | src/dataos/workflow/state_machine.py:36-59 | along legal edges a drafted run is RELEASED only after APPROVED, RUNNING and VERIFYING in this order |
| StateMachine.TerminalIsFinal | src/dataos/workflow/state_machine.py:36-59 | QUARANTINED and ROLLED_BACK are never left, and RELEASED only for ROLLED_BACK |
| StateMachine.EdgesAre | src/dataos/workflow/state_machine.py:24-59 | the nine legal edges, and that any other change is refused as invalid |
| Lifecycle.RunExtendsTrace | src/dataos/workflow/orchestrator.py:836-933 | however a call of the imperative `Run` ended, it extends the run's trace, so every result about traces holds of the stores |
| Lifecycle.ReturnedVerifying | src/dataos/workflow/orchestrator.py:836-933 | when `Run` finally returns VERIFYING, the stores are those of one uninterrupted run and every file holds its node's value |
| Lifecycle.AmpleCallFinishes | src/dataos/workflow/orchestrator.py:836-933 | after any calls and crashes, one more call of `Run` by a process that lives through three writes a step and one more ends, leaves the stores of one run that never crashed, and returns VERIFYING if and only if every step has a value |
| Lifecycle.ReadableIffVerifying | src/dataos/workflow/orchestrator.py:935-999 | once `run` has ended a run, and before any release has, `release` can read what it needs exactly if the run is VERIFYING |
| Lifecycle.ReleaseOfStoppedRun | src/dataos/workflow/orchestrator.py:935-999 | on a run that `run` quarantined, raising the untyped error and changing nothing is exactly what `release` does |
| QuarantinedRun.SomeRunIsNeverJudged | src/dataos/workflow/orchestrator.py:582-601 | for any source, step and typed error there is such a run: it ends QUARANTINED and `release` returns no verdict on it, whatever it is asked to judge by |
| Lifecycle.DecisionOfFinishedRun | src/dataos/compiler/release_gate.py:56-101 | on a VERIFYING run RELEASE depends exactly on the contract, its agreement with the plan, the data checks and the recomputation |
| Lifecycle.ReleasedRunsAreSound | src/dataos/workflow/orchestrator.py:603-999 | over whole lives, on whatever contracts the run was submitted: in a RELEASED run every operation on the approval list that a step performs, every gate, approval and side effect had been granted and no prohibited action was among them; it went through APPROVED, RUNNING and VERIFYING, has the stores of a run that never crashed, was decided RELEASE on one approved contract whose plan, checks and sums hold of these stores, with full scores if it was validated, and every artifact is the value the workflow denotes |
| Lifecycle.ReleasedRunsKeepRows | src/dataos/compiler/reconciliation_agent.py:157-176 | no RELEASED run lost a row in a cast, derive or export |
| Lifecycle.ReleasedRunsMeetNullRates | src/dataos/compiler/validation_rule_generator.py:209-250 | in a RELEASED run every null rate that some step declares was checked on that step's own stored frame, and held |
| ReleasedChecks.ReleasedRunsMeetContract | src/dataos/compiler/validation_rule_generator.py:120-181 | every RELEASED run was released on one approved contract, and each column it wants an error for was found without a null in the stored frame of the last step (of the step "contract", if one is called so), and each sum metric was recomputed on the stored input of the last step naming it within its tolerance |
| ReleasedChecks.ReleasedRunsAreUnique | src/dataos/compiler/validation_rule_generator.py:220-235 | in a RELEASED run the rows of every schema step were found unique on exactly the keys it asks for |
| Lifecycle.EndedForever | src/dataos/workflow/orchestrator.py:979-990 | a released or quarantined run is never changed again by any call of run or release |
| Rejudged.EndedIsRejudged | src/dataos/workflow/orchestrator.py:947-990 | on any stores that say RELEASED, QUARANTINED or ROLLED_BACK a release changes nothing, returns an assessment exactly if every artifact it reads is stored, and then decides QUARANTINE |
| Rejudged.FirstReleaseDecides | src/dataos/workflow/orchestrator.py:979-999 | the first release of a RUNNING or VERIFYING run that can be read moves it to RELEASED exactly on RELEASE, which takes a VERIFYING run, and to QUARANTINED otherwise |
| Rejudged.JudgedAgainIff | src/dataos/workflow/orchestrator.py:947-990 | a release of a run that has ended changes nothing; it returns an assessment exactly if every step's file is stored, exactly if a release had ended the run, and then decides QUARANTINE whatever the contract; otherwise it raises an untyped error on a QUARANTINED run |
| Rejudged.RepeatsIffQuarantined | src/dataos/workflow/orchestrator.py:947-990 | after the release that ended a run every later one judges it, and repeats its decision exactly if that was QUARANTINE; on the same contract results, report, verdict, coverage, claims, scores and all other reasons are the same, but that the run is not VERIFYING is always a new one |
| Rejudged.SomeVerdictIsReversed | src/dataos/compiler/release_gate.py:68-98 | for any source and any step with a file of its own there is a run decided RELEASE that every later release, on whatever contract, decides to QUARANTINE while it stays RELEASED |
| Sessions.StartOnce | src/dataos/workflow/orchestrator.py:603-709 | a `StartRun` that succeeds is the beginning of a life of the run |
| Sessions.RunOnce | src/dataos/workflow/orchestrator.py:836-933 | every `Run`, cut off or not, is a stretch of that life |
| Sessions.ReleaseOnce | src/dataos/workflow/orchestrator.py:935-999 | every `ReleaseRun`, on a contract of its own, is a step of that life |
| Sessions.RunAnother | src/dataos/workflow/orchestrator.py:836-933 | running another run, of whatever workflow, changes nothing stored about this one |
| Sessions.ReleaseAnother | src/dataos/workflow/orchestrator.py:935-999 | nor does releasing another run |
| Sessions.StartAnother | src/dataos/workflow/orchestrator.py:603-709 | nor does starting another run, under an id that is not taken |
| Sessions.Finish | src/dataos/workflow/orchestrator.py:836-933 | on a RUNNING run, whatever happened to it before, a call by a process that lives through it leaves exactly the stores of one run that never crashed |
| Sessions.Drive | src/dataos/workflow/orchestrator.py:603-999 | any sequence of requests, crashes and other runs started, run and released in between included, each release on a contract of its own, keeps the run on a life; whenever it ends up RELEASED every artifact stored is the value the workflow denotes |
| ReleasedRun.SomeRunIsReleased | src/dataos/workflow/orchestrator.py:603-999 | for any source and any step with a file of its own there is a run that is started, executed and released, although its derive step added a row: the assumptions of the results about lives can be met |
| ReleasedSession.ReleaseOneStep | src/dataos/workflow/orchestrator.py:603-999 | the orchestrator's own methods take that run all the way to RELEASED |

## Left out

- Orchestrator.WorkflowOrchestrator.StartRun: the process does not die inside it, because until it has returned nobody knows the run's id; runs begin once it has returned.
- Orchestrator.WorkflowOrchestrator.ReleaseRun: its single write is the last thing it does, so no crash budget is modelled for it.
- Orchestrator.WorkflowOrchestrator.Run: one caller at a time; two processes working on the same run are not modelled.
- Cleaning.RewritePreservesMeaning: one application of a set of rules; applying a rule again to the returned workflow repeats a step id and raises.
- Deduplicate.KeepsOneLeaderPerKey: the order in which the engine processes ties of the ordering column is a parameter, since its sort does not promise to keep ties in place; which of the tied rows survives is not determined.
- Join.JoinAccounting: result rows are known by the pair of input rows they come from; the naming of joined columns and the order of output rows are not modelled.
- Aggregate.GroupedSumsAddUp: sums are exact; floating-point rounding and integer width are not modelled.
- Release.ScoresAreBounded: scores are exact rationals, not floats.
- Verifier.Verify: a prohibited action listed twice is reported once.
- Incident.RetryIsTheFrontier: the texts of conditions and of evidence to preserve are not modelled.
- TextClean.ReprofileAfterClean: what lower-casing does to a text is a parameter about which only idempotence and bare ends are assumed.
- Validation.Execute: the check functions on a single frame are parameters that pass, fail or raise; observed and expected values and the narrative of a rule are not modelled.
- SQLite, parquet, hashing and timestamps: the stores are maps with atomic writes, and records carry no times.
- Node ids that are not plain file names (a path separator in a step id) are not modelled.
- Language-model clients, prompts and narratives: they never decide anything here.
- Schema drift is one flag of `start_run`; the drift monitor itself is a flat list of cases.
- The security guard is two parameters: whether a destination is blocked, and the defusing of data on its way into an export.
- The operations cast, derive, select_filter, validate_schema and export: single expressions over a frame, covered by the uninterpreted engine.
- The regular-expression parts of text cleaning.
- Parameter parsing of the registry's operations: a malformed parameter escapes like any other untyped error.
- The dtypes that the data-frame engine gives to aggregated columns are followed in outline only; nothing is proved of them.
- Joins with empty key lists, which fail inside the data-frame engine.
- Stripping a formula treats ASCII white space only.
- Texts: an error is its code and the ids it names, a check of a proposed join its kind and its numbers, the least and the greatest value of a column the values themselves.
- Data-quality assessment beyond text variants, semantic resolution, operation selection, connector planning, schema mapping, visualization and automation: flat case lists, not modelled.
- The web application, desktop wrapper and session store.
