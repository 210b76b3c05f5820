# Delegation layer: a verified model of its hardest parts

The repository admits work through short native inspections that a separate worker runs
under a process guardian, recovers from lost queue answers and crashes, prints shell lines
that it later parses again, classifies error graphs over a wire, and guards its own tests
with a may-alias analysis. This project models those parts in Dafny and proves what the
code and its comments promise about them.

## The admission protocol

An operation is one journal of create-once records: the submission claim, the receipt with
the queue's numeric ID, the start claim, the result and its completion, the worker exit,
the stop intent, the unlaunched fence, and the native lifetime records (scope plan,
registration, worker, launches, termination, worker disposition).

* `Journal` holds the records, the validated reads and every guarded transaction.
* `Evidence` holds the admission decision and says exactly what it means and when it can
  still change.
* `Protocol` is the whole system as a state machine: any number of dispatchers, the queue
  with its one row, the guardian, the worker, recovery, queue cleanup, crashes, reboots and
  the clock, in any interleaving. A request without the guardian contract may have a row that
  launches its worker bare, as older versions submitted them, or behind a guardian. `Nominal`
  holds complete runs to admission for each kind of request.
* `Worlds` is one dispatcher process inside that system: its world is a state reached by a
  run of `Protocol`, between two of its own steps any actions of the others extend the run,
  and each of its own steps is an action of its dispatcher. So a call is part of a run, and
  what `Protocol` proves of every run holds of it. `Reading`, `Observing`, `Awaiting`,
  `Dispatching` and `Polls` are that process's code, method by method, with every journal
  read in its own transaction. `Working` is the worker's code, whose surroundings are
  justified by `Protocol.HolderOwnsItsRecords`.

Conventions: a digest is the record it digests; an error is the set of sentinels that
`errors.Is` finds in it (the evidence fault and the identity mismatch are one sentinel,
since every caller treats them alike); times are integers, milliseconds where a constant
matters; a context is a deadline and whether the caller's cancellation reaches it.

Assumptions about code outside the model: journal transactions are atomic and durable; a
lease call returns its commit callback's error; the queue invents no row under the
operation's immutable label (its reported states and success may be wrong, late or
missing); boot identities do not recur and a dispatcher lives within one boot.

### Where the code differs from its comments

* *The decision is not absorbing for every append-only journal.* The stop transaction does
  not look at the result, so run late it turns an eligible decision into an expired one
  (`Evidence.LateStopRevokesEligibility`). `Evidence.EligibleSurvivesExactly` gives the
  exact condition, and `Protocol.DecisionNeverChanges` shows that the order in which the
  processes run their transactions meets it on every run.
* *Evaluation is not only pending before it decides.* A Wait recorded before its
  termination makes it fail with an evidence fault until the termination arrives
  (`Evidence.EarlyWaitFaultIsTransient`; all undecided cases in `Evidence.UndecidedExactly`).
* *A historical binding can lose its eligible decision* when a scope plan or registration
  appears; `Evidence.HistoricalEligibleSurvivesExactly` says exactly when. The transactions
  allow it; `Protocol.HistoricalHolds` shows that no run does it, because the row runs once.
  `Journal.Evolves` carries this into the view of one dispatcher, so the facts that
  `Dispatching.RunInspection` returns are still decided on by the journal it ends on.
* *A live observer can lose its error to an interrupted read.* The last bounded read is meant
  to keep the original error when it is cut off, but only a caller whose context was dead
  before it gets that; if the context dies during the read, the read's own error is returned
  (internal/admission/inspection_evidence.go:77-88, `Awaiting.FinalizeAwait`).
* *After the deadline a clean no-match is not retried but dereferences a missing row*
  (internal/admission/inspection_observation.go:194-197 and 252): the classifier calls it
  retryable without an error, and the nil error is taken for success.
  `Dispatching.RowMissingHappens` is a concrete journal for it, `Dispatching.RowMissingExactly`
  the exact condition for one command and `Dispatching.CompletedState.Observe` for a whole
  turn; the methods report it as `crashed`. The condition is told by what the queue answered
  and the reads said: the world logs every answer of a status command and every evaluation,
  and a turn crashes if and only if it came to a fresh command, that answer was a clean miss,
  and the evaluation after it was still pending or was cut off in an outlived window. With a
  live context and reliable storage it no longer happens once the journal has decided.
* *The round trip of the wire record is stronger than promised*: causes, fault flag and
  reason all survive (`ErrorGraph.WireRoundTrip`).
* *The alias analysis misses modules rebound from a plain dotted import* that no other import
  records under the bound name (`Aliases.ImportCoveredExactly`; under the gate's own policy
  `Aliases.ScriptsImportIsMissed`), and its result can depend on the visiting order when a
  directly named operation is rebound (`Aliases.DefaultVanishes`);
  `Orders.OrderIrrelevantExactly` says exactly when. `Flows.HeldExactly` tells the whole
  content of the table from the imports and assignments, and `Flows.SoundForInputExactly`
  exactly which inputs the analysis is sound for.

## The other parts

* `ErrorGraph`: errors as finite trees; classification into the wire record, rebuilding,
  and the bounded worklist. A bit mask of causes is the set of its bit numbers.
* `Preparation`: the preparation goroutine, its done channel and its observers; the store
  owner's close. A node may answer for a borrowed store or a lease it has let go of since.
* `Shell`, `CommandLine`, `Arguments`, `Continuation`, `Routing`: POSIX quoting, option
  ordering, the standard flag parser, the printed continuation command and the routing shim.
* `Aliases`: the may-alias fixpoint, `Orders`: when the visiting order matters to it, and
  `Flows`: what the table holds, told by the input alone.
* `Batches`: greedy batching. `Archive`: the archive walk and the staging of the pair.

## Model

| member | source | states |
|---|---|---|
| Evidence.EligibleExactly | internal/admission/inspection_evidence.go:18-54 | the decision is eligible with these facts if and only if the full proof is on record: sealed eligible result completed before the deadline without a stop, a successful exact Wait (or queue exit) and, unless historical, an empty timely termination |
| Evidence.DecisionAbsorbing | internal/admission/inspection_evidence.go:14-54 | over coherent append-only journals a decision and its facts never change, provided the historical status holds still from the start claim on |
| Evidence.HistoricalEligibleSurvivesExactly | internal/admission/inspection_evidence.go:118-146 | without the guardian contract an eligible decision survives if and only if no lifetime record appears or the lifetime ended on time |
| Evidence.EligibleSurvivesExactly | internal/admission/inspection_evidence.go:14-17 | under arbitrary appends an eligible decision survives if and only if no stop, no fence, no further launch and no foreign scope plan was appended |
| Evidence.LateStopRevokesEligibility | internal/inspection/internal/journal/stop.go:92-126 | a concrete journal whose eligible decision the stop transaction, run late, turns into an expired one |
| Evidence.UndecidedExactly | internal/inspection/internal/journal/proof.go:112-150 | a guardian journal is undecided for exactly the listed reasons |
| Evidence.EarlyWaitFaultIsTransient | internal/guardian/worker.go:15-50 | a Wait on record before its termination evaluates to a fault that the termination turns into a decision |
| Journal.CommitExtends | internal/inspection/internal/journal/journal.go:431-489 | no transaction, refused or not, changes a record already present |
| Journal.CommitCoherent | internal/task/lifetime_completion.go:64-161 | every transaction run in an order the processes use keeps all record bindings valid |
| Journal.EvolvesGrows | internal/taskdir/lifetime_evidence.go:56-58 | growth seen within one boot never adds a native Wait to a scope that died with its boot |
| Protocol.StepInv | internal/admission/inspection_await.go:19-65 | one step of any process keeps the whole-system invariant, only grows the journal, and keeps the historical status behind a claimed start |
| Protocol.RunInv | internal/admission/inspection_await.go:19-65 | so does every run |
| Protocol.AtMostOneAdd | internal/admission/inspection_submission.go:14-72 | on every run at most one row is added, and receipt, exit and stop records all name its one numeric ID; a row leaves the stash only behind its receipt |
| Protocol.AdmittedIsTimely | internal/admission/inspection_await.go:19-65 | with or without the guardian contract, a dispatcher that returned facts returned the sealed result completed before the deadline, and unless the request has neither that contract nor any lifetime, its lifetime ended by itself, empty, in time; the journal decides on those facts in every later state too |
| Protocol.AdmittedAgree | internal/admission/inspection_evidence.go:14-17 | two dispatchers never return different facts |
| Protocol.DecisionNeverChanges | internal/admission/inspection_evidence.go:14-17 | once decided, every continuation of every run decides the same, with or without the guardian contract |
| Protocol.HistoricalHolds | internal/admission/inspection_evidence.go:130-146 | on no run does a lifetime appear behind a start claimed without one: the row runs once, supervised or bare |
| Protocol.CleanupStepEffect | internal/supervisor/cleanup_preparation.go:57-81 | queue cleanup writes at most the exit record, none under the guardian contract, and keeps the invariant |
| Protocol.ObserversLeaveEvidence | internal/admission/inspection_queue.go:28-32 | under the guardian contract no dispatcher, queue or cleanup step writes exit or result evidence |
| Protocol.QueueNonInterference | internal/inspection/internal/journal/proof.go:112-114 | two runs with the same worker, guardian and recovery records decide the same, whatever their queues showed |
| Protocol.StepEvolves | internal/taskdir/lifetime_evidence.go:56-58 | every step of the system is a growth a dispatcher's own proofs allow for |
| Protocol.HolderOwnsItsRecords | internal/app/inspection_worker.go:170-176 | while a worker holds the start claim nobody else writes start, stop, result or completion |
| Nominal.AdmissionHappens | internal/admission/inspection_await.go:19-65 | with and without the guardian contract some run from the empty journal ends admitted, with a lifetime that ended on time |
| Nominal.HistoricalAdmission | internal/admission/inspection_lifetime.go:12-34 | some run of a bare worker ends admitted through queue cleanup, without any lifetime |
| Worlds.RunMoves | internal/taskdir/lifetime_evidence.go:56-58 | whatever the others do within one boot, a dispatcher finds the journal grown within its boot, its own phase untouched and the row the same |
| Worlds.World.Act | internal/admission/inspection_submission.go:14-72 | a step of the process is one action of its dispatcher, and the run so far goes on with it |
| Worlds.World.Put | internal/inspection/internal/journal/journal.go:431-489 | a dispatcher's writing transaction commits exactly as the journal does, by its own actions, and permits a submission only to the creator of the claim |
| Worlds.World.Add | internal/pueue/internal/control/staged_inspection.go:93-149 | the permit is spent on one add, and the answered ID is the row's |
| Worlds.World.OneRowHolds | internal/admission/inspection_submission.go:14-72 | whatever all dispatchers did, there is one row at most, it left the stash only behind its receipt, and every record names its ID |
| Reading.MixedEvidence | internal/taskdir/lifetime_evidence.go:47-85 | lifetime records read one transaction at a time, dependents first, are always valid together, never show a closure the final journal lacks, and never miss one on record at the start |
| Reading.LoadEvidence | internal/taskdir/lifetime_evidence.go:25-85 | the six reads give evidence with that property or fail as a read |
| Reading.LaunchReceiptRead | internal/inspection/internal/journal/proof.go:154-173 | the unlaunched fence, then the receipt: success means a receipt and no earlier fence |
| Reading.NativeRead | internal/inspection/internal/journal/proof.go:141-195 | the verdict of a native Wait, by the journal the read ends on |
| Reading.ManagedRead | internal/inspection/internal/journal/proof.go:115-150 | a settled guardian verdict is the final journal's, and one settled at the start is returned unless the read failed |
| Reading.ObservedRead | internal/inspection/internal/journal/proof.go:87-109 | the same for queue-observed exits |
| Reading.CompletedEvidenceRead | internal/admission/inspection_evidence.go:94-116 | timely completion and termination, in two transactions, with the same guarantee |
| Reading.HistoricalRead | internal/admission/inspection_evidence.go:130-146 | two absences read in turn prove the journal of the first read historical |
| Reading.LifetimeEvidenceRead | internal/admission/inspection_evidence.go:118-128 | the lifetime evidence is that of the journal the read ends on, and evidence on record is not missed, unless the historical status changed meanwhile, which a claimed start rules out |
| Reading.ProofRead | internal/inspection/internal/journal/proof.go:74-83 | facts come from a successful eligible verdict read again |
| Reading.EvaluateAdmission | internal/admission/inspection_evidence.go:18-54 | for both kinds of request, a decision read in separate transactions is the decision of the journal the read ends on, and a decision on record is not missed unless the context died or storage failed |
| Observing.RecordedRead | internal/admission/inspection_evidence.go:56-71 | the dispatcher's view of that decision |
| Observing.RecordedAfterObservation | internal/admission/inspection_evidence.go:73-88 | a cancelled observer still gets one bounded read, and a read cut off by that bound reports nothing; a live observer always gets what the read said |
| Observing.RequireReceipt | internal/admission/inspection_queue.go:53-71 | only the receipt's own numeric ID may be observed |
| Observing.RecordWorkerExit | internal/inspection/internal/journal/proof.go:30-63 | an exit record carries the receipted ID and the observed success |
| Observing.AcceptObservation | internal/admission/inspection_queue.go:16-51 | nothing ends or returns facts but for the receipted row |
| Observing.AcceptCompleted | internal/admission/inspection_observation.go:90-116 | durable proof first, then acceptance; facts are proved |
| Observing.ReconcileWithLease | internal/pueue/internal/control/inspection.go:126-151 | exactly one status command, whose logged answer is the observation; a matched row is accepted unless spared for recovery, and never leaves a queue fault; an unmatched one leaves only the command's own |
| Observing.RecoverInspectionStaged | internal/pueue/internal/control/staged_inspection.go:269-334 | a stashed row is enqueued only behind its own committed receipt, and only that row is observed |
| Observing.RecoverStaged | internal/supervisor/staged_recovery.go:12-72 | recovery or reobservation succeeds only for the receipted row and hands out only proved facts |
| Observing.ReconcileObservation | internal/admission/inspection_queue.go:73-98 | no command starts after the deadline; one that crosses it keeps its own queue fault beside the expiry; a stashed row passes only with its receipt |
| Observing.Classify | internal/admission/inspection_policy.go:153-179 | retryable errors are never expiry, pending, identity or configuration faults; only a clean no-match loses its error |
| Observing.PollStatus | internal/admission/inspection_observation.go:23-51 | a poll returns the decision on record, proved facts, a retryable error or a failure |
| Observing.CurrentTerminalJob | internal/admission/inspection_terminal.go:52-67 | a callback's job is the ended row of exactly that ID |
| Observing.AcceptTerminalEvent | internal/admission/inspection_terminal.go:13-50 | a callback is only a hint: nothing ends and no fact is handed out before the label was reconciled anew |
| Polls.PollSchedule.Due | internal/admission/inspection_policy.go:131-139 | a poll is granted without a watchdog, at or after it, or once early for a new completion without a callback |
| Polls.PollSchedule.Observed | internal/admission/inspection_policy.go:141-144 | an observation rearms the watchdog |
| Polls.ArmedSpacing | internal/admission/inspection_policy.go:131-151 | granted polls are a watchdog apart but for one early one |
| Polls.PollBudget | internal/admission/inspection_policy.go:131-151 | over any calls in time order, k polls span at least k-2 watchdogs, k-1 when a callback is expected |
| Polls.OneEarlyPoll | internal/admission/inspection_policy.go:131-136 | the early poll happens at most once, never with a callback |
| Polls.EarlyPollIsReal | internal/admission/inspection_policy.go:131-136 | without a callback two polls can share one instant |
| Polls.WatchdogNeverRefused | internal/admission/inspection_policy.go:131-139 | a full watchdog after the last call a poll is granted |
| Awaiting.AwaitState.ObserveTerminalEvent | internal/admission/inspection_await.go:193-215 | the callback is taken at most once, puts the next watchdog poll off, and leaves everything alone when none is awaited |
| Awaiting.AwaitState.PollWhenDue | internal/admission/inspection_await.go:155-164 | one poll exactly when the schedule grants it, delivering the decision on record; else nothing happens |
| Awaiting.AwaitState.ObserveQueue | internal/admission/inspection_await.go:148-164 | the callback or a due poll; a retryable status error is only remembered |
| Awaiting.AwaitState.Observe | internal/admission/inspection_await.go:132-164 | one observation delivers the decision on record; past the deadline or a dead context it ends with what the durable proof says, or with the expiry beside the last status error |
| Awaiting.AwaitState.Budget | internal/admission/inspection_policy.go:131-151 | the polls of one await loop stay within the watchdog budget |
| Awaiting.NewStateWithRetry | internal/admission/inspection_await.go:94-107 | only lock contention is retried, and the retries end |
| Awaiting.ObserveUntilTerminal | internal/admission/inspection_await.go:109-125 | the loop terminates, delivers a decision on record and keeps the poll budget |
| Awaiting.NormalizeError | internal/admission/inspection_await.go:217-225 | the expiry is added exactly to a deadline error once the window or the caller's deadline is over |
| Awaiting.DecisionNotCutOff | internal/admission/inspection_evidence.go:84-88 | no decision looks like a read that was cut off |
| Awaiting.FinalizeAwait | internal/admission/inspection_await.go:78-92 | durable proof replaces any observer error; the error survives exactly when proof is absent, or when a caller already cut off had its bounded read cut off too |
| Awaiting.AwaitWithSubmission | internal/admission/inspection_await.go:67-76 | the whole await delivers the decision or proved facts |
| Dispatching.RowMissingExactly | internal/admission/inspection_observation.go:174-205 | the commit after a reconciliation has no row exactly after a clean no-match with the proof undecided |
| Dispatching.RowMissingHappens | internal/admission/inspection_observation.go:237-257 | a concrete journal with timely evidence and no Wait yet, on which a clean miss leaves the commit without its row |
| Dispatching.Settle | internal/admission/inspection_observation.go:137-157 | a status command is settled against the durable proof first: the outcome is the stated function of the command and of the evaluation read after it |
| Dispatching.AwaitPending | internal/admission/inspection_observation.go:127-157 | a retained command is consumed, or stays in flight when its context is over |
| Dispatching.ReconcileCompleted | internal/admission/inspection_observation.go:174-205 | a fresh reconciliation delivers the decision on record; unless the identity cannot be read it issues one status command, and it leaves nothing at all exactly when the logged answer is a clean miss and the evaluation after it left the proof open; a command still in flight is kept then |
| Dispatching.CommitCompleted | internal/admission/inspection_observation.go:207-217 | an ended row is accepted under a fresh lease, and the decision on record is delivered with proved facts only |
| Dispatching.CompletedState.ConsumePending | internal/admission/inspection_observation.go:159-172 | the retained handle is kept, settled or given up with its error |
| Dispatching.CompletedState.ReconcileAndCommit | internal/admission/inspection_observation.go:237-257 | crashes exactly when it issued its status command, the logged answer is a clean miss and the evaluation after it left the proof open; a command still in flight is retained for the next turn |
| Dispatching.CompletedState.ObserveReady | internal/admission/inspection_observation.go:219-235 | it issues a status command only with timely evidence on record and no retained row, and then does so unless a read fails; it crashes exactly when that command's answer is a clean miss with the proof left open |
| Dispatching.CompletedState.Observe | internal/admission/inspection_observation.go:259-273 | one turn of the window answers at most the retained command and a fresh one; it crashes exactly when the fresh one was answered, which takes timely evidence on record and no retained row, with a clean miss, and the evaluation after it left the proof open; a window already over ends it |
| Dispatching.ObserveCompleted | internal/admission/inspection_observation.go:275-297 | the window's loop terminates and delivers a decision on record |
| Dispatching.AwaitCompletedObservation | internal/admission/inspection_observation.go:53-88 | only an expired await opens the window, and it returns only proved facts |
| Dispatching.SubmitStaged | internal/pueue/internal/control/staged_inspection.go:93-149 | the permit is spent on one add, and the row is enqueued only behind its receipt |
| Dispatching.SubmitOnce | internal/admission/inspection_submission.go:14-72 | at most one add, only by the creator of the claim, never past the deadline |
| Dispatching.RunInspection | internal/admission/inspection_await.go:19-65 | a nil error comes with the facts the final journal decides on, for both kinds of request: sealed in time, with a lifetime ended by itself, empty, in time unless there is none; the call is a part of a run whose next action admits its dispatcher, with one row at most; a decided journal is answered without submission; it always terminates |
| Working.Host.ClaimStart | internal/inspection/internal/journal/journal.go:396-412 | the start permit is created once, inside the window, over an empty outcome |
| Working.Host.ClaimStop | internal/inspection/internal/journal/stop.go:92-126 | the stop intent is prepared only while no result exists |
| Working.Host.Publish | internal/inspection/internal/journal/evidence.go:189-219 | result before completion; a torn publication leaves only the result |
| Working.Host.Seal | internal/inspection/internal/journal/evidence.go:153-187 | the sealed result is the one asked for; an eligible one is refused at or past the deadline; with reliable storage only a context that died first leaves it unsealed |
| Working.BudgetOwner.PrepareExpiry | internal/execution/budget.go:87-112 | expiry prepares the stop once, and not after completion |
| Working.BudgetOwner.Authorize | internal/execution/budget.go:147-179 | authorization is granted only before expiry and completion |
| Working.BudgetOwner.Complete | internal/execution/budget.go:190-223 | completion either precedes expiry, with no stop, or waits for the prepared stop |
| Working.RunSupervised | internal/execution/supervised.go:130-161 | success means no stop intent exists or will be prepared |
| Working.WaitReceipt | internal/app/inspection_worker.go:303-328 | the wait ends with the window and returns the recorded ID |
| Working.SealFailure | internal/app/inspection_worker.go:443-475 | the failure reason is expired exactly from the deadline on; with reliable storage it is sealed unless the deadline passes first |
| Working.RunWorker | internal/app/inspection_worker.go:134-194 | success is a timely sealed eligible result without a stop; with reliable storage failure means exactly that none was sealed, and a claimed start lacks an outcome only once the deadline passed |
| ErrorGraph.Accumulator.Visit | internal/task/error_causes.go:29-48 | the visitor collects exactly the sentinel leaves and independent faults of the whole graph |
| ErrorGraph.ClassifyPreparation | internal/app/infrastructure_preparation_failure.go:62-84 | the record is the meaning of the tree |
| ErrorGraph.NothingIsLost | internal/app/infrastructure_preparation_failure.go:86-102 | every non-nil error has a cause or an independent fault |
| ErrorGraph.JoinIsUnion | internal/app/infrastructure_preparation_failure.go:62-102 | a join classifies as the union of its parts, a nil part being a fault |
| ErrorGraph.FailureError | internal/app/infrastructure_preparation_failure.go:104-119 | the loop rebuilds the mapped causes in table order |
| ErrorGraph.RecordSurvives | internal/app/infrastructure_preparation_failure.go:62-119 | rebuilding any valid record and classifying again keeps causes and fault flag, and the reason unless it is empty and the causes give one |
| ErrorGraph.WireRoundTrip | internal/app/infrastructure_preparation_failure.go:62-119 | for every error the record survives unchanged |
| ErrorGraph.CauseIdentities | internal/app/lifetime_guardian_failure.go:40-77 | the worklist terminates with the first 16 leaves depth first, left to right, and the exact count of the rest |
| Preparation.ResultNeverLost | internal/app/infrastructure_preparation_worker.go:28-55 | over every interleaving of write, close, expiry and select: one write and none after the close; a returned value, or what can be read once done, is what the action produced and never changes; no caller waits past expiry or close |
| Preparation.RetainedReports | internal/app/infrastructure_preparation_worker.go:57-88 | a retained error is pending until done, then reports exactly the error the action produced |
| Preparation.HiddenUntilClosed | internal/app/infrastructure_preparation_worker.go:36-54 | between write and close the result is final and still reported in flight, and before the write the memory read without waiting would look like success |
| Preparation.RetainsExactly | internal/app/infrastructure_preparation_worker.go:90-100 | the walk finds a held resource wherever it is in the graph |
| Preparation.AsAtEveryNode | internal/supervisor/cleanup_retention.go:10-28 | asking for the first owner at every node finds every owner, although the first one may have let go |
| Preparation.FirstQueryMisses | internal/supervisor/cleanup_retention.go:17-24 | a wrapper that has let go hides the borrower behind it from one query, and not from the walk |
| Preparation.CleanupRetainsStore | internal/supervisor/cleanup_retention.go:10-28 | the store is retained if and only if some node, anywhere in the graph, still borrows it or holds it by its lease |
| Preparation.CollectBootstrapCleanup | internal/app/infrastructure_bootstrap_cleanup.go:14-42 | every distinct cleanup is joined once: pending, release fault and diagnostics are exact |
| Preparation.PreparationOwner.Close | internal/app/infrastructure_preparation_owner.go:66-89 | the store is closed exactly when nothing needs it and closing succeeds; otherwise the returned error has it in custody and reports pending; no error is dropped |
| Preparation.StoreStaysReachable | internal/app/infrastructure_preparation_worker.go:40-88 | over every interleaving, whoever observes a worker whose outcome has a store in custody reports pending and reaches that store |
| Preparation.FinishPreparation | internal/app/infrastructure_entry_host.go:44-58 | after the worker closed its owner the store is closed, exactly when nothing needs it, or every observer of the worker has it in custody |
| Shell.QuoteRoundTrip | internal/app/continuation.go:21-23 | splitting a quoted string by the shell's rules gives back that string |
| Shell.PrintSplit | internal/app/continuation.go:10-23 | any line of plain and quoted words is split into exactly those words |
| CommandLine.OrderFlags | internal/app/arguments.go:298-335 | the loop orders options, one terminator, positionals |
| CommandLine.OrderKeeps | internal/app/arguments.go:298-335 | options and positionals are order-preserving subsequences with nothing lost or invented |
| CommandLine.OrderIdempotent | internal/app/arguments.go:298-335 | ordering is idempotent |
| CommandLine.FlagParserAgrees | internal/app/arguments.go:134-140 | the flag parser reads exactly the ordered settings and positionals, and succeeds if and only if every option has at most two dashes and an accepted value |
| CommandLine.SettingsDistinct | internal/app/arguments.go:316-319 | no two settings name the same flag |
| Arguments.SeparateCommand | internal/app/arguments.go:197-224 | the command is the first argument that is no global option or its value |
| Arguments.ParseAction | internal/app/arguments.go:182-195 | the action is the first argument that is no option and no global value |
| Arguments.SplitTail | internal/app/arguments_workspace.go:46-52 | the exec tail starts at the first terminator |
| Continuation.CommandIsPrinted | internal/app/continuation.go:10-19 | the concatenated line is its words, spaced |
| Continuation.CommandSplits | internal/app/continuation.go:10-23 | the line splits into the program name and exactly its words for all paths |
| Continuation.ContinuationParses | internal/app/arguments.go:103-146 | the words parse to command continue with exactly the printed settings, if and only if the paths are absolute |
| Continuation.ContinuationRoundTrip | internal/app/continuation.go:10-23 | print, split and parse give back root, runner, configuration, task ID and JSON, whatever the paths contain |
| Routing.AdmittedLeads | scripts/skill_routing_root_shim.py:39-66 | whatever is admitted leads with the owned root |
| Routing.RootAgreement | scripts/skill_routing_root_shim.py:39-66 | for every admitted argv in both modes, an accepted task or workspace command has exactly the owned root |
| Routing.ExecTailVerbatim | scripts/skill_routing_root_shim.py:47-50 | a literal exec tail passes through untouched, its own root flags included |
| Aliases.CollectControlledAliases | scripts/verify_acceptance_ownership.py:215-235 | the loop terminates with a table closed under every assignment, reached by whole passes, inside a finite universe |
| Aliases.ReferencesWithin | scripts/verify_acceptance_ownership.py:143-212 | references never leave that universe |
| Aliases.ImportAliases | scripts/verify_acceptance_ownership.py:150-180 | the import loop builds the import table |
| Aliases.ImportCovered | scripts/verify_acceptance_ownership.py:150-180 | every import but a plain dotted one is recorded with each controlled reference it binds |
| Aliases.ImportCoveredExactly | scripts/verify_acceptance_ownership.py:155-160 | in any import list, what an import binds is covered exactly when it is not followed or some import records it under the bound name; only a plain dotted one can fail to |
| Aliases.PlainDottedImportIsMissed | scripts/verify_acceptance_ownership.py:200-211 | rebinding such a module loses it, although its direct use is seen |
| Aliases.ScriptsImportIsMissed | scripts/verify_acceptance_ownership.py:155-160 | under the gate's own policy a dotted import of the common module from the scripts package is missed so |
| Aliases.ExecutionCovered | scripts/verify_acceptance_ownership.py:183-235 | over a closed table, any execution keeps every held controlled reference in the alias sets |
| Aliases.AnalysisSound | scripts/verify_acceptance_ownership.py:143-235 | over any order and number of assignments every name's controlled reference is one the analysis gives it: from imports recorded under the bound name when followed at all, whatever is rebound, and from direct names that no assignment rebinds |
| Aliases.SoundExactly | scripts/verify_acceptance_ownership.py:143-235 | a closed table is sound for every execution from the imports and direct names exactly when it holds what they start from |
| Aliases.LeastTable | scripts/verify_acceptance_ownership.py:215-235 | the result is below every closed table that binds no further directly named operation |
| Aliases.OrderIndependent | scripts/verify_acceptance_ownership.py:215-235 | without a rebound directly named operation the order of assignments does not matter |
| Orders.OrderIrrelevantExactly | scripts/verify_acceptance_ownership.py:189-235 | all orders give one table exactly when, for each direct name unbound at the start, the one order that delays reading it longest still gives its default to all its readers |
| Flows.HeldExactly | scripts/verify_acceptance_ownership.py:143-235 | a reference is in a name's alias set if and only if a run of the assignments carries it there from an import, from an operation spelled out, or from a default read before its name was bound |
| Flows.SoundForInputExactly | scripts/verify_acceptance_ownership.py:143-235 | the returned table covers every execution if and only if, on the input, each import binding that is followed flows back to its name, and so does each default unless nothing flows to its name |
| Flows.ModuleFlowsFromImport | scripts/verify_acceptance_ownership.py:150-180 | a module flows to a name exactly from an import recorded under some name |
| Aliases.DefaultVanishes | scripts/verify_acceptance_ownership.py:189-199 | with one, two orders give different closed tables and one of them loses an alias |
| Aliases.AcceptanceValid | scripts/verify_acceptance_ownership.py:13-70 | the gate's own policy meets the policy conditions |
| Batches.Split | scripts/static_analysis.py:33-48 | batches concatenate to the input, are nonempty and within the limit, are as few as possible, and exist exactly when every path fits |
| Batches.GreedyIsFewest | scripts/static_analysis.py:33-48 | no split within the limit is behind a greedy one |
| Archive.CopyBounded | scripts/fetch_pueue_assets.py:187-196 | copying succeeds exactly when the stream fits, verbatim, and never writes past the bound |
| Archive.ValidateMembers | scripts/fetch_pueue_assets.py:231-266 | the walk returns the selected members of the scan or its fault |
| Archive.AcceptedLayout | scripts/fetch_pueue_assets.py:231-266 | acceptance means four distinct, disjoint, in-bounds members and only zeros after them |
| Archive.SelectedNames | scripts/fetch_pueue_assets.py:261-266 | the selection is exactly the pair among the members |
| Archive.ArchiveRoundTrip | scripts/fetch_pueue_assets.py:231-277 | any order of the four legal members, padded and ended by zeros, is accepted, and each extent holds its payload |
| Archive.CopyMember | scripts/fetch_pueue_assets.py:269-277 | under any short reads, success means exactly the member's payload |
| Archive.StagePair | scripts/fetch_pueue_assets.py:280-291 | bounded copy, validation of the whole copy, then extraction: success means the exact bytes of both members of the pair, and with reliable storage it is refused only for an oversized or unaccepted archive |
| Archive.StageDistribution | scripts/fetch_pueue_assets.py:280-291 | a packed distribution within the bound, members in any order, is staged with exactly the payloads that were packed, whatever the reads return |

## Left out

- Aliases.AnalysisSound: its condition on what the program starts from is sufficient; the exact one is `Flows.SoundForInputExactly`.
- Preparation.CleanupRetainsStore: the application's second walk, for workspace commands, is not part of this model.
- Aliases.OrderIndependent: gives a sufficient condition that needs no run of the analysis; the exact one is `Orders.OrderIrrelevantExactly`.
- Aliases.ImportCovered: the absolute form of relative imports is an input; resolving package levels against paths is not part of this model.
- Aliases.LeastTable: compares only with tables that bind no further directly named operation, since binding one removes its default.
- Evidence.DecisionAbsorbing: for historical bindings it needs the historical status to hold still; the exact condition is `Evidence.HistoricalEligibleSurvivesExactly`, and `Protocol.DecisionNeverChanges` needs no such premise.
- Observing.Classify: errors are sets of sentinels, so wrappers that only change text are not distinguished.
- Reading.LoadEvidence: the closure decision's own validation of the assembled evidence, and the second comparison of the worker record, are proved never to refuse and are not repeated as branches.
- Reading.LifetimeEvidenceRead: says nothing of a lifetime that appears before the start is claimed, when no evidence is on record yet.
- Worlds.World.Interfere: real time, scheduling fairness and lock waiting are a monotone clock and arbitrary interference.
- Archive.ArchiveRoundTrip: header decoding is an abstract function with a stated inverse on legal members; checksums, extension headers and mode bits beyond executable and special are part of it.
- Archive.ValidateMembers: header and end-marker reads are full blocks, as buffered files give them; only the copies are proved for short reads.
- Arguments.SplitTail: checkpoint, schedule and teams have their own grammars, which are not part of this model; number syntax, budget syntax and the independent field checks of commands other than continue are parameters.
- Continuation.ContinuationRoundTrip: whether a supervisor configuration is the root's private one is a parameter.
- Shell.PrintSplit: unquoted expansions, operators, patterns and comments are refused rather than evaluated.
- Preparation.ResultNeverLost: starts with an accepted call; a nil context or action and a context already over are refused before there is a worker.
- Protocol.RunInv: a row is started at most once, so restarting a finished row by hand is not part of this model.
- Preparation.PreparationOwner.Close: a bootstrap cleanup is modelled after its done signal; the wait for that signal is not.
- ErrorGraph.ClassifyPreparation: an error's own `As` method, other than by type, is not modelled.
- Working.RunWorker: candidate preparation, provider inspection and environment selection are one arbitrary outcome; custom runners' own queue reconciliation before the start claim is part of it.
- Protocol.StepInv: guardian and recovery appear by the records they write; native scopes, process control and supervisor bootstrap are not modelled.
- Queue maintenance requests, terminal-event storage, response rendering, failure message tables, provider catalogs and the acceptance scripts that drive real processes.
- A nil supervisor client, a nil operation and record shapes that fail schema validation.
