# Verified model of the execution and evidence core

This project models the database core of the platform in Dafny and proves what its triggers,
CHECK constraints and procedures add up to.  The schema is the one left by migration 0031: a
manifest has 1 to 64 units.  A table row is a datatype value or a class with the columns as
fields; a trusted procedure is a method; a trigger with its CHECKs and unique constraints is a
predicate that decides whether one insert or update goes through.  `dafny verify dfyconfig.toml`
checks the whole project.

| file | component |
|---|---|
| `CanonicalJson.dfy` | the canonical JSON text behind every digest, and a parser for it |
| `ReportChain.dfy`, `EvidenceVerdict.dfy` | the append-only browser report log and the evidence verdict derived over it |
| `DebugRun.dfy` | debug run lifecycle, contract and actor binding, evidence, result |
| `EvidenceRun.dfy`, `EvidenceExample.dfy` | a debug run together with its log, results, artifacts and manifest |
| `StartIntentDelivery.dfy`, `TopK.dfy` | claim-fenced delivery of workflow start intents, batch claims |
| `CommandDelivery.dfy`, `CommandRace.dfy`, `CommandOutcomes.dfy`, `CommandExamples.dfy`, `CommandTable.dfy` | cancel, pause and resume commands: delivery, the races with their runs, exact outcomes, reachable counterexamples, the table |
| `TaskStates.dfy` | lifecycle, quality and hygiene of runs, units and attempts; transitions under revision compare-and-swap |
| `Manifests.dfy`, `RunAggregate.dfy`, `InfraRerun.dfy` | manifests, materialization and its seal, attempts and tickets, reruns |
| `EventLog.dfy` | the numbered event log of a run |
| `FixtureIntent.dfy` | fixture runs and their terminal intent |
| `Acceptance.dfy` | percentile and pass-rate arithmetic |
| `Sql.dfy`, `Sets.dfy` | NULL and three-valued truth; counting in finite sets |

How the source is represented:

- One transaction or one trusted call is one step, since the procedures and guards lock the rows
  they read and change.  Two do not, and are two steps with anything in between: a unit's insert
  guard reads its run without a lock, and reporting a command failure reads the run before it
  updates the command.  A row set aside by `skip locked` is a parameter of a claim.
- Time is an integer number of milliseconds.  A procedure's clock value is a parameter; the only
  assumption, where one is needed, is that the trigger reads a clock not earlier than the call did.
- "In every continuation" and "in every reachable world" are statements over arbitrary sequences
  of steps, where a refused step changes nothing.
- Where no trigger guards an insert, a history starts from any row the CHECKs and foreign keys allow
  (fixture runs, debug runs, the command races); a result for rows as requests create them says so.
- A `select ... into` that matches several declarations takes the first in document order.
- Guards, CHECKs and orderings are transcribed once.  The results that say what they let through
  (`...Exactly`, `...Means`, `Next...` and the grammar of the report log) are written on the columns; a
  transcribed condition that one of them names has such a result of its own.
- SHA-256 is a function parameter; that it is collision-free is a hypothesis of the lemmas that
  need it.  Ids and tokens are integers, and no result assumes tokens to be unique.
- Text comparison is by code point, as `collate "C"` has it; unit keys are lower-case hexadecimal
  digests, for which the default collation is taken to agree.
- The checks that consult many foreign tables (published dependencies at the seal, lease and
  browser-session freshness at an actor binding, digests of a whole manifest) enter as one boolean
  parameter of the step, named `admissible`, `canonical` or `current`.

Results that differ from what the names and messages in the source suggest, each with a
counterexample over states that the guards admit and with the exact condition:

- An INVALID artifact, even a required one, does not keep a run from PASSED if no result cites it,
  since the manifest may leave it out (`EvidenceVerdict.OmittedArtifactCanPass`; exactly when:
  `PassedIsAttainable`, `PassedIffNothingInvalidListed`).
- Assertion results can be inserted after the manifest was stored
  (`EvidenceVerdict.InconclusiveCanBeOvertaken`; exactly when: `StillInsertable`); after PASSED they
  cannot.
- The fixture intent CHECK passes on NULL, and no trigger guards inserts: READY goes with any intent,
  and a run that reads FAILED, CANCELED or CLEANUP_FAILED without one can later settle otherwise
  (`FixtureIntent.CheckMeans`, `FailedRunCanRelease`, `CleanupFailedRunCanFail`; exactly when:
  `ReachedExactly`, `UndecidedSettlement`).
- A failed delivery of a pause or resume command is recorded as APPLIED when its transaction found the
  run closed as canceled, and as FAILED when it looked too early
  (`CommandExamples.FailedPauseReadsApplied`, `FailureCanMissTheClosure`; exactly when:
  `CommandRace.NewlyApplied`).
- Command procedures abort when their transaction began before the command was created, as a
  supersession can (`CommandExamples.SupersessionCanAbort`; exactly when:
  `CommandRace.TransactionsNeverAbort`).
- The command insert guard does not look at the delivery columns, so a command need not start
  PENDING (`CommandExamples.CommandNeedNotStartPending`; exactly PENDING rows start an empty history:
  `CommandDelivery.PendingIsTracked`).  The race results hold for any inserted row.

For start intents `AbortsExactlyWhenStale` leaves aborts only to a start or retry that read its clock
before times already stored; `HoldersNeverAbort` says that no caller that entered after it was given
its claim is ever among them.

## Model

| member | source | states |
|---|---|---|
| `CanonicalJson.RoundTrip` | backend/migrations/versions/20260716_0023_task_dispatch_prerequisites.py:22-57 | A parser for JSON without whitespace and exponents, members in any order, recovers from text(v) + rest exactly v and the untouched rest, for every value and every rest that does not extend a number |
| `CanonicalJson.RowOrderIrrelevant` | backend/migrations/versions/20260716_0023_task_dispatch_prerequisites.py:31-45 | However the rows of an object are delivered, the canonical text is the same |
| `CanonicalJson.TextIsInjective` | backend/migrations/versions/20260716_0023_task_dispatch_prerequisites.py:22-57 | Equal canonical texts mean equal values, and conversely |
| `CanonicalJson.TextIsPrefixFree` | backend/migrations/versions/20260716_0023_task_dispatch_prerequisites.py:22-57 | No canonical text of a non-number is a proper prefix of another canonical text |
| `CanonicalJson.DigestIdentifiesValue` | backend/migrations/versions/20260716_0023_task_dispatch_prerequisites.py:62-77 | With a collision-free hash, equal digests mean equal values |
| `CanonicalJson.SortAscending` | backend/migrations/versions/20260716_0023_task_dispatch_prerequisites.py:31-45 | Members with distinct keys come out so that of any two the earlier ends first or has the smaller code point at their first difference |
| `CanonicalJson.AscendingIsUnique` | backend/migrations/versions/20260716_0023_task_dispatch_prerequisites.py:31-45 | A set of keys has only one strictly ascending order |
| `CanonicalJson.LessIsStrictOrder` | backend/migrations/versions/20260716_0023_task_dispatch_prerequisites.py:31-45 | The `collate "C"` comparison is a strict total order |
| `CanonicalJson.LessMeans` | backend/migrations/versions/20260716_0023_task_dispatch_prerequisites.py:37 | The comparison is exactly code point order: one text ends where the other goes on, or has the smaller code point at the first difference |
| `CanonicalJson.MembersPrintInOrder` | backend/migrations/versions/20260716_0023_task_dispatch_prerequisites.py:31-45 | An object prints exactly its members in code point order of their keys |
| `CanonicalJson.EscapeIsShortest` | backend/migrations/versions/20260716_0023_task_dispatch_prerequisites.py:34-54 | The escape printed for a character is the shortest text that reads as it, the only such one with lower-case hexadecimal digits |
| `CanonicalJson.NumberMeans` | backend/migrations/versions/20260716_0023_task_dispatch_prerequisites.py:52-53 | The accepted number texts are exactly sign, digits without leading zero and an optional fraction |
| `ReportChain.GuardIsGrammar` | backend/migrations/versions/20260715_0017_browser_runtime_reports.py:100-252 | Trigger, CHECKs and unique indexes accept a report if and only if the extended log is again one of a grammar written on the columns alone: start first and only first, contiguous proposal-decision-receipt items of one action id, actor and action, nothing after completion, linked digests, ordered times, no id proposed twice |
| `ReportChain.AcceptedRunsAreGrammar` | backend/migrations/versions/20260715_0017_browser_runtime_reports.py:107-258 | A whole sequence of reports is accepted insert by insert if and only if it is a log of the grammar |
| `ReportChain.ActionsBelongTogether` | backend/migrations/versions/20260715_0017_browser_runtime_reports.py:181-252 | In every log built by accepted inserts a decision has the action id and actor of the proposal right before it, and a receipt those of the proposal two places back, its action, and an ALLOW between |
| `ReportChain.UniqueIndexIsImplied` | backend/migrations/versions/20260715_0017_browser_runtime_reports.py:100-105 | The unique (action id, kind) index never rejects a report the look-back accepts |
| `ReportChain.FreshProposal` | backend/migrations/versions/20260715_0017_browser_runtime_reports.py:150-200 | Searching all reports for a proposal's id is the same as searching the proposals |
| `ReportChain.ActionHasProposal` | backend/migrations/versions/20260715_0017_browser_runtime_reports.py:200-252 | Every decision and receipt, wherever it stands, belongs to the proposal one or two places back; a receipt follows ALLOW with equal id, actor and action |
| `ReportChain.ProposalOutcome` | backend/migrations/versions/20260715_0017_browser_runtime_reports.py:200-252 | In a completed log every proposal is decided by the next report and settled by the one after |
| `ReportChain.ReceiptIsUnique` | backend/migrations/versions/20260715_0017_browser_runtime_reports.py:100-105 | An action id has at most one report of each kind |
| `ReportChain.ReportLog.constructor` | backend/migrations/versions/20260715_0017_browser_runtime_reports.py:31-98 | An empty log satisfies the invariant |
| `ReportChain.ReportLog.Insert` | backend/migrations/versions/20260715_0017_browser_runtime_reports.py:107-258 | An insert succeeds exactly when the run is running and the extended log is one of the grammar; then the log is extended by exactly that report, else unchanged |
| `EvidenceVerdict.PassedIsTrustworthy` | backend/migrations/versions/20260715_0016_runtime_evidence.py:594-840 | End to end: an accepted PASSED manifest over a log built by accepted inserts has one result per declared assertion, every hard one passed, only verified listed evidence cited and at least one per result, the whole log counted, and every proposed action allowed with exactly one receipt, which succeeded |
| `EvidenceVerdict.PassedResultsAreTrustworthy` | backend/migrations/versions/20260715_0016_runtime_evidence.py:639-830 | The assertion half of it; that declared ids are distinct follows and is not assumed |
| `EvidenceVerdict.PassedActionsSucceeded` | backend/migrations/versions/20260715_0017_browser_runtime_reports.py:276-340 | The action half of it, from the report-chain trigger: decision and receipt repeat id and actor of the proposal, the receipt its action |
| `EvidenceVerdict.PassedParts` | backend/migrations/versions/20260715_0016_runtime_evidence.py:767-830 | PASSED is derived exactly when answers are complete, every hard result passed and nothing listed is invalid |
| `EvidenceVerdict.VerdictMeans` | backend/migrations/versions/20260715_0016_runtime_evidence.py:767-830 | What an accepted manifest says: FAILED that a hard result failed, COMPLETE that every declaration has its one matching result with evidence, MISSING that a hard declaration is listed missing or a hard result lacks evidence, INVALID that a stored INVALID artifact is listed; the missing ids are exactly the declared ones without result |
| `EvidenceVerdict.ManifestIsAttainable` | backend/migrations/versions/20260715_0016_runtime_evidence.py:594-830 | Some manifest is accepted by both triggers if and only if the report log is complete, every declaration has an id, every cited artifact is stored and, after an unsafe execution, every result is INCONCLUSIVE |
| `EvidenceVerdict.UnsafeRunsAreInconclusive` | backend/migrations/versions/20260715_0017_browser_runtime_reports.py:276-340 | When a proposal was not allowed or its receipt does not read SUCCEEDED, an accepted verdict and every stored result are INCONCLUSIVE |
| `EvidenceVerdict.VerdictIsFailClosed` | backend/migrations/versions/20260715_0016_runtime_evidence.py:767-830 | Removing results, dropping references or downgrading artifacts never turns a derivation into PASSED |
| `EvidenceVerdict.ManifestListsStoredResults` | backend/migrations/versions/20260715_0016_runtime_evidence.py:639-677 | A manifest lists exactly the stored results, each once, and its three counts are those of the listed results by status |
| `EvidenceVerdict.AnswersMatch` | backend/migrations/versions/20260715_0016_runtime_evidence.py:521-561 | As many results as declarations means one matching result each, under the insert guard's NULL-tolerant comparison |
| `EvidenceVerdict.InsertKeepsStored` | backend/migrations/versions/20260715_0016_runtime_evidence.py:521-561 | Accepted result inserts keep one admissible result per assertion id |
| `EvidenceVerdict.PassedIffNothingInvalidListed` | backend/migrations/versions/20260715_0016_runtime_evidence.py:678-830 | An accepted manifest is PASSED if and only if the answers are complete and it lists no stored INVALID artifact |
| `EvidenceVerdict.PassedIsAttainable` | backend/migrations/versions/20260715_0016_runtime_evidence.py:639-830 | Some manifest is accepted as PASSED by both triggers if and only if the answers are complete, every cited artifact is stored and VERIFIED, and the report log is complete and safe; so a stored INVALID artifact stops PASSED exactly when a result cites it |
| `EvidenceVerdict.OmittedArtifactCanPass` | backend/migrations/versions/20260715_0016_runtime_evidence.py:678-700 | A counterexample: a PASSED manifest accepted by both triggers over a stored, required, INVALID artifact that it does not list |
| `EvidenceVerdict.InconclusiveCanBeOvertaken` | backend/migrations/versions/20260715_0016_runtime_evidence.py:521-561 | A counterexample: after an INCONCLUSIVE manifest accepted by both triggers a late result is inserted, and a PASSED manifest over the new facts would be acceptable |
| `EvidenceRun.PassedRunIsTrustworthy` | backend/migrations/versions/20260715_0016_runtime_evidence.py:426-830 | Over any history of contract, actor, report, result, artifact and manifest inserts and updates: a run that reads PASSED has the full PASSED conclusion, and keeps outcome, manifest, contract, results and report log, and so the conclusion, in every continuation |
| `EvidenceRun.RunsKeepValid` | backend/migrations/versions/20260715_0016_runtime_evidence.py:426-830 | A stored PASSED manifest is at any later time still what both triggers would accept over the facts then stored |
| `EvidenceRun.PassedFreezes` | backend/migrations/versions/20260715_0017_browser_runtime_reports.py:107-258 | After a PASSED manifest no report and no result is accepted |
| `EvidenceRun.ReportWasLive` | backend/migrations/versions/20260715_0017_browser_runtime_reports.py:107-150 | Every report of a log was stored while its run was RUNNING and not to be canceled, in the window of its contract |
| `EvidenceRun.ResultsInsertExactly` | backend/migrations/versions/20260715_0016_runtime_evidence.py:521-561 | In every history: exactly which assertion results are accepted, told from the columns of result, declaration and contract |
| `EvidenceRun.ManifestsInsertExactly` | backend/migrations/versions/20260715_0016_runtime_evidence.py:594-639 | In every history: a manifest is stored if and only if its run is RUNNING, has none, and has its contract and digests, the columns repeat the document, and both triggers accept this |
| `EvidenceRun.ColumnsRepeatTheDocument` | backend/migrations/versions/20260715_0016_runtime_evidence.py:594-677 | The outcome, completeness and integrity columns of every stored manifest say what its document says |
| `EvidenceRun.Projects` | backend/migrations/versions/20260715_0014_debug_runs.py:264-345 | The debug run in such a history goes through a history of its own, so the debug run results apply to it |
| `EvidenceExample.SomeRunPasses` | backend/migrations/versions/20260715_0016_runtime_evidence.py:426-518 | A complete history, from CREATED through all inserts, that ends PASSED |
| `EvidenceVerdict.StillInsertable` | backend/migrations/versions/20260715_0016_runtime_evidence.py:521-561 | Results can be inserted after the manifest exactly while the first declaration with some missing id, the one the guard selects, can be answered |
| `EvidenceVerdict.PassedIsFinal` | backend/migrations/versions/20260715_0016_runtime_evidence.py:521-561 | After a PASSED manifest no result and no report is accepted any more |
| `StartIntentDelivery.CallIsFenced` | backend/migrations/versions/20260716_0024_task_workflow_start_intent_delivery.py:266-355 | On any reachable row, WHERE clause, trigger and shape CHECK together apply a call exactly when the history of applied calls allows it, and the time-ordered invariant is kept |
| `StartIntentDelivery.HistoriesAreTracked` | backend/migrations/versions/20260716_0024_task_workflow_start_intent_delivery.py:108-217 | Every reachable row is a function of its history of calls and satisfies the full CHECK |
| `StartIntentDelivery.AbortsExactlyWhenStale` | backend/migrations/versions/20260716_0024_task_workflow_start_intent_delivery.py:497-646 | A selected claim or failure never aborts; a start or retry aborts exactly when its entry time lies before times already stored |
| `StartIntentDelivery.HoldersNeverAbort` | backend/migrations/versions/20260716_0024_task_workflow_start_intent_delivery.py:497-646 | A caller that entered no earlier than the claim it holds never aborts |
| `StartIntentDelivery.SettlerHoldsLatestClaim` | backend/migrations/versions/20260716_0024_task_workflow_start_intent_delivery.py:518-541 | Only the most recent claim, unexpired, settles an intent, and the expected revision alone names it |
| `StartIntentDelivery.SettledAtMostOnce` | backend/migrations/versions/20260716_0024_task_workflow_start_intent_delivery.py:291-351 | STARTED and FAILED are last for ever and no claim is settled twice |
| `StartIntentDelivery.StaleHolderIsShutOut` | backend/migrations/versions/20260716_0024_task_workflow_start_intent_delivery.py:518-541 | A holder whose claim is no longer the last call selects nothing in any continuation, even with an equal token |
| `StartIntentDelivery.LeasesAreDisjoint` | backend/migrations/versions/20260716_0024_task_workflow_start_intent_delivery.py:431-493 | Claims come in time order and after the expiry of earlier ones unless these were given back |
| `StartIntentDelivery.DeliveryCounts` | backend/migrations/versions/20260716_0024_task_workflow_start_intent_delivery.py:291-351 | attempts counts the claims and revision the calls: attempts <= revision <= 2 attempts, and <= 2 attempts - 1 while claimed |
| `StartIntentDelivery.NextStatuses` | backend/migrations/versions/20260716_0024_task_workflow_start_intent_delivery.py:291-351 | Which statuses one update that trigger and CHECK accept can give a reachable intent, exactly: CLAIMED when waiting or expired, and the three ends of a claim |
| `StartIntentDelivery.ShapeMeans` | backend/migrations/versions/20260716_0024_task_workflow_start_intent_delivery.py:108-217 | What the shape CHECK demands, column by column: claim exactly while CLAIMED, start and failure times in their status, counters, due time, and errors in time order, as far as its comparisons with NULL let it |
| `StartIntentDelivery.TriggerMeans` | backend/migrations/versions/20260716_0024_task_workflow_start_intent_delivery.py:266-355 | What the trigger adds between rows the CHECK allows, exactly: which status follows, revision and attempts, that only a retry moves the due time, past its claim, and only a retry or failure records an error |
| `StartIntentDelivery.StartIntentTable.constructor` | backend/migrations/versions/20260716_0024_task_workflow_start_intent_delivery.py:108-217 | An empty table satisfies the invariant |
| `StartIntentDelivery.StartIntentTable.Insert` | backend/migrations/versions/20260716_0024_task_workflow_start_intent_delivery.py:232-264 | Inserting gives a PENDING row due at creation, with an empty history, and changes no other row |
| `StartIntentDelivery.StartIntentTable.Settle` | backend/migrations/versions/20260716_0024_task_workflow_start_intent_delivery.py:497-646 | Started, retry and fail apply exactly the allowed calls and change only that row; arguments out of bounds are refused, a call that does not hold the last claim selects no row, and only stale starts and retries abort |
| `StartIntentDelivery.StartIntentTable.ClaimBatch` | backend/migrations/versions/20260716_0024_task_workflow_start_intent_delivery.py:374-494 | A claim takes min(limit, claimable) unlocked root intents of the namespace - PENDING or RETRY_WAIT and available, or CLAIMED and expired -, none of which comes after one left out in (due time, created_at, id); each update passes trigger and CHECK, and every other row stays |
| `TopK.FirstKIsTopK` | backend/migrations/versions/20260716_0024_task_workflow_start_intent_delivery.py:431-493 | The batch has min(limit, eligible) rows and every row left out comes after every chosen one in (due time, created_at, id) |
| `TopK.TopKIsUnique` | backend/migrations/versions/20260716_0024_task_workflow_start_intent_delivery.py:431-493 | Those two properties determine the batch |
| `CommandDelivery.CallIsFenced` | backend/migrations/versions/20260717_0029_task_run_pause_resume.py:279-321 | As for start intents, for claim, deliver, retry, fail, apply and supersede of one command |
| `CommandDelivery.HistoriesAreTracked` | backend/migrations/versions/20260717_0029_task_run_pause_resume.py:84-191 | Every reachable command row is a function of its history and satisfies both CHECKs |
| `CommandDelivery.AbortsExactlyWhenStale` | backend/migrations/versions/20260717_0028_task_run_command_intents.py:339-587 | A claim never aborts; any other selected call aborts exactly when its transaction began before the command was created |
| `CommandDelivery.DeliveryCounts` | backend/migrations/versions/20260717_0029_task_run_pause_resume.py:279-321 | attempts <= revision <= 2 attempts + 1, and <= 2 attempts while the command is open |
| `CommandDelivery.SettledIsFinal` | backend/migrations/versions/20260717_0029_task_run_pause_resume.py:298-321 | APPLIED, FAILED and SUPERSEDED are final, and DELIVERED is followed only by one of apply and supersede |
| `CommandRace.OneOpenControl` | backend/migrations/versions/20260717_0029_task_run_pause_resume.py:193-197 | In every reachable world a run has at most one open pause or resume command |
| `CommandRace.StepKeepsOneOpen` | backend/migrations/versions/20260717_0029_task_run_pause_resume.py:193-197 | No update of any procedure can violate the partial unique index |
| `CommandRace.SupersessionWins` | backend/migrations/versions/20260717_0029_task_run_pause_resume.py:446-497 | A successful supersession marks exactly the open pause and resume commands of its run and leaves every other row as it is |
| `CommandRace.CancelWins` | backend/migrations/versions/20260717_0029_task_run_pause_resume.py:446-497 | After it, in every continuation: no pause or resume of the run changes, is open, is inserted, settled or applied again |
| `CommandRace.NewlyApplied` | backend/migrations/versions/20260717_0028_task_run_command_intents.py:477-587 | In every reachable world a command becomes APPLIED exactly by an apply - a pause with its run PAUSED, a resume with it RUNNING, both undecided, a cancel with it CLOSED and CANCELED - or by a failure whose transaction found the run closed as canceled, and then it still is |
| `CommandRace.LookUpHappened` | backend/migrations/versions/20260717_0028_task_run_command_intents.py:497-505 | What a failing transaction read is the state of the run at one earlier moment |
| `CommandRace.LookedIsTrue` | backend/migrations/versions/20260717_0028_task_run_command_intents.py:497-505 | A look-up that found the run canceled stays true in every continuation |
| `CommandRace.ReachableIsTracked` | backend/migrations/versions/20260717_0029_task_run_pause_resume.py:279-321 | If commands are inserted as PENDING, then in every reachable world every row is determined by a fenced history, so the row results hold |
| `CommandRace.TransactionsNeverAbort` | backend/migrations/versions/20260717_0028_task_run_command_intents.py:339-587 | In every such world an admitted claim never aborts, and any other admitted transaction commits if and only if it began no earlier than the commands it updates were created |
| `CommandDelivery.PendingIsTracked` | backend/migrations/versions/20260717_0029_task_run_pause_resume.py:199-277 | Among the rows the CHECKs allow, exactly those inserted as PENDING start an empty history |
| `CommandOutcomes.AppliesExactly` | backend/migrations/versions/20260717_0029_task_run_pause_resume.py:324-443 | An unapplied command applies if and only if command and run are ready - an unsettled pause and PAUSED, an unsettled resume and RUNNING, quality PENDING; a claimed or delivered cancel and CLOSED, CANCELED - and the transaction began no earlier than the command; then it reads APPLIED and nothing else changes |
| `CommandOutcomes.DeliversExactly` | backend/migrations/versions/20260717_0028_task_run_command_intents.py:398-431 | A delivery takes effect if and only if its claim still holds, and then changes only that row |
| `CommandOutcomes.RetriesExactly` | backend/migrations/versions/20260717_0028_task_run_command_intents.py:433-475 | A retry takes effect if and only if its claim still holds and the delay is within 100 ms and one hour; the command is then due after the delay |
| `CommandOutcomes.FailsExactly` | backend/migrations/versions/20260717_0028_task_run_command_intents.py:477-526 | A failure takes effect if and only if its claim still holds; the command then reads APPLIED without error if the run was found closed as canceled, else FAILED with it |
| `CommandOutcomes.SupersedesExactly` | backend/migrations/versions/20260717_0029_task_run_pause_resume.py:446-497 | Supersession takes effect if and only if it names a cancel of a CANCELING run and began no earlier than the unsettled pause and resume commands of the run; exactly these then read SUPERSEDED by it |
| `CommandOutcomes.InsertsExactly` | backend/migrations/versions/20260717_0029_task_run_pause_resume.py:193-277 | A command is stored if and only if its columns are consistent, its run is sealed, in the namespace, at the accepted revision, undecided and CANCELING, PAUSE_REQUESTED or PAUSED by kind, and, for an unsettled pause or resume, no other of the run is unsettled; a PENDING one must have its delivery columns untouched |
| `CommandOutcomes.CommandWasAccepted` | backend/migrations/versions/20260717_0029_task_run_pause_resume.py:199-240 | Every stored command was accepted by its run, in that state and at that revision, at one earlier moment |
| `CommandOutcomes.StoredCommandsAreConsistent` | backend/migrations/versions/20260717_0029_task_run_pause_resume.py:84-191 | Every stored command, however inserted and updated, is consistent, column by column: claim exactly while CLAIMED, settling times exactly in their status, errors, counters and times as the CHECKs demand |
| `CommandOutcomes.NextStatuses` | backend/migrations/versions/20260717_0029_task_run_pause_resume.py:298-316 | Which statuses one update that trigger and CHECKs accept can give a consistent command, exactly |
| `CommandExamples.FailedPauseReadsApplied` | backend/migrations/versions/20260717_0028_task_run_command_intents.py:497-524 | A reachable counterexample, with PENDING inserts: a pause command reads APPLIED although its run was PAUSED at no time |
| `CommandExamples.FailureCanMissTheClosure` | backend/migrations/versions/20260717_0028_task_run_command_intents.py:497-524 | A reachable counterexample: a failure that read the run just before its closure is recorded as FAILED after it |
| `CommandExamples.SupersessionCanAbort` | backend/migrations/versions/20260717_0029_task_run_pause_resume.py:446-497 | A reachable counterexample: an admitted supersession whose transaction began before a pause command was created aborts on its CHECK |
| `CommandExamples.CommandNeedNotStartPending` | backend/migrations/versions/20260717_0029_task_run_pause_resume.py:199-277 | A reachable counterexample: the insert guard accepts a pause that already reads APPLIED although its run was never PAUSED |
| `CommandTable.Commands.constructor` | backend/migrations/versions/20260717_0028_task_run_command_intents.py:44-176 | An empty table satisfies the invariant |
| `CommandTable.Commands.CreateRun` | backend/migrations/versions/20260716_0023_task_dispatch_prerequisites.py:2563-2608 | Creating a run has exactly its specified effect |
| `CommandTable.Commands.SealRun` | backend/migrations/versions/20260716_0023_task_dispatch_prerequisites.py:1791-1800 | A run is sealed at most once, advancing its revision; manifest and counts are the part of RunAggregate |
| `CommandTable.Commands.MoveRun` | backend/migrations/versions/20260716_0023_task_dispatch_prerequisites.py:1826-1881 | A run transition has exactly its specified effect |
| `CommandTable.Commands.InsertCommand` | backend/migrations/versions/20260717_0029_task_run_pause_resume.py:199-277 | An insert succeeds exactly for the exact controlled run and keeps the open-command index |
| `CommandTable.Commands.Deliver` | backend/migrations/versions/20260717_0028_task_run_command_intents.py:398-431 | Delivery has exactly its specified effect or none |
| `CommandTable.Commands.Retry` | backend/migrations/versions/20260717_0028_task_run_command_intents.py:433-475 | Retry has exactly its specified effect or none |
| `CommandTable.Commands.LookUpRun` | backend/migrations/versions/20260717_0028_task_run_command_intents.py:497-505 | The unlocked read of the run records whether it is closed as canceled and changes no row |
| `CommandTable.Commands.Fail` | backend/migrations/versions/20260717_0028_task_run_command_intents.py:506-526 | The update of a failure has exactly its specified effect, by what was read, or none |
| `CommandTable.Commands.ApplyTo` | backend/migrations/versions/20260717_0029_task_run_pause_resume.py:324-443 | Apply has exactly its specified effect or none; repeating it is a success without effect |
| `CommandTable.Commands.Supersede` | backend/migrations/versions/20260717_0029_task_run_pause_resume.py:446-497 | Supersession has exactly its specified effect or none and reports the affected rows |
| `CommandTable.Commands.Claim` | backend/migrations/versions/20260717_0028_task_run_command_intents.py:339-396 | A batch claim has exactly its specified effect or none and takes min(limit, claimable) unlocked commands, none of which comes after one left out in (available_at, created_at, id) |
| `TaskStates.LifecycleReachability` | backend/migrations/versions/20260716_0022_task_execution_hosts.py:273-299 | The rank order of lifecycles is exactly the reflexive-transitive closure of the transition relation |
| `TaskStates.HygieneReachability` | backend/migrations/versions/20260716_0022_task_execution_hosts.py:302-322 | The same for hygiene |
| `TaskStates.NextStates` | backend/migrations/versions/20260716_0022_task_execution_hosts.py:273-322 | What one accepted update can make of a valid row, exactly: the single steps of lifecycle and hygiene, independent of each other, and a quality decided once, from FINALIZING on and before CLOSED |
| `TaskStates.MilestonesAreInOrder` | backend/migrations/versions/20260716_0022_task_execution_hosts.py:216-270 | In every state of a row the milestones are set exactly when reached and created <= started <= finalized <= closed |
| `TaskStates.InitialMeans` | backend/migrations/versions/20260716_0023_task_dispatch_prerequisites.py:2563-2608 | A newly inserted row is exactly one at revision 1 to which nothing has happened: QUEUED, undecided, cleanup not begun, no milestone set |
| `TaskStates.HistoryEvolves` | backend/migrations/versions/20260716_0023_task_dispatch_prerequisites.py:2024-2107 | Over any number of accepted updates: reachable lifecycle and hygiene, quality decided once, milestones written once, revision + 1 each |
| `TaskStates.QualityDecidedOnce` | backend/migrations/versions/20260716_0023_task_dispatch_prerequisites.py:2077-2080 | Among any three states of a row the quality changes at most once |
| `TaskStates.ExpectedRevisionIsUsedOnce` | backend/migrations/versions/20260716_0023_task_dispatch_prerequisites.py:1858-1863 | An expected revision names one position in a row's history, so at most one of its callers succeeds |
| `TaskStates.CanAlwaysClose` | backend/migrations/versions/20260716_0022_task_execution_hosts.py:216-270 | Every valid open state can be closed in at most two more accepted updates, an undecided one with any quality |
| `TaskStates.TaskRow.constructor` | backend/migrations/versions/20260716_0023_task_dispatch_prerequisites.py:2563-2608 | An inserted row starts its history |
| `TaskStates.TaskRow.Transition` | backend/migrations/versions/20260716_0023_task_dispatch_prerequisites.py:1826-1881 | A transition applies exactly when the run is sealed, the revision is the expected one and trigger and CHECK accept; otherwise nothing changes |
| `Manifests.CheckUnits` | backend/migrations/versions/20260716_0023_task_dispatch_prerequisites.py:225-290 | The validator's single pass with `previous_key` accepts exactly the lists of 1 to 64 entries numbered by position whose digests and UUIDs have their format character by character and whose keys ascend pairwise in code point order |
| `Manifests.KeyIdentifiesBinding` | backend/migrations/versions/20260716_0023_task_dispatch_prerequisites.py:2697-2721 | With a collision-free hash, two entries of a plan have equal unit keys exactly when they are the same binding |
| `Manifests.KeysAreDistinct` | backend/migrations/versions/20260716_0023_task_dispatch_prerequisites.py:280-285 | A valid list has no key twice |
| `Manifests.KeyTextIsCanonical` | backend/migrations/versions/20260716_0023_task_dispatch_prerequisites.py:2701-2708 | The text a unit key is the digest of: these six members in this order |
| `Manifests.DependencyTextIsCanonical` | backend/migrations/versions/20260716_0023_task_dispatch_prerequisites.py:2709-2717 | The text a dependency digest is taken of: these seven members in this order |
| `Manifests.AdmissibleExactly` | backend/migrations/versions/20260716_0023_task_dispatch_prerequisites.py:2611-2721 | The guard admits exactly the valid lists whose every unit has case, environment, profiles and blueprint of the plan and the digests of these two texts |
| `RunAggregate.ReachableIsValid` | backend/migrations/versions/20260716_0023_task_dispatch_prerequisites.py:1596-1823 | Every world reachable by any interleaving of manifest, unit, attempt and ticket inserts, seal and transitions satisfies the invariants |
| `RunAggregate.SealedIsExact` | backend/migrations/versions/20260716_0023_task_dispatch_prerequisites.py:1683-1700 | In every sealed run units and manifest entries 1..n are in bijection with equal bindings |
| `RunAggregate.OrdinalsAreFilled` | backend/migrations/versions/20260716_0022_task_execution_hosts.py:679-685 | With as many units as entries, unique positive ordinals fill 1..n |
| `RunAggregate.NoUnitAfterSeal` | backend/migrations/versions/20260716_0023_task_dispatch_prerequisites.py:2761-2820 | A unit whose guard read MATERIALIZING before the seal can never be written after it |
| `RunAggregate.CountsForceFirstAttempts` | backend/migrations/versions/20260716_0023_task_dispatch_prerequisites.py:1683-1700 | The three counts compared at the seal force exactly one attempt, number 1, for every unit |
| `RunAggregate.SealSeesFirstAttempts` | backend/migrations/versions/20260716_0023_task_dispatch_prerequisites.py:1683-1700 | When the seal succeeds every unit has exactly its first attempt, still queued |
| `RunAggregate.SealIsPermanent` | backend/migrations/versions/20260716_0023_task_dispatch_prerequisites.py:1596-1823 | In every continuation a sealed run keeps its manifest, units, bindings, counts and one start intent |
| `RunAggregate.StartMeansSealed` | backend/migrations/versions/20260716_0023_task_dispatch_prerequisites.py:1801-1820 | A start intent exists exactly when the run is sealed, there is only one, and the seal never succeeds again |
| `RunAggregate.AttemptNumbersAreGapless` | backend/migrations/versions/20260716_0023_task_dispatch_prerequisites.py:2248-2256 | A unit's attempts are numbered 1..k without gaps, k being their count |
| `RunAggregate.EarlierAttemptsAreClosed` | backend/migrations/versions/20260716_0023_task_dispatch_prerequisites.py:2257-2281 | Every number below an existing attempt's is taken by a closed attempt of retryable quality |
| `RunAggregate.AtMostOneOpen` | backend/migrations/versions/20260716_0023_task_dispatch_prerequisites.py:2257-2281 | At most one attempt of a unit is open |
| `RunAggregate.PassedIsLast` | backend/migrations/versions/20260716_0023_task_dispatch_prerequisites.py:2257-2330 | A PASSED attempt stays PASSED and last in every continuation |
| `RunAggregate.TicketsFollowInfraErrors` | backend/migrations/versions/20260717_0030_task_infrastructure_retry.py:44-65 | In every reachable world a ticket belongs to an attempt; number k > 1 follows one closed with INFRA_ERROR, all its earlier numbers are closed and retryable, and no attempt is ticketed twice |
| `RunAggregate.SealsExactly` | backend/migrations/versions/20260716_0023_task_dispatch_prerequisites.py:1683-1800 | In every reachable world the seal succeeds if and only if the run is unsealed at the expected revision, units and manifest entries are in bijection with equal bindings, and every unit has exactly one attempt |
| `RunAggregate.UnitsAppearExactly` | backend/migrations/versions/20260716_0023_task_dispatch_prerequisites.py:2761-2820 | A unit guarded and then written becomes visible if and only if the run is unsealed, the unit initial and bound as the entry of its number, and this number free; the unique index on keys never decides |
| `RunAggregate.UnitsGuardExactly` | backend/migrations/versions/20260716_0023_task_dispatch_prerequisites.py:2761-2820 | The unit guard alone admits an initial unit bound as the entry its number names, counted from 1, or from the end for 0 and below |
| `RunAggregate.AttemptsInsertExactly` | backend/migrations/versions/20260716_0023_task_dispatch_prerequisites.py:2173-2287 | An attempt is accepted if and only if it is initial, numbered one more than its unit has attempts and, unless the first, all these are closed with neither PASSED nor PENDING and run and unit are QUEUED or RUNNING under a sealed run |
| `RunAggregate.TicketsIssueExactly` | backend/migrations/versions/20260717_0030_task_infrastructure_retry.py:44-65 | A ticket is issued if and only if the sealed run is QUEUED or RUNNING, the attempt QUEUED and without ticket, and its unit QUEUED for a first attempt, else RUNNING with the attempt before closed by INFRA_ERROR |
| `RunAggregate.AtMostOneOpenTicket` | backend/migrations/versions/20260717_0027_task_unit_execution_tickets.py:116 | At most one ticketed attempt per unit is open |
| `RunAggregate.TaskRun.constructor` | backend/migrations/versions/20260716_0023_task_dispatch_prerequisites.py:2563-2608 | A freshly inserted run |
| `RunAggregate.TaskRun.StoreManifest` | backend/migrations/versions/20260716_0023_task_dispatch_prerequisites.py:2611-2758 | A manifest is stored exactly once, while materializing, and only if its unit list is valid |
| `RunAggregate.TaskRun.CheckUnit` | backend/migrations/versions/20260716_0023_task_dispatch_prerequisites.py:2761-2820 | The unit guard admits exactly units bound like their manifest entry while the run it reads is materializing |
| `RunAggregate.TaskRun.CommitUnit` | backend/migrations/versions/20260716_0022_task_execution_hosts.py:625-718 | A unit becomes visible exactly if its ordinal is positive and its ordinal and key are free |
| `RunAggregate.TaskRun.StoreAttempt` | backend/migrations/versions/20260716_0023_task_dispatch_prerequisites.py:2173-2287 | An attempt is stored exactly if it is the next number and, beyond the first, a retry of a closed retryable attempt in a dispatchable sealed run |
| `RunAggregate.TaskRun.SealMaterialization` | backend/migrations/versions/20260716_0023_task_dispatch_prerequisites.py:1596-1823 | The seal has exactly its specified effect or none |
| `RunAggregate.TaskRun.StoreTicket` | backend/migrations/versions/20260717_0027_task_unit_execution_tickets.py:163-386 | A ticket is stored exactly under the admission rule in force since the retry policy |
| `RunAggregate.TaskRun.TransitionAttempt` | backend/migrations/versions/20260716_0023_task_dispatch_prerequisites.py:1946-2019 | An attempt transition has exactly its specified effect or none |
| `RunAggregate.TaskRun.TransitionUnit` | backend/migrations/versions/20260716_0023_task_dispatch_prerequisites.py:1883-1944 | A unit transition has exactly its specified effect or none |
| `RunAggregate.TaskRun.TransitionRun` | backend/migrations/versions/20260716_0023_task_dispatch_prerequisites.py:1826-1881 | A run transition has exactly its specified effect or none |
| `InfraRerun.SelectionIsForced` | backend/migrations/versions/20260717_0031_task_infra_failure_rerun.py:107-159 | A child list is the exact selection - the bindings of the units that read CLOSED and INFRA_ERROR and no other, numbered from 1 in code point order of their keys - if and only if it is the expected one |
| `InfraRerun.ChildIsForced` | backend/migrations/versions/20260717_0031_task_infra_failure_rerun.py:64-161 | A run without selection mode is left alone; with one, its manifest is accepted if and only if the run is a queued, materializing, API-triggered INFRA_FAILURES rerun of a stored, sealed, CLOSED run with the same configuration and the list is the non-empty exact selection |
| `InfraRerun.RerunIsAdmissible` | backend/migrations/versions/20260716_0023_task_dispatch_prerequisites.py:2611-2727 | A non-empty forced list passes every unit check of the ordinary manifest guard that its parent passed |
| `InfraRerun.SealedRunCanBeRerun` | backend/migrations/versions/20260717_0031_task_infra_failure_rerun.py:155-159 | For every reachable sealed run: with a unit CLOSED and INFRA_ERROR the forced list is admissible, without one no child is accepted |
| `InfraRerun.ChildKeys` | backend/migrations/versions/20260717_0031_task_infra_failure_rerun.py:107-154 | The child's keys are exactly those of the units that read CLOSED and INFRA_ERROR, a subset of the parent's |
| `InfraRerun.ChainPasses` | backend/migrations/versions/20260717_0031_task_infra_failure_rerun.py:50-161 | Every run along a rerun chain has a manifest that passes |
| `InfraRerun.KeysShrink` | backend/migrations/versions/20260717_0031_task_infra_failure_rerun.py:50-161 | Along a chain the key sets only shrink and a key keeps its binding |
| `InfraRerun.ChainIsShort` | backend/migrations/versions/20260717_0031_task_infra_failure_rerun.py:50-161 | If in each run but the last some unit did not fail, a chain has at most 64 runs |
| `InfraRerun.RerunsCompose` | backend/migrations/versions/20260717_0031_task_infra_failure_rerun.py:50-161 | For runs reached through all the guards, each accepted as the rerun of the one before: every manifest passes, the keys only shrink and a key keeps its binding |
| `InfraRerun.RerunsAreAdmissible` | backend/migrations/versions/20260717_0031_task_infra_failure_rerun.py:50-161 | If the first manifest of such a chain passes the plan and digest checks, so does every later one |
| `EventLog.LogIsFaithful` | backend/migrations/versions/20260716_0022_task_execution_hosts.py:1450-1566 | Event numbers are exactly 1..n, and per run, unit or attempt the recorded states sample its true history in order, each reachable from the earlier ones |
| `EventLog.EventsLeadToNow` | backend/migrations/versions/20260716_0022_task_execution_hosts.py:1548-1552 | Every recorded state reaches the current one |
| `EventLog.QualityChangesOnce` | backend/migrations/versions/20260716_0022_task_execution_hosts.py:1548-1552 | Among the events of one row the quality changes at most once |
| `EventLog.NextNumber` | backend/migrations/versions/20260716_0022_task_execution_hosts.py:1553-1559 | Over numbers 1..n, max + 1 is n + 1 |
| `EventLog.Floor` | backend/migrations/versions/20260716_0022_task_execution_hosts.py:1462-1472 | The floor is at or after the base and every milestone reached |
| `EventLog.FloorIsLeast` | backend/migrations/versions/20260716_0022_task_execution_hosts.py:1462-1472 | No earlier time is at or after the base and every milestone reached |
| `EventLog.TaskLog.constructor` | backend/migrations/versions/20260716_0022_task_execution_hosts.py:804-858 | An empty log satisfies the invariant |
| `EventLog.TaskLog.InsertRow` | backend/migrations/versions/20260716_0022_task_execution_hosts.py:1336-1387 | A row is inserted exactly in an initial state |
| `EventLog.TaskLog.Transition` | backend/migrations/versions/20260716_0023_task_dispatch_prerequisites.py:1826-2019 | A row moves exactly by accepted updates |
| `EventLog.TaskLog.InsertEvent` | backend/migrations/versions/20260716_0022_task_execution_hosts.py:1450-1566 | An event is stored exactly if it reports its narrowest row as it is, with the next number, not before its milestones |
| `DebugRun.PassedRunWasBound` | backend/migrations/versions/20260715_0016_runtime_evidence.py:426-518 | A stored run that reads PASSED, whatever state it was inserted in, was inserted as CREATED; it was BINDING, READY and RUNNING in this order and stored its complete, verified PASSED manifest, with equal contract and digests, while RUNNING; it has had one contract since it left CREATED, and all actors of this contract were bound at a moment when it was still CREATED |
| `DebugRun.BoundWhileCreated` | backend/migrations/versions/20260715_0016_runtime_evidence.py:454-481 | Before a run was BINDING there was a moment when it was CREATED and all actors of the contract it took were bound |
| `DebugRun.CountBindsAll` | backend/migrations/versions/20260715_0016_runtime_evidence.py:470-479 | Comparing the number of bound actors suffices: it means all of them |
| `DebugRun.ResultIsFinal` | backend/migrations/versions/20260715_0014_debug_runs.py:324-337 | A terminated run keeps contract, evidence, failure and outcome in every continuation |
| `DebugRun.RunsKeepValid` | backend/migrations/versions/20260715_0016_runtime_evidence.py:426-518 | All invariants hold in every run of contract, actor and manifest inserts and updates |
| `DebugRun.BeforeRunning` | backend/migrations/versions/20260715_0014_debug_runs.py:300-322 | A RUNNING state was reached through CREATED, BINDING and READY, each a contiguous phase |
| `DebugRun.NextLifecycles` | backend/migrations/versions/20260715_0014_debug_runs.py:300-322 | In every reachable world, exactly which lifecycle an accepted update can reach: BINDING from CREATED if and only if some stored contract has all its actor slots bound, the others unconditionally |
| `DebugRun.HistoryKeeps` | backend/migrations/versions/20260715_0014_debug_runs.py:264-345 | Over any number of updates: the request is frozen, what is once set stays, the revision counts, and of a terminated run only the outdated mark changes |
| `DebugRun.StatesAreConsistent` | backend/migrations/versions/20260715_0014_debug_runs.py:116-178 | In every state of a run outcome, start, evidence, contract and times agree with its lifecycle |
| `DebugRun.InsertableMeans` | backend/migrations/versions/20260715_0014_debug_runs.py:98-178 | Which runs can be inserted, exactly: CREATED, or FINALIZING or TERMINATED without contract, evidence and with any outcome but PASSED, times in order |
| `DebugRun.DebugRunRow.constructor` | backend/migrations/versions/20260715_0014_debug_runs.py:20-178 | A run inserted in any state the CHECKs allow without a contract and a manifest, which cannot be stored before it |
| `DebugRun.DebugRunRow.InsertContract` | backend/migrations/versions/20260715_0016_runtime_evidence.py:843-957 | A contract is stored exactly for a current, uncanceled run in CREATED that has none |
| `DebugRun.DebugRunRow.InsertBinding` | backend/migrations/versions/20260715_0016_runtime_evidence.py:960-1062 | An actor is bound exactly if its contract names the slot and it is still free |
| `DebugRun.DebugRunRow.InsertManifest` | backend/migrations/versions/20260715_0016_runtime_evidence.py:610-639 | A manifest is stored exactly for the RUNNING run with the same contract and digests, once |
| `DebugRun.DebugRunRow.Change` | backend/migrations/versions/20260715_0014_debug_runs.py:264-345 | An update applies exactly if both triggers and all shapes accept it |
| `FixtureIntent.CheckMeans` | backend/migrations/versions/20260714_0012_fixture_cleanup_reconcile.py:49-57 | The exact meaning of the intent CHECK under three-valued logic, and when it is definitely true |
| `FixtureIntent.UpdatesExactly` | backend/migrations/versions/20260714_0012_fixture_cleanup_reconcile.py:403-481 | Which update of a stored run is accepted, exactly: status, intent, cancellation, cleanup, generation and revision |
| `FixtureIntent.ReachedExactly` | backend/migrations/versions/20260714_0012_fixture_cleanup_reconcile.py:403-481 | Exactly which combinations of status and intent occur in some stored run, and exactly which in some run stored as requested |
| `FixtureIntent.IntentDecides` | backend/migrations/versions/20260714_0012_fixture_cleanup_reconcile.py:427-431 | For a run stored in any state: once recorded, the intent stays and the run is only ever where it allows |
| `FixtureIntent.IntentCanSettle` | backend/migrations/versions/20260714_0012_fixture_cleanup_reconcile.py:432-450 | A run with an intent, however stored, can always settle as it says in at most two more updates |
| `FixtureIntent.UndecidedSettlement` | backend/migrations/versions/20260714_0012_fixture_cleanup_reconcile.py:49-57 | For every stored run and intent: the run can still settle so if and only if that intent is recorded, or none is and the run is not RELEASED |
| `FixtureIntent.FailedRunCanRelease` | backend/migrations/versions/20260714_0012_fixture_cleanup_reconcile.py:49-57 | A counterexample: a requested run that read FAILED ends RELEASED |
| `FixtureIntent.CleanupFailedRunCanFail` | backend/migrations/versions/20260714_0012_fixture_cleanup_reconcile.py:403-481 | A counterexample: a run stored as CLEANUP_FAILED without intent ends FAILED |
| `FixtureIntent.ReleasedIsFinal` | backend/migrations/versions/20260714_0012_fixture_cleanup_reconcile.py:451-453 | A RELEASED run is never updated again |
| `FixtureIntent.CleanupProgresses` | backend/migrations/versions/20260714_0012_fixture_cleanup_reconcile.py:454-477 | CLEANED and NOT_REQUIRED are never left; generation stays within 0 and 1000 and grows by at most one, the positive revision by one per update |
| `FixtureIntent.FixtureRun.constructor` | backend/migrations/versions/20260714_0012_fixture_cleanup_reconcile.py:403-481 | A run is stored in any state the CHECKs allow, since no trigger guards inserts |
| `FixtureIntent.FixtureRun.Update` | backend/migrations/versions/20260714_0012_fixture_cleanup_reconcile.py:403-481 | An update applies exactly if trigger and CHECK accept it |
| `Acceptance.P95IsNearestRank` | backend/scripts/run_p9_acceptance.py:255-260 | For every non-empty list the result is the one sample with at least 95% at or below it and strictly fewer than 95% below it; an empty list is an error |
| `Acceptance.RankInRange` | backend/scripts/run_p9_acceptance.py:259 | The rank lies in 1..n and is 95% of n rounded up |
| `Acceptance.GateIsExact` | backend/scripts/run_p9_acceptance.py:346-425 | The floored basis-point gate at 9500 holds exactly when 20 passes >= 19 runs |

## Left out

- RunAggregate.TaskRun.SealMaterialization: the recomputed digests and the queries for published dependencies and current role bindings are one boolean parameter, because they read tables outside the run.
- RunAggregate.TaskRun.StoreManifest: digests over the whole manifest are one boolean parameter; the unit checks against the plan are `Manifests.Admissible`.
- RunAggregate.TaskRun.StoreAttempt: the deterministic workflow identity and the queue and deadline times of an attempt are not modelled, because nothing here depends on them.
- CommandTable.Commands.CreateRun: plan readiness and the workflow identity of a new run are not modelled, because commands do not depend on them.
- CommandTable.Commands.SealRun: the manifest, counts and start intent of the seal are in `RunAggregate`, because commands only need that the run is sealed.
- EventLog.TaskLog.InsertRow: the parents and manifest bindings of units and attempts are in `RunAggregate`; the log only needs the initial state.
- EventLog.TaskLog.Transition: that the run is sealed is in `TaskStates.TaskRow.Transition` and `RunAggregate`; the log results hold without it.
- RunAggregate.TaskRun.StoreTicket: the copied dependency columns, the deadline and the ticket digest are one boolean parameter.
- DebugRun.DebugRunRow.InsertContract: fixture and snapshot agreement are one boolean parameter.
- DebugRun.DebugRunRow.InsertBinding: lease, role, fixture and browser-session freshness are one boolean parameter.
- DebugRun.DebugRunRow.InsertManifest: the verdict derivation is one boolean parameter here; it is modelled in `EvidenceVerdict` and joined to the run in `EvidenceRun`.  The time window of the manifest and its fixture digests are not modelled.
- EvidenceRun.PassedRunIsTrustworthy: the joint history is modelled on values; the rows changed in place are the classes of `DebugRun` and `ReportChain`.
- CommandTable.Commands.InsertCommand: the command, request and manifest digests are not columns of the model.
- EventLog.TaskLog.InsertEvent: event type, payload and the agreement of an attempt with the unit named beside it are not modelled.
- Row-level security, grants, role checks, indexes that enforce nothing, and migration plumbing.
- Format CHECKs on names, versions, origins and codes, and secret-key detection; the unit list's digest and UUID formats are modelled.
- Integer column ranges: `dispatch_attempts` and revisions are unbounded here.
- Insignificant whitespace, exponents and surrogate-pair escapes in the parser: the printer never writes them.
- Unique constraints on a command's client mutation id and digest, which can only refuse more inserts.
- `materialization_sealed_at` and its bound by `updated_at`; the seal time is kept in the start intent only.
- Legacy unsealed runs, which no procedure accepts.
- The debug run event log, which is numbered by the same rule as a run's event log.
- The reconcile states of data nodes and the cleanup states of resource records in the fixture schema: single-row graphs without interaction.
- Retry-policy contents beyond the ticket rule, and when a retry is scheduled.
- Profile, plan version and execution-contract content checks: membership of a unit in its plan is modelled, publication of profiles is not.
- Account leases, secret grants, session artifacts, read grants, live frames, fixture assets and drafts.
- Everything after migration 0031, downgrades and backfills.
- Subprocesses, JUnit parsing and report writing around the percentile and the gate.
- The workflow engine and the services that call the procedures: their source is not part of this model.
