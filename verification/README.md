# Zava agency platform: a verified model of its state machines

This project models the stateful and order-sensitive parts of the repository in Dafny and proves what
each of them promises over every input, every run or every interleaving. Where the code does not keep a
promise in full, the model keeps the code's behaviour and proves the exact condition under which the
promise holds.

| file | models |
|---|---|
| `Values.dfy`, `Rounding.dfy` | JSON values with Python's equality and truth, decimal text, half-even rounding over exact reals |
| `AuroraTopUp.dfy`, `AuroraSubsets.dfy`, `AuroraRuns.dfy`, `AuroraInterleaved.dfy`, `AuroraReport.dfy`, `AuroraService.dfy` | the Aurora budget signal: one call as a list of graph writes, crashes as prefixes of it, any subset of its rows, whole runs of calls and retries, retries after other calls, what a call returns and leaves, and the method itself over a mutable graph |
| `AuroraPolicy.dfy` | applying an approved freeze policy on top of the graph's deduplicating `record_decision`, with the read and the write as separate steps |
| `RunLedger.dfy`, `LedgerFields.dfy` | the two-record consecutive-run ledger against a scan of the whole run history, and what a published PASS means in its fields |
| `AuditChain.dfy`, `AuditTotals.dfy` | the audit hash chain: the in-place backfill and what it counts, the logger's append and the logger's verifier |
| `VisibilityTools.dfy`, `VisibilityReconcile.dfy`, `VisibilityStatuses.dfy`, `VisibilityCodes.dfy` | tool records under many aliases, the three-way reconciliation of calls, reasoning records and timeline rows, and which status codes it lets through |
| `VisibilityEvidence.dfy`, `VisibilityVolatile.dfy`, `VisibilityParity.dfy`, `VisibilityEquality.dfy`, `VisibilityReplay.dfy` | everything a workflow detail must satisfy, the evidence kept of it, volatile fields, whole snapshots, live against replay, what Python's equality leaves open, and which fields a replay may change |
| `Orchestration.dfy` | any number of clients racing through start-or-get on one instance store |
| `Snapshot.dfy` | save and restore of a database directory, with a failure or the end of the process possible at every step |
| `Authority.dfy` | the first-match authority rule matrix and the rewrites that preserve its answers |
| `DocuSign.dfy`, `SapLedger.dfy` | two mock services as classes whose invariants hold over every call sequence |
| `PackWiring.dfy` | two implementations each of domain ownership and persona-tree validation, and why they agree |
| `Claims.dfy` | the synthetic claim generator: labels, category rotation, and rounding that crosses no policy band |

Code that computes by expressions and recursion is modelled by functions; code that updates state is
modelled by methods with loops, or by classes, each proved equal to a specification function. The
properties are lemmas about those functions, so they carry over to the methods.

Behaviour that differs from what the code's own comments or the design promise, each stated by a lemma
with its exact condition, and a concrete input where one helps:

- a budget signal that stops inside a row, after writing it and before its last link, never converges (`AuroraTopUp.RetryConvergesExactly`, `AuroraTopUp.TornRowNeverHeals`);
- the fifth row is a negative amount for gaps strictly between 2.5 and 3.5 pence (`AuroraTopUp.LastRowNegativeExactly`);
- the half-penny guarantee needs an initial spend that is not negative, or not by more than the brand's targets can show (`AuroraRuns.GuaranteeNeedsNonNegativeSpend`);
- a signal retried after other calls on its brand, with a gap left to fill, lands on its target exactly when they left the amount per row as it was, or rounding makes up for the change; with no gap left, exactly when the spend is at most half a penny over it (`AuroraInterleaved.InterleavedRetryExactly`; `AuroraInterleaved.InterleavedRetryOvershoots` is a run that misses by a quarter);
- two approvals racing for one policy are both told they were applied (`AuroraPolicy.RacingApprovalsBothReportApplied`);
- a ledger whose last record has a truthy, non-object `teardown` makes its reader raise instead of being ignored (`RunLedger.PoisonExactly`, `RunLedger.PoisonedLedgerCostsAPair`);
- a restore that fails puts the live database back only on an exact condition, because an archive refused by `SystemExit` skips the rollback (`Snapshot.FailedRestorePutsBackExactly`), and never puts the sidecar back (`Snapshot.FailedRestoreKeepsSidecarExactly`); a second restore after one interrupted while extracting destroys the only backup (`Snapshot.RerunAfterInterruptedExtractLosesDatabase`); and a missing sidecar rehydrates modules from an older snapshot (`Snapshot.MissingSidecarLoadsOldOne`);
- status codes of a reasoning record and a timeline row are guaranteed to match if and only if the call reports a code (`VisibilityCodes.CodesMatchExactly`, `VisibilityCodes.CodesMayDiffer`);
- an amber claim can equal the cap although its reasoning text says above (`Claims.AmberIsAboveCapExactly`), and all 5x4 cells appear only from twenty claims on (`Claims.AllCellsExactly`).

## Model

| member | source | states |
|---|---|---|
| Rounding.HalfEven | verticals/agency/aurora.py:102-122 | `round` returns a nearest integer, and the even one on a tie |
| Rounding.HalfEvenUnique | verticals/agency/aurora.py:102-122 | that description determines the result |
| Rounding.HalfEvenEvenShift | verticals/agency/aurora.py:102-122 | rounding commutes with even shifts, the reason why four equal rows and a remainder add up |
| AuroraTopUp.RowsSumToRoundedGap | verticals/agency/aurora.py:101-122 | the five row amounts sum exactly to the gap rounded to pence |
| AuroraTopUp.LastRowWithinTwoPence | verticals/agency/aurora.py:101-122 | the fifth row differs from the other four by at most two pence |
| AuroraTopUp.LastRowNegativeExactly | verticals/agency/aurora.py:118-122 | the fifth row is negative if and only if the gap lies strictly between 2.5 and 3.5 pence |
| AuroraTopUp.RetryConvergesExactly | verticals/agency/aurora.py:81-156 | a call stopped after any write and repeated reaches the final graph of an uninterrupted call if and only if no row was torn; then the writes are exactly those still missing and the returned figures are equal |
| AuroraTopUp.ResumeAtBoundary | verticals/agency/aurora.py:115-141 | stopping after any whole number of rows is always such a clean stop |
| AuroraTopUp.TornRowNeverHeals | verticals/agency/aurora.py:115-141 | stopping inside a row, before its last link, leaves a graph that no retry repairs |
| AuroraTopUp.RepeatWritesNothing | verticals/agency/aurora.py:81-156 | a further call after a complete one writes nothing and returns the same figures |
| AuroraSubsets.AnySubsetConverges | verticals/agency/aurora.py:81-156 | with any subset of the five rows written whole, in any order, the retry reaches the final graph and figures of an uninterrupted call, and a further call writes nothing |
| AuroraRuns.CallSpend | verticals/agency/aurora.py:98-143 | a call that finds all or none of its rows moves only its own brand's spend, never down, and from a non-negative spend to within half a penny of the larger of that spend and the target |
| AuroraRuns.OtherBrandsCommute | verticals/agency/aurora.py:81-141 | calls on different brands commute, wherever each of them stops |
| AuroraRuns.CrashesLeaveNoTrace | verticals/agency/aurora.py:65-156 | a run whose interrupted calls stop between rows and are their brand's next call again ends in the graph of the same run without interruptions, whatever other brands do in between |
| AuroraRuns.SpendTracksPeakTarget | verticals/agency/aurora.py:98-143 | over any run of signals on any brands, with retries and clean crashes, a brand's spend ends within half a penny of the larger of its start and the largest completed target, so rounding never accumulates |
| AuroraRuns.GuaranteeNeedsNonNegativeSpend | verticals/agency/aurora.py:72-143 | on a graph with no rows of the brand's signals, every accepted signal ends within half a penny of the larger of spend and target if and only if the spend is at least zero, or, for budgets below a quarter penny, at least twice the budget less half a penny |
| AuroraInterleaved.RetrySpend | verticals/agency/aurora.py:98-143 | a retry that finds the first rows of its signal, from any graph, adds exactly the remaining rows of the new gap |
| AuroraInterleaved.RetryLandsExactly | verticals/agency/aurora.py:98-143 | with a gap left it ends within half a penny of its target if and only if the amount per row is unchanged, or rounding makes up for a one-penny change of a single row |
| AuroraInterleaved.InterleavedRetryExactly | verticals/agency/aurora.py:81-143 | the same for a signal that stops after any of its rows and is retried after any other calls, on any brand, stopping anywhere; with no gap left the retry writes nothing and has landed if and only if the spend is at most half a penny over the target |
| AuroraInterleaved.InterleavedRetryOvershoots | verticals/agency/aurora.py:98-122 | with another workflow's top-up between crash and retry, a target of 10000 pence ends at 12400 |
| AuroraService.ObserveBudgetSignal | verticals/agency/aurora.py:65-156 | the method's graph, write log and result are those of the call model, errors included |
| AuroraService.ExistingRows | verticals/agency/aurora.py:86-96 | the first loop finds exactly the signal's own rows and their total |
| AuroraService.WriteRow | verticals/agency/aurora.py:123-141 | one row step appends the row and then its links to the log, in that order |
| AuroraService.FillGap | verticals/agency/aurora.py:86-143 | from reading the spend to reading it again: the original spend, the gap, the writes and the spend they leave |
| AuroraService.EntityGraph.QuerySpend | verticals/agency/aurora.py:49-56 | the spend query sums the rows costed to the brand |
| AuroraReport.RefusedExactly | verticals/agency/aurora.py:72-79 | a signal is refused if and only if its target is outside 0 to 2, its brand unknown or its budget missing or not positive, in that order, and then writes nothing |
| AuroraReport.ReportMeaning | verticals/agency/aurora.py:86-156 | every accepted signal reports the spend without its own five rows, never below zero, as before, the spend of the graph it leaves as after, both also as shares of the budget, and the gap from before to target, each a nearest unit; and its five row ids or none |
| AuroraReport.FreshReport | verticals/agency/aurora.py:98-156 | a signal that finds none of its rows leaves rows that add up to the gap it reports, the first four equal, and from a non-negative spend its reported spends differ by that gap to within a penny |
| AuroraReport.RowsLeft | verticals/agency/aurora.py:115-141 | such a signal leaves exactly its five rows, or none, each linked to the brand, the account and the period and to nothing else |
| AuroraReport.ReportedName | verticals/agency/aurora.py:148 | a brand without a name, or an empty one, is reported under its id |
| AuroraPolicy.EveryDecisionIsUniqueAndAuthorised | verticals/agency/aurora.py:168-249 | from a graph with no policy decision, any interleaving of calls leaves at most one per workflow and role, each recorded by an approved call whose role the kernel allows and carrying that call's approval, rule, role and brand |
| AuroraPolicy.AppliedCallIsStable | verticals/agency/aurora.py:195-218 | after an applied call and anything else, an authorised retry with the same approval gets the same decision back, another approval gets a conflict, and neither changes the graph |
| AuroraPolicy.LateWriteReportsTruthExactly | verticals/agency/aurora.py:195-249 | a call whose read came too early reports "applied"; the report is true of the graph if and only if no other approval's decision landed in between |
| AuroraPolicy.RacingApprovalsBothReportApplied | verticals/agency/aurora.py:195-249 | two different approvals racing for one workflow and role are both told they were applied while one decision exists |
| AuroraPolicy.ApplyApprovedPolicy | verticals/agency/aurora.py:159-249 | the method makes the specified step: every rejection in the source's order, duplicate, conflict or new decision |
| AuroraPolicy.DecisionGraph.RecordDecision | api/server/services/entity_graph.py:1154-1209 | recording a decision of any phase returns the existing one of the same workflow, phase and role unchanged, or appends this one |
| AuroraPolicy.DecisionGraph.QueryOne | verticals/agency/aurora.py:195-200 | the query finds the decision of a workflow and role when there is one |
| AuroraPolicy.GuardExactly | verticals/agency/aurora.py:168-193 | a call passes the checks if and only if it was approved, under a decision id that is not blank, for a freeze of purchase orders on its brand alone, by a role the kernel allows |
| AuroraPolicy.AppliedExactly | verticals/agency/aurora.py:168-249 | a call reports applied, or adds a decision, only with all of that; the added decision records the workflow, the role, the freeze, the approval, the governing rule and the brand |
| RunLedger.RecordRoundTrip | tools/travel_zava_e2e_proof.py:122-184 | a record built from a clean manifest passes the reader's check unless its run id or commit is empty |
| RunLedger.LedgerIsLastRun | tools/travel_zava_e2e_proof.py:187-247 | after any history the ledger offers its reader exactly the last effective run, unless that is a clean first run that met a ledger which makes the reader raise |
| RunLedger.NeverRaisesLater | tools/travel_zava_e2e_proof.py:136-154 | once a run has been effective, reading the ledger cannot raise, whatever was there before |
| RunLedger.LedgerRefinesHistoryScan | tools/travel_zava_e2e_proof.py:976-1084 | for every history of clean, unclean and crashed runs, from any starting ledger, the two-record ledger publishes the verdict of a scan over the whole history if and only if the run finishes with a manifest that can be judged and the starting ledger is forgotten, as it is after two effective runs |
| RunLedger.PoisonedLedgerCostsAPair | tools/travel_zava_e2e_proof.py:136-154 | two good consecutive runs earn PASS if and only if the starting ledger's last record does not make the reader raise |
| RunLedger.PoisonExactly | tools/travel_zava_e2e_proof.py:136-154 | the reader raises if and only if `teardown` is truthy and not an object in a record that would be clean with a proper one |
| RunLedger.PoisonExists | tools/travel_zava_e2e_proof.py:140-153 | such a record is any clean one with a non-empty list as `teardown` |
| RunLedger.ProofRoot.RunProof | tools/travel_zava_e2e_proof.py:955-1084 | read, clear and write in the source's order, with the process ending at any point, make the specified step |
| LedgerFields.ManifestExactly | tools/travel_zava_e2e_proof.py:122-133 | a manifest is clean if and only if its four results are PASS, the review is pending, there is no browser error, failure, dropped event or orphan port |
| LedgerFields.RecordExactly | tools/travel_zava_e2e_proof.py:136-154 | a record is clean if and only if it says the same of itself and has an id, a commit, a fingerprint and ordered times |
| LedgerFields.PublishedPairIsClean | tools/travel_zava_e2e_proof.py:250-274 | from any starting ledger, a PASS published anywhere in any history shows two such records of one commit and fingerprint, with different ids, one complete before the other starts |
| LedgerFields.PassExactly | tools/travel_zava_e2e_proof.py:187-274 | from an empty directory a run publishes PASS if and only if it finished, it and the last effective run before it are clean in their own fields, and the two match in that way |
| LedgerFields.ForeignLedgerIgnored | tools/travel_zava_e2e_proof.py:196-203 | a ledger of another vertical, or no ledger at all, changes nothing |
| AuditChain.VerifyChain | api/server/services/audit_logger.py:697-741 | the verifier returns the first bad entry, and none exactly for intact chains |
| AuditChain.ChainInPlace | scripts/agt_backfill_chain.py:90-105 | the loop turns the array into the chain over its payloads and counts exactly the entries that changed |
| AuditChain.Reseal | scripts/agt_backfill_chain.py:92-105 | one turn rewrites the two hash fields of one entry and moves the running hash on |
| AuditChain.BackfilledIsIntact | scripts/agt_backfill_chain.py:90-105 | the result of a backfill is accepted by the verifier, whatever it started from |
| AuditChain.BackfilledFields | scripts/agt_backfill_chain.py:90-105 | each entry of a backfilled log names the hash stored before it, stores the digest of everything else, and keeps the rest of its fields |
| AuditChain.IntactIsFixedPoint | scripts/agt_backfill_chain.py:90-108 | the logs a backfill leaves unchanged are exactly the intact ones |
| AuditChain.NoChangesMeansIntact | scripts/agt_backfill_chain.py:103-108 | zero changes are reported if and only if the log was intact |
| AuditChain.BackfillIdempotent | scripts/agt_backfill_chain.py:90-105 | a second backfill of a log is the identity |
| AuditChain.ChainDependsOnPayloads | scripts/agt_backfill_chain.py:93-101 | the result depends on the payload sequence alone, not on hashes the log carried before |
| AuditChain.OneValidChain | scripts/agt_backfill_chain.py:90-105 | two intact logs with the same payloads are equal |
| AuditChain.ValidPrefixUntouched | scripts/agt_backfill_chain.py:92-105 | everything before the first bad entry keeps its value, and that entry changes |
| AuditChain.AppendingKeepsIntact | api/server/services/audit_logger.py:536-576 | the logger's append writes what a backfill of the longer log would write, so it keeps the chain intact |
| AuditChain.LastHashDeterminesChain | api/server/services/audit_logger.py:136-147 | two intact logs of one length with the same last hash are equal if and only if the digest does not collide on what they hash at the same place |
| AuditChain.EditMovesFinalHash | scripts/agt_backfill_chain.py:91-105 | two logs of one length have the same payloads if and only if they reseal to the same final hash without such a collision |
| AuditChain.LengthIsPinned | scripts/agt_backfill_chain.py:91-105 | chains of different lengths that end in the same hash contain a collision between them, or one comes back to the genesis value |
| AuditChain.LedgerRoot.BackfillBlob | scripts/agt_backfill_chain.py:68-120 | one file: unparsable content raises and writes nothing, a dry run writes nothing, otherwise the file becomes its chain |
| AuditChain.LedgerRoot.BackfillAll | scripts/agt_backfill_chain.py:141-173 | the totals and files of a whole run, and what a run that stops at a bad file leaves behind |
| AuditChain.InterruptedRunConverges | scripts/agt_backfill_chain.py:146-164 | a run cut short after any file and started again ends where an uninterrupted run ends |
| AuditChain.SecondRunIsNoOp | scripts/agt_backfill_chain.py:146-164 | a second run reports no change and rewrites no file |
| AuditTotals.ChangedCounts | scripts/agt_backfill_chain.py:90-108 | the changes reported for a log are the number of places where the backfilled one has another entry |
| AuditTotals.TotalsCount | scripts/agt_backfill_chain.py:141-173 | a run reports the number of entries read, of places where the files it leaves differ from those it found, and of files that differ |
| VisibilityTools.ToolRecordsById | tools/workflow_visibility_proof.py:397-465 | indexing succeeds exactly when every record is an object with its own non-blank id (equal to the row id for timeline rows), and the index finds each record under its id |
| VisibilityTools.NormalizedToolStatus | tools/workflow_visibility_proof.py:488-528 | normalizing succeeds exactly when all status fields are comparable and agree; it returns the one code and the one outcome they report |
| VisibilityTools.ReadCodes | tools/workflow_visibility_proof.py:493-500 | the code loop collects the codes of the fields present, or rejects a code that is no integer |
| VisibilityReconcile.CanonicalSuffices | tools/workflow_visibility_proof.py:739-784 | comparing every alias with the call's first one is comparing every two aliases of the records |
| VisibilityReconcile.CheckValues | tools/workflow_visibility_proof.py:739-784 | the alias loops accept exactly the records whose requests, responses and durations agree under every alias |
| VisibilityReconcile.CheckStatuses | tools/workflow_visibility_proof.py:786-820 | the status block accepts exactly when call and row report an outcome and nothing reported contradicts the call |
| VisibilityReconcile.ValidateTools | tools/workflow_visibility_proof.py:678-832 | the reconciler accepts exactly the three collections that are indexable, share their ids and agree record by record |
| VisibilityReconcile.AcceptedToolsAreInBijection | tools/workflow_visibility_proof.py:708-735 | acceptance makes the three collections equally long with the same non-empty ids, each once |
| VisibilityReconcile.AcceptedCallHasPartners | tools/workflow_visibility_proof.py:735-832 | every accepted call has exactly one reasoning record and one timeline row, and they agree with it |
| VisibilityReconcile.AgreementIsOneOutcome | tools/workflow_visibility_proof.py:786-820 | all outcomes that three agreeing records report are one outcome, and every code they report is consistent with it |
| VisibilityReconcile.AgreementIsOneValue | tools/workflow_visibility_proof.py:739-784 | any two aliases of one value in any two of the three records hold equal values |
| VisibilityReconcile.CodesAgreeWithTheCalls | tools/workflow_visibility_proof.py:809-817 | when the call reports a code, every code reported is that one |
| VisibilityStatuses.StatusesExactly | tools/workflow_visibility_proof.py:488-528 | statuses are accepted if and only if every status field of the three records can be read and tells one outcome, codes from 200 to 399 and four words being success, call and row tell it, and no code contradicts the call's or another of its record |
| VisibilityStatuses.AcceptedRecordsSay | tools/workflow_visibility_proof.py:735-832 | every accepted call has one outcome, told by its partners too; every code any of them shows is from 200 to 399 exactly when it succeeded |
| VisibilityStatuses.FailedCallRefusesSuccess | tools/workflow_visibility_proof.py:809-820 | a call with a code such as 404 is never accepted with a row that claims success |
| VisibilityStatuses.ValuesExactly | tools/workflow_visibility_proof.py:468-485 | requests, responses and durations agree if and only if the call shows each under one of the listed aliases, every alias in the three records shows an equal one, and the row shows a duration |
| VisibilityStatuses.IdAndName | tools/workflow_visibility_proof.py:397-429 | which field holds the id and which the name: a present id wins even when null, a null name gives way |
| VisibilityCodes.CodesMatchExactly | tools/workflow_visibility_proof.py:786-820 | for a call that is accepted at all, no reasoning record and timeline row accepted with it report different codes if and only if the call reports a code |
| VisibilityCodes.CodesMayDiffer | tools/workflow_visibility_proof.py:809-817 | three whole records, codes 200 and 204, that the reconciler accepts together |
| VisibilityEvidence.ValidatePhaseReferences | tools/workflow_visibility_proof.py:365-394 | the loop accepts exactly the timelines in which every phase named by a row, in any of three ways, is declared |
| VisibilityEvidence.ValidateReasoning | tools/workflow_visibility_proof.py:607-641 | the loop accepts exactly the reasoning rows with an agent run, a completion, declared phases and a list of tool calls |
| VisibilityEvidence.ValidateDecisions | tools/workflow_visibility_proof.py:644-675 | the loop accepts exactly the timelines whose decisions on human gates name a known persona, a verdict and a reason |
| VisibilityEvidence.ValidateOptionalRows | tools/workflow_visibility_proof.py:537-584 | the loop accepts exactly the timelines whose lineage, output, retry and exception rows carry what they must |
| VisibilityEvidence.CheckTimeline | tools/workflow_visibility_proof.py:846-944 | the checks before the tools, in the order of the code, accept exactly the timelines that start once, end once as the status announces, and have sound rows of the kinds required |
| VisibilityEvidence.CollectEvidence | tools/workflow_visibility_proof.py:846-975 | evidence is returned exactly for details with a sound timeline and reconciled tools; it is the detail without its volatile fields |
| VisibilityEvidence.LifecycleExactly | tools/workflow_visibility_proof.py:868-907 | the lifecycle check passes if and only if exactly one row starts the workflow, exactly one row is terminal, and that one fits the workflow's status |
| VisibilityVolatile.RowChecksKept | tools/workflow_visibility_proof.py:346-394 | no check of a single row depends on a volatile field |
| VisibilityVolatile.ReconciledKept | tools/workflow_visibility_proof.py:678-832 | reconciliation does not depend on volatile fields of calls and rows, durations of tool rows not being volatile |
| VisibilityVolatile.VolatileFieldsDoNotMatter | tools/workflow_visibility_proof.py:835-975 | details that differ in volatile fields only, reasoning rows keeping the visibility of `completedAt`, get the same verdict and leave the same evidence |
| VisibilityParity.VerifyDetails | tools/workflow_visibility_proof.py:978-1024 | a snapshot verifies exactly when contracts exist, every detail is fine, inspected ids are distinct and every contract type occurs; the result maps each id to its evidence |
| VisibilityParity.CleanGrows | tools/workflow_visibility_proof.py:991-1015 | one more detail keeps a prefix clean exactly when it is fine itself and, unless skipped, brings a new id |
| VisibilityParity.VerifyLiveAndReplay | tools/workflow_visibility_proof.py:1027-1067 | acceptance means both sides verify, hold the same ids, and leave equal evidence for each; the replay's map is returned |
| VisibilityParity.OrderDoesNotMatter | tools/workflow_visibility_proof.py:978-1024 | reordering the details changes neither the verdict nor the map |
| VisibilityParity.RecordsUnique | tools/workflow_visibility_proof.py:988-1015 | a snapshot determines its map |
| VisibilityParity.ParityReordered | tools/workflow_visibility_proof.py:1027-1067 | reordering either snapshot does not change the comparison |
| VisibilityParity.VolatileFieldsCannotChangeTheVerdict | tools/workflow_visibility_proof.py:1027-1067 | rewriting volatile fields on either side changes neither whether the pair is accepted nor the map returned |
| VisibilityParity.EvidencePinsDetail | tools/workflow_visibility_proof.py:953-975 | two accepted details leave identical evidence if and only if they differ in volatile fields only |
| VisibilityParity.FaithfulReplayPasses | tools/workflow_visibility_proof.py:1027-1067 | a replay with the same details in any order and with volatile fields of its own is accepted |
| VisibilityEquality.EqualEvidenceExactly | tools/workflow_visibility_proof.py:953-975 | two accepted details leave evidence that is equal to Python if and only if they differ in volatile fields only once numbers and truth values are normalized |
| VisibilityEquality.AcceptedReplayDiffersInVolatileFieldsOnly | tools/workflow_visibility_proof.py:1053-1067 | in an accepted pair of snapshots every live detail has a replay detail of the same id that differs from it in that sense only |
| VisibilityReplay.RowKeeps | tools/workflow_visibility_proof.py:953-963 | the evidence of a row drops the six time fields, the four durations unless it is a tool row, and nothing else |
| VisibilityReplay.WorkflowAndCallsKeep | tools/workflow_visibility_proof.py:965-974 | of the workflow it drops eight time fields, of a call the timestamp |
| VisibilityReplay.RestampedReplayPasses | tools/workflow_visibility_proof.py:1027-1067 | a verified snapshot passes against itself with any time field of any row rewritten, a reasoning row keeping a visible `completedAt` |
| VisibilityReplay.ChangedReplayFails | tools/workflow_visibility_proof.py:1053-1067 | with any other field of a row of an inspected workflow set to a value Python can tell apart, it is refused |
| VisibilityReplay.ToolDurationIsCompared | tools/workflow_visibility_proof.py:953-963 | in particular with another `durationMs` in a tool row |
| VisibilityReplay.AcceptedEnds | tools/workflow_visibility_proof.py:868-907 | an accepted workflow has one row labelled started and one labelled completed, failed or rejected, which is its status, or rejected for a failed one |
| VisibilityReplay.AcceptedRow | tools/workflow_visibility_proof.py:853-944 | every row of an accepted workflow shows id, kind and label and names declared phases only; phase, reasoning, human decision, lineage, output, retry and exception rows show what each of them must |
| VisibilityReplay.ToolRowsExactly | tools/workflow_visibility_proof.py:690-695 | the tool rows are those of kind tool whose id is no span |
| VisibilityReplay.VerifiedTypes | tools/workflow_visibility_proof.py:978-1024 | a verified snapshot has at least one contract and a detail of every type that has one |
| VisibilityReplay.VerifiedDetails | tools/workflow_visibility_proof.py:991-1015 | each detail of such a type is accepted and has an id that is not empty and no other such detail has |
| Orchestration.RunInv | api/functions/kernel_registration.py:9-42 | the inductive invariant of every interleaving: the creation log, the store and the clients' claims stay consistent |
| Orchestration.AtMostOneStarts | api/functions/kernel_registration.py:19-42 | over every interleaving an id is created at most once, at most one client is told it started it, and each normal return names the requested id, whose instance exists |
| Orchestration.ErrorEscapesOnlyWhenAbsent | api/functions/kernel_registration.py:34-42 | a create error reaches a client only if its second read had just found no instance |
| Orchestration.EveryErrorHasItsCause | api/functions/kernel_registration.py:16-42 | every error that ends a client comes from a status read that raised, a failed create without an id, or a second read that found nothing |
| Orchestration.CausesFail | api/functions/kernel_registration.py:16-42 | a client's step ends in an error if and only if one of those causes is there |
| Orchestration.MovesTerminate | api/functions/kernel_registration.py:19-42 | every client finishes within three steps of its own, whatever the others do |
| Orchestration.ExactlyOneWinner | api/functions/kernel_registration.py:19-42 | when nothing fails and all have finished, exactly one client of an absent id started it and the rest got it without error |
| Orchestration.EveryReturnIsTrue | api/functions/kernel_registration.py:16-42 | over every interleaving, a client told that an instance exists is told the status it had at one of the client's own reads; one told that it started it created it, absent until then, and gets no status |
| Orchestration.StartOrGet | api/functions/kernel_registration.py:9-42 | the function's own sequence of calls, others interleaved between them, is a run of the machine that ends in the outcome returned, and what a normal return tells was true at one of its steps |
| Orchestration.DurableHost.StartNew | api/functions/kernel_registration.py:27-34 | a create that returns an id created exactly that absent instance; one that raises created nothing, or that instance when it raised after creating; an id in use is never touched, nor another client |
| Snapshot.LiveDatabaseNeverLost | scripts/zava-snapshot.py:272-304 | at every step and stopping point of a restore, a database that was live is intact at the live path or in `.bak` |
| Snapshot.ExitMeaning | scripts/zava-snapshot.py:257-334 | code 0 means live is the snapshot and `.bak` the previous one; 3 that the previous one is live again; 2 that it still is; 1 that nothing changed; a refused archive leaves it in `.bak` |
| Snapshot.ExitsExactly | scripts/zava-snapshot.py:257-334 | every exit has its condition: refused for a bad name or an unsafe archive, 1 for a missing snapshot, 2 for a running server or a live database that cannot be renamed, 3 for a failed extraction that was undone, 0 for success, an exception otherwise |
| Snapshot.FailedRestorePutsBackExactly | scripts/zava-snapshot.py:274-304 | a restore that starts and does not succeed leaves the previous database live if and only if it never moved it, or the archive was not refused and the handler could clear the live path and rename `.bak` |
| Snapshot.FailedRestoreKeepsSidecarExactly | scripts/zava-snapshot.py:274-304 | after such a restore the portal's sidecar is the old one if and only if extraction did not begin, did not reach the sidecar or brought the same one: the handler does not put it back |
| Snapshot.SucceedsExactly | scripts/zava-snapshot.py:272-304 | past the checks, a restore succeeds if and only if the archive is sound and no rename, removal or extraction that it needs fails |
| Snapshot.RollbackPromotesStaleBackup | scripts/zava-snapshot.py:297-304 | with no live database, rollback makes a stale `.bak` live |
| Snapshot.NextRestoreKeepsExactly | scripts/zava-snapshot.py:274-279 | a restore that passes its checks keeps a database at every step if and only if nothing else occupies the live path |
| Snapshot.FailedRestoresKeepDatabase | scripts/zava-snapshot.py:257-304 | any number of failed, refused and interrupted restores keep the database, as long as none leaves something else live |
| Snapshot.RerunAfterInterruptedExtractLosesDatabase | scripts/zava-snapshot.py:274-296 | stopped while extracting and run again, a restore deletes the only copy of the database |
| Snapshot.SaveIsAtomic | scripts/zava-snapshot.py:243-248 | wherever a save stops, every snapshot is whole: the old or the new one, the rest untouched |
| Snapshot.SaveExitsExactly | scripts/zava-snapshot.py:223-254 | a save ends with 1 without a live database, is refused for a bad name, and otherwise adds exactly the live database and the collected states, or raises |
| Snapshot.SaveRestoreRoundTrip | scripts/zava-snapshot.py:188-334 | restoring a saved snapshot brings back the database and hands every module that could be dumped exactly what it dumped, for any dump and load functions; no other module changes |
| Snapshot.MemoryRoundTrip | scripts/zava-snapshot.py:188-220 | so a module whose load undoes its dump remembers what it did at the save |
| Snapshot.MissingSidecarLoadsOldOne | scripts/zava-snapshot.py:311-328 | a successful restore gives every process the module states of its archive if and only if the archive brings a sidecar or the one lying in the portal directory has nothing to load |
| Snapshot.Portal.CollectAmbientState | scripts/zava-snapshot.py:188-204 | the loop collects the memory of each listed module that imports and dumps, skipping the others |
| Snapshot.Portal.RestoreAmbientState | scripts/zava-snapshot.py:207-220 | the loop loads each payload into its module where that is possible and leaves the others alone |
| Snapshot.Portal.CmdSave | scripts/zava-snapshot.py:223-254 | the command goes through the specified disk states and exit codes |
| Snapshot.Portal.CmdRestore | scripts/zava-snapshot.py:257-334 | the command goes through the specified disk states and exit codes, and rehydrates modules only on success |
| Authority.ResolveScan | mocks/authority-mcp/resolver.ts:90-118 | the scan with early return computes the answer of the first well-formed rule that applies |
| Authority.ResolveMeaning | mocks/authority-mcp/resolver.ts:90-118 | no match means no rule applies; a match is the answer of the first that does |
| Authority.ResolveFields | mocks/authority-mcp/resolver.ts:61-113 | a match carries the approver, upper bound, escalation chain, id and basis of the first rule that is complete and whose action, fields and band, bounds included, fit the request |
| Authority.MalformedRulesAreSkipped | mocks/authority-mcp/resolver.ts:78-98 | resolving equals resolving over the well-formed rules alone |
| Authority.AppendingAfterMatch | mocks/authority-mcp/resolver.ts:90-113 | appending rules never changes a matched answer |
| Authority.ProbeValueDecides | mocks/authority-mcp/resolver.ts:67-76 | one band covers another for all values exactly when it does for one computed probe value |
| Authority.SubsumptionIsExact | mocks/authority-mcp/resolver.ts:61-104 | covering field by field, with wildcards and open bands, holds if and only if every request the second rule applies to is one the first applies to |
| Authority.DeletingDeadRule | mocks/authority-mcp/resolver.ts:90-118 | a rule covered by an earlier well-formed one can be deleted from any matrix |
| Authority.PruningPreservesAnswers | mocks/authority-mcp/resolver.ts:90-118 | deleting all covered and malformed rules preserves every answer |
| Authority.ExclusiveRulesCommute | mocks/authority-mcp/resolver.ts:90-118 | rules that never apply together may be arranged in any order |
| Authority.SwapExactly | mocks/authority-mcp/resolver.ts:90-118 | two adjacent rules may be swapped for a request if and only if one of them does not apply or they answer alike |
| Authority.AllowedExactly | mocks/authority-mcp/resolver.ts:120-148 | a role is allowed if and only if the first rule that applies names it as approver or in its escalation chain |
| Authority.CheckFields | mocks/authority-mcp/resolver.ts:120-148 | the authority check reports the id of the first rule that governs, and whether the role is its approver, else in its escalation chain, else neither |
| Authority.CheckInherits | mocks/authority-mcp/resolver.ts:120-148 | the authority check inherits skipping, pruning, reordering and appending |
| DocuSign.RunKeepsInv | mocks/docusign-mcp/server.ts:155-205 | over every sequence of sign and decline calls the stored status is that of the recipients and completion is audited at most once |
| DocuSign.CompletionAuditedExactly | mocks/docusign-mcp/server.ts:183-186 | completion is audited by exactly those calls that leave every recipient signed |
| DocuSign.StatusMoves | mocks/docusign-mcp/server.ts:155-205 | the only status changes one call can make: a decline that succeeds declines, a signature moves forward and never declines, a refused call changes nothing |
| DocuSign.TerminalStatuses | mocks/docusign-mcp/server.ts:155-205 | a declined envelope stays declined and a completed one can only become declined |
| DocuSign.SuccessRestoresStatus | mocks/docusign-mcp/server.ts:155-205 | any successful call makes the status right again, even where a PATCH had left it stale |
| DocuSign.StatusMeaning | mocks/docusign-mcp/server.ts:155-165 | which recipients make an envelope declined, completed, in progress or sent |
| DocuSign.CallMeaning | mocks/docusign-mcp/server.ts:167-205 | whom a call chooses, when it is refused and why, and that otherwise it sets status and time of the chosen recipient and of nobody else |
| DocuSign.UnnamedSignsFollowRouting | mocks/docusign-mcp/server.ts:170-187 | sign calls that name nobody sign a fresh envelope's n recipients in stable routing order, complete it with exactly the n-th and are refused from then on |
| DocuSign.StableOrderExists | mocks/docusign-mcp/server.ts:174-176 | every recipient list has such a stable order |
| DocuSign.AuditGrowth | mocks/docusign-mcp/server.ts:183-203 | a call only appends to the audit: nothing when refused, otherwise who acted and, if it declines or completes the envelope, that |
| DocuSign.CreatedEnvelopeSound | mocks/docusign-mcp/server.ts:96-125 | a created envelope satisfies the invariant with every recipient pending |
| DocuSign.CreatedFields | mocks/docusign-mcp/server.ts:101-121 | a created envelope carries the requested recipients in order, numbered ids and routing orders filling the gaps |
| DocuSign.SeedSound | mocks/docusign-mcp/server.ts:38-61 | a seeded envelope satisfies the invariant if and only if its written-in status is the one of its recipients |
| DocuSign.SixSeeds | mocks/docusign-mcp/server.ts:66-89 | the six seeds, by their patterns of recipients, satisfy the invariant |
| DocuSign.Service.Create | mocks/docusign-mcp/server.ts:96-125 | creating adds the envelope under its id or rejects missing fields, and keeps the invariant of all envelopes |
| DocuSign.Service.NextPending | mocks/docusign-mcp/server.ts:174-176 | filter, stable sort and head find the earliest pending recipient of the lowest order |
| DocuSign.Service.SignEnvelope | mocks/docusign-mcp/server.ts:167-187 | the handler makes the specified step on one envelope and leaves the others alone |
| DocuSign.Service.DeclineEnvelope | mocks/docusign-mcp/server.ts:189-205 | the handler makes the specified step on one envelope and leaves the others alone |
| SapLedger.RunKeepsInv | mocks/sap-s4-finance-mcp/server.ts:106-129 | over every sequence of creates and posts, ids stay unique, posted invoices and GL documents match one to one in amount and currency, and totals agree per currency |
| SapLedger.TotalAfterPosting | mocks/sap-s4-finance-mcp/server.ts:120-129 | posting moves one invoice's amount into the posted total of its currency and no other |
| SapLedger.RunKeepsPosted | mocks/sap-s4-finance-mcp/server.ts:120-129 | a posted invoice never changes again |
| SapLedger.NoSecondPosting | mocks/sap-s4-finance-mcp/server.ts:120-129 | after one successful post every later post of the invoice is refused with the same GL id and changes nothing |
| SapLedger.CreateMeaning | mocks/sap-s4-finance-mcp/server.ts:106-118 | when a create is refused, and otherwise one unposted invoice more, under a new id, with the vendor, currency, amount and description requested |
| SapLedger.PostMeaning | mocks/sap-s4-finance-mcp/server.ts:120-129 | posting an unposted invoice adds one GL document under a new id with the invoice's amount and currency, and marks that invoice only |
| SapLedger.CreateThenPost | mocks/sap-s4-finance-mcp/server.ts:106-129 | with any other requests in between, posting a created invoice adds a GL document with the amount and currency of the request that created it |
| SapLedger.SeedsSound | mocks/sap-s4-finance-mcp/server.ts:39-59 | the books built from a seed table like the one given satisfy the invariant, with their GL ids below the counter |
| SapLedger.InvoiceIdInjective | mocks/sap-s4-finance-mcp/server.ts:114 | different invoice numbers make different ids |
| SapLedger.GLIdInjective | mocks/sap-s4-finance-mcp/server.ts:124 | different GL numbers make different ids |
| SapLedger.Server.CreateInvoice | mocks/sap-s4-finance-mcp/server.ts:106-118 | the handler makes the specified step, rejections included, and keeps the invariant |
| SapLedger.Server.PostInvoice | mocks/sap-s4-finance-mcp/server.ts:120-129 | the handler makes the specified step, rejections included, and keeps the invariant |
| PackWiring.WireDomainFunctions | verticals/_helpers.py:21-39 | wiring succeeds exactly when every domain and no other has exactly one owning claim, keeps the key set and writes the owner |
| PackWiring.ValidateOwnership | api/shared/vertical_loader.py:197-220 | the ownership clause accepts exactly when the keys are the functions' names and every domain and no other has exactly one owner |
| PackWiring.WireThenValidate | api/shared/vertical_loader.py:197-220 | so it accepts exactly what wires, once the keys are the names |
| PackWiring.OwnerIsUnique | verticals/_helpers.py:21-39 | the owner a domain is wired to is the only one that claims it |
| PackWiring.ExactlyOneOwnerMeaning | api/shared/vertical_loader.py:204-220 | one owner each means that no function lists a domain twice, no two list the same, and the domains are those listed |
| PackWiring.ClaimsMeaning | verticals/_helpers.py:21-39 | the owner written is the name of a function that lists the domain |
| PackWiring.OccurrencesUnique | api/shared/vertical_loader.py:204-211 | claiming a domain never twice is counting each domain at most once |
| PackWiring.WalksMeanEveryRole | api/shared/functions.py:46-58 | each tree walk accepts exactly when its test holds of every role it visits |
| PackWiring.PackValidationImpliesHierarchyValidation | api/shared/vertical_loader.py:310-330 | pack validation accepts the hierarchies if and only if the boot-time validator does and every visited role is registered |
| Claims.AmountShowsLabel | data/synthetic/generate.py:93-268 | for every draw the rounded amount shows its label: green below the cap, amber from the cap to 110%, red beyond unless the breach is alcohol |
| Claims.AmberIsAboveCapExactly | data/synthetic/generate.py:112-119 | an amber amount is above the cap if and only if the unrounded amount exceeds it by more than half a grid step |
| Claims.AmberCanEqualCap | data/synthetic/generate.py:112-119 | the draw 1.0 gives an amber claim exactly at the cap |
| Claims.Run | data/synthetic/generate.py:300-336 | the loop emits the specified claim at every index, with 7, 2 and 1 labels per block of ten in closed form, so 210, 60 and 30 of 300 |
| Claims.LabelsMeetFewCategories | data/synthetic/generate.py:280-311 | amber falls on accommodation and entertainment only, red on miscellaneous only |
| Claims.GeneratedBandIsLabel | data/synthetic/generate.py:306-316 | the band of every generated amount is its gold label, ambers exactly at the cap excepted |
| Claims.AllCellsExactly | data/synthetic/generate.py:309-311 | all category and market pairs appear if and only if there are at least twenty claims |

## Left out

- Floating point: money in the budget signal and the claims is exact; the source computes with floats.
- AuroraTopUp.RetryConvergesExactly: the account and period that links point to stay the same between a call and its retry, and the `posted_at` clock is not part of a link.
- AuroraTopUp.RowsSumToRoundedGap: row ids carry workflow, brand and target themselves; digest truncation and collisions, and targets that differ only in how they print, are not modelled.
- AuroraRuns.SpendTracksPeakTarget: starts from a graph without signal rows of the brand, and an interrupted call stops between rows and is its brand's next call again; `AuroraInterleaved.InterleavedRetryExactly` says what happens otherwise.
- AuroraPolicy.ApplyApprovedPolicy: approval and action fields are typed as strings where the source applies `str`; clocks, events and audit entries of `record_decision` are not modelled, and its new ids are parameters.
- AuditChain.LedgerRoot.BackfillBlob: reading and writing JSON lines is abstracted to a list of objects or a parse failure, and blank lines disappear; the `.bak` rename is one step. Strings holding U+0085, U+2028 or U+2029 are written unescaped but cut by `splitlines`, so a file with one fails to parse on the next run, which `AuditChain.SecondRunIsNoOp` does not see.
- AuditChain.AppendingKeepsIntact: signatures, decision resolution, locks and the tail-hash cache of the logger are not modelled.
- RunLedger.ProofRoot.RunProof: a ledger file that is not valid UTF-8, which the reader does not catch, so that every run dies before clearing; services, browsers, probes and git are facts of the run, given as parameters; only the ledger's part of the bundle is kept.
- Orchestration.StartOrGet: the instance store is consistent between reads and instances are not purged.
- Snapshot.SaveRestoreRoundTrip: archive, JSON and path handling are reduced to whether the archive is sound, refused or broken.
- Snapshot.Portal.CmdSave: size, commit and counts recorded in the metadata, and the list and info commands.
- Authority.ResolveScan: console warnings and the wording of reasons.
- DocuSign.Service.Create: random envelope ids are parameters, and a repeated id replaces the envelope as in the source; PATCH and the read-only routes are not modelled.
- SapLedger.Server.CreateInvoice: amounts are exact reals; recharges, accruals, exchange rates and read-only routes are not modelled.
- PackWiring.ValidateOwnership: the other clauses of `validate_pack` (skills, responders, worlds, gates) and file lookups, which are a predicate on roles.
- VisibilityTools.NormalizedToolStatus: Python's text of values that are not strings is a parameter, and stripping and lower-casing act on ASCII.
- VisibilityEvidence.CollectEvidence: every error is one rejection; which message is raised first is not modelled, nor are fetching, saving and loading of snapshots.
- VisibilityParity.VerifyDetails: a workflow type that Python cannot hash rejects the snapshot, as the `TypeError` would.
- Claims.Run: vendors, employees, narratives, timestamps and the files written; draws of the random generator are parameters.
- Object key order in JSON, HTTP routing, the graph database, Azure Durable registration, telemetry and the user interfaces.
- The other mock servers, static registries, contract dataclasses and environment parsing: finite data or one-line lookups that would only add easy members.
