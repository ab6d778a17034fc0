# Proofs about CDEP

CDEP is a set of services over transactional tables. This project models its protocols and proves
what they guarantee in every run. `dafny verify dfyconfig.toml` checks all of it with Dafny 4.11.

| files | what they model |
|---|---|
| `WorkflowModel`, `WorkflowInvariants`, `WorkflowRuns`, `WorkflowEffects`, `WorkflowTheorems`, `WorkflowDuties`, `WorkflowStore` | validate, review, recommend, decide, and the definition versions, tasks and cycles around them |
| `CanonicalJson`, `CanonicalJsonTheorems` | the ledger worker's canonical JSON printer and a reader that undoes it |
| `Chaincode`, `ChaincodeTheorems`, `ChaincodeRuns`, `ChaincodeNames`, `ChaincodeExamples` | the Go chaincode: decoding, validation, its own printer, the write-once registry |
| `ProofSaga`, `ProofSagaTheorems`, `ProofSagaOutcomes`, `ProofSagaBudget`, `ProofSagaSubmissions`, `ProofSagaCounterexamples`, `ProofStore` | the saga that anchors proof requests over that registry |
| `Polling`, `PollingKeys`, `PollingTheorems`, `PollingProgress`, `PollingExamples`, `PollingStore` | polling a SQL source with a keyset cursor, a lease and idempotent capture |
| `AuditChain`, `AuditStore` | the per-tenant hash chain, its two writers and its verifier |
| `Paging`, `Csv` | keyset paging of audit records and proofs, and the CSV export |
| `CaseSync`, `CaseEffects`, `CaseStore`, `WorkflowSync` | the Case status machine, its synchronization, and joint runs of workflow and Case service |
| `EvidenceLineage`, `EvidenceTheorems`, `EvidenceOutcomes`, `EvidenceStore` | upload, scan, promotion and lineage of evidence versions |

## How runs are modelled

Each `$transaction` body is one atomic step, and so is each single write outside a transaction. Reads
before it are separate: a command is a function of the earlier states it read and of the state its
transaction finds, and a run is any sequence of commands whose reads lie in its past. A crash is a command
that never goes on. What each committed command leaves behind is stated apart from the functions that compute it,
in terms of the command and the resulting rows (`…Effect`), and so is when it is accepted (`…AloneIff`).
Where the source updates rows in place, a `…Store` class does so too, and its methods
are proved equal to the same transition functions the runs are made of.

Identifiers are positions in tables, so they are unique and ordered like creation times. SHA-256 is a free
constructor, so it is injective and nothing else is assumed. JSON numbers are integers. The unresolved merge
markers (apps/validation-workflow-service/src/workflow.service.ts:305-324,
apps/validation-workflow-service/src/event.consumer.ts:39-50, chaincode/evidence-proof/main.go:9-12 and
394-415) may be resolved either way.

## Where the code falls short of its promise

Each of these is kept as the code has it. The lemmas named give the exact condition, a concrete run, or both.

- `updateVersion` checks for a draft and then writes by id, so a version published in between is
  overwritten, duty flags included: `DutyFlagsCanChange`, `VersionsFrozenIff`. The author of a recommendation can
  thus decide under four-eyes: `AuthorDecidesUnderFourEyes`; exactly when duties are broken: `SeparationOfDuties`.
- `withdraw` rechecks nothing in its transaction, so it can change an ended instance:
  `EndedInstanceCanChange`, `EndedInstancesFrozenIff`.
- `retry` writes by id after its check, and `process`, once it has the lease, turns away only CONFIRMED
  requests, so a request can exceed the maximum of attempts and be submitted more often than the maximum:
  `RetryRevivesSpentRequest`, `OverrunExceedsMaximum`. The exact conditions: `BudgetKeptIff` for attempts,
  `SubmissionsWithinIff` for submissions, which counts in the columns of the attempts; the form to check
  is that of `GuardsSuffice` and `SubmissionsBounded`.
- An envelope is decoded by encoding/json, which also takes names in another case, and a missing `previousProofId`;
  it is then anchored under a text the sender never wrote: `OmittedPreviousAnchored`, `RenamedMemberAnchored`,
  `SampleAnchoredDifferently`, `SampleRenamedDifferently`; exactly when: `EnvelopeAgreement`. The worker always writes
  all members under their own names.
- A failed upload leaves its number without a hash, and the asset never accepts another version:
  `LostUploadReached`, `FailedUploadBlocksAsset`, `NextVersionIff`.
- STRING tie-breakers make idempotency keys ambiguous, so a polled row can be lost: `SecondRowLost`,
  `SecondRowCapturedIff`; exactly when: `LostIff`, `KeysEqualIff`.
- Verification cannot see rows cut off the end of the audit log, and misses nothing else that keeps a genuine last
  row: `TruncationAccepted`, `AcceptedIffPrefix`.

## Model

The table is in five parts: the results about runs and formats, ending with `Csv.ExportedRow`; what the other steps
leave behind and when they are accepted, from `ValidationQueues` to `NoFormulaCharacter`; the loops, proved against what
they compute as a whole, from `ExpireTasks` to `AbandonExpired`; the transactions in place, which refine the
transition functions those results are about, from `OverwriteVersion` to `Promote`; and small facts the other proofs
rest on.

| member | source | states |
|---|---|---|
| `WorkflowEffects.DecisionEffect` | apps/validation-workflow-service/src/workflow.service.ts:1515-1618 | Every committed decide leaves a decision with the outcome, user and case given; its instance then reads APPROVED if and only if that outcome is approval and REJECTED otherwise, is inactive, has it as current decision and no active task, and nothing else but the approval task changed |
| `WorkflowEffects.OutcomeOnRecord` | apps/validation-workflow-service/src/workflow.service.ts:1581-1592 | In every state of every run an instance that reads APPROVED or REJECTED has a current decision of its own on record with that very outcome |
| `WorkflowTheorems.DecisionCommitsOnCurrentReads` | apps/validation-workflow-service/src/workflow.service.ts:1434-1600 | In every interleaving, when a decision commits, the recommendation, run and open task it read earlier are still the current ones, and exactly that task is completed |
| `WorkflowTheorems.DecisionCustody` | apps/validation-workflow-service/src/workflow.service.ts:1279-1293 | Decision, recommendation and the one READY review it followed cite one passing run of one instance and carry its snapshot, in every run |
| `WorkflowDuties.SeparationOfDuties` | apps/validation-workflow-service/src/workflow.service.ts:1481-1514 | In every state of every run a decision breaks the duties its version asks for if and only if the last updateVersion since decide read the flags has set some that forbid its decider; each such update found its version no longer a draft, and while no flag is set that was not set at that read every decision is separated |
| `WorkflowDuties.AuthorDecidesUnderFourEyes` | apps/validation-workflow-service/src/workflow.service.ts:264-278 | A concrete run, from the definition to the decision, in which the author of the recommendation decides although four-eyes is on when the decision is committed |
| `WorkflowTheorems.ReviewCommitsOnCurrentReads` | apps/validation-workflow-service/src/workflow.service.ts:968-1087 | In every interleaving, when a review commits, its task is the instance's active task and the run and snapshot it cites are the instance's current ones |
| `WorkflowTheorems.RecommendationCommitsOnCurrentReads` | apps/validation-workflow-service/src/workflow.service.ts:1231-1359 | In every interleaving, when a recommendation commits, the instance waits for it and the run and snapshot it cites are current |
| `WorkflowTheorems.DutiesHeldWhenRead` | apps/validation-workflow-service/src/workflow.service.ts:1444-1514 | A decision respects the duty flags its version had, as a non-draft version, when decide read it, against the reviewer who is still the newest at commit |
| `WorkflowTheorems.DecisionEvidenceUnchanged` | apps/validation-workflow-service/src/workflow.service.ts:1867-1893 | Every pinned evidence version of a decision was found again before the commit, available, clean, authoritative and under its pinned hash |
| `WorkflowTheorems.VersionsFrozenIff` | apps/validation-workflow-service/src/workflow.service.ts:258-283 | Non-draft versions keep their content throughout a run if and only if no updateVersion wrote into one on the strength of an earlier read |
| `WorkflowTheorems.DutyFlagsCanChange` | apps/validation-workflow-service/src/workflow.service.ts:264-278 | A concrete run in which the four-eyes flag of a running workflow is switched off by such a late write |
| `WorkflowTheorems.OneOpenTask` | apps/validation-workflow-service/src/workflow.service.ts:679-711 | At most one open task an instance, in every run: its activeTaskId, of the type its state dictates, and none for inactive instances |
| `WorkflowTheorems.CorrectionHitsActiveInstance` | apps/validation-workflow-service/src/workflow.service.ts:1118-1174 | A correction that commits finds its instance active with this task, though its transaction checks only the task |
| `WorkflowTheorems.CyclesOfACase` | apps/validation-workflow-service/src/workflow.service.ts:477-503 | Of two instances of a case the earlier is inactive and has the lower cycle number; so at most one is active |
| `WorkflowTheorems.CyclesAreExactly` | apps/validation-workflow-service/src/workflow.service.ts:487-503 | The cycle numbers of a case with n instances are exactly 1..n, each used once, in every run of start, reopen and auto-start |
| `WorkflowTheorems.DecisionsFormAChain` | apps/validation-workflow-service/src/workflow.service.ts:1535-1564 | A decision supersedes exactly the previous decision of its case, which is of an earlier cycle and another instance |
| `WorkflowTheorems.EndedInstancesFrozenIff` | apps/validation-workflow-service/src/workflow.service.ts:1678-1709 | The state, task, run, recommendation and decision of an inactive instance never change again throughout a run if and only if every withdrawal's transaction found its instance still active |
| `WorkflowTheorems.EndedInstanceCanChange` | apps/validation-workflow-service/src/workflow.service.ts:1684-1703 | A concrete run in which a withdrawal turns a CANCELLED instance into WITHDRAWN |
| `WorkflowRuns.EveryRun` | apps/validation-workflow-service/src/workflow.service.ts:597-1750 | Every state reached by any number of actors is sound, and row versions tell whether an instance and its reviews changed between two states |
| `WorkflowSync.DecisionReachesCase` | apps/validation-workflow-service/src/workflow.service.ts:1617-1640 | In every joint run of workflow commands, sync attempts and Case service, each decision has exactly one sync operation, which the Case service takes if and only if the case exists and is not cancelled; once it is SYNCED the case is DECIDED ever after |
| `WorkflowSync.DecidedCaseHasDecision` | apps/case-service/src/case.service.ts:493-570 | A case reads DECIDED only if the workflow service has a decision on record for it, whose own operation wrote the last history entry |
| `WorkflowSync.ReopenedCycleRefused` | apps/case-service/src/case.service.ts:528-539 | Once a case is DECIDED no validation or recommendation of a reopened cycle is ever applied to it, in any later state |
| `CaseSync.SyncedDecisionStays` | apps/validation-workflow-service/src/workflow.service.ts:1753-1819 | Once a decision's operation is SYNCED its case is DECIDED in every later state, with calls repeated and replies lost |
| `CaseSync.OperationMovesOnce` | apps/case-service/src/case.service.ts:514-568 | A sync operation moves at most one case, its own, at most once |
| `CaseSync.HistoryIsAPath` | apps/case-service/src/case.service.ts:164-242 | Case history is a connected path from DRAFT to the status with strictly growing versions that never leaves a final status |
| `CaseSync.CasesProgress` | apps/case-service/src/case.service.ts:597-653 | A final status is never left and history only grows, over every run |
| `WorkflowEffects.VerdictOnRecord` | apps/validation-workflow-service/src/workflow.service.ts:668-711 | In every state of every run an instance from READY_FOR_REVIEW to its outcome stands on a run of its own that passed, and EVIDENCE_REQUIRED on one that failed |
| `WorkflowEffects.ValidationEffect` | apps/validation-workflow-service/src/workflow.service.ts:639-741 | Every committed validation records the verdict and evidence given as the current run, cancels all open tasks of its instance, and by that verdict waits for a review or for evidence |
| `WorkflowEffects.ReviewEffect` | apps/validation-workflow-service/src/workflow.service.ts:997-1090 | Every committed review records the verdict given over the current run, completes its task alone, and by that verdict waits for a recommendation or a correction |
| `WorkflowEffects.RecommendationEffect` | apps/validation-workflow-service/src/workflow.service.ts:1258-1394 | Every committed recommendation records the outcome given as the current one, and waits for a decision unless it asks for more information |
| `WorkflowEffects.DecideAloneIff` | apps/validation-workflow-service/src/workflow.service.ts:1405-1530 | With nobody in between decide is accepted, approving or rejecting, if and only if both versions are current, the user may act on the open task, none of the three duties forbids it and every pinned version is still current |
| `WorkflowEffects.ReviewAloneIff` | apps/validation-workflow-service/src/workflow.service.ts:968-1030 | With nobody in between a review is accepted, whatever its verdict, if and only if its user holds the claimed task, both versions are current and the selected evidence is |
| `WorkflowEffects.RecommendAloneIff` | apps/validation-workflow-service/src/workflow.service.ts:1231-1272 | With nobody in between a recommendation is accepted, whatever its outcome, if and only if the instance waits for one under its row version and its evidence is current |
| `CanonicalJsonTheorems.RoundTrip` | apps/ledger-service/src/canonicalization.ts:11-26 | A reader of RFC 8259 recovers the value from its canonical text followed by anything that cannot extend a number |
| `CanonicalJsonTheorems.EqualTextIffEqualValue` | apps/ledger-service/src/canonicalization.ts:11-26 | Two values have one canonical text if and only if they are equal with objects as finite maps |
| `CanonicalJsonTheorems.EqualValuesPrintAlike` | apps/ledger-service/src/canonicalization.ts:23-25 | The canonical text does not depend on the insertion order of keys at any depth |
| `CanonicalJsonTheorems.MembersInOrder` | apps/ledger-service/src/canonicalization.ts:23-25 | The members of a printed object appear once each in ascending order of code units (section 3.2.3 of RFC 8785) |
| `CanonicalJsonTheorems.ThrowsIffNonFinite` | apps/ledger-service/src/canonicalization.ts:15-19 | canonicalize throws exactly on values that hold a non-finite number |
| `CanonicalJsonTheorems.UnitRoundTrip` | apps/ledger-service/src/canonicalization.ts:14 | Every escape used for a code unit reads back to it under section 7 of RFC 8259 |
| `CanonicalJsonTheorems.OutputEncodable` | apps/ledger-service/src/canonicalization.ts:28-30 | The text holds no control character and no lone surrogate, so hashing its UTF-8 form loses nothing |
| `CanonicalJsonTheorems.ShortestEscape` | apps/ledger-service/src/canonicalization.ts:14 | Of all texts that read back as a code unit the printer takes the shortest, with lower-case hexadecimal digits, and always escapes a lone surrogate |
| `ChaincodeTheorems.PrintersAgreeIffPlain` | chaincode/evidence-proof/main.go:340-382 | For text below U+D800 the chaincode and the worker print a value alike if and only if it holds no character that Go escapes for HTML |
| `ChaincodeTheorems.MarshalRoundTrip` | chaincode/evidence-proof/main.go:324-332 | Unmarshalling a marshalled struct gives its members back in declared order |
| `ChaincodeTheorems.EnvelopeCanonical` | chaincode/evidence-proof/main.go:324-338 | For every struct that passes validation, canonicalJSON is the worker's canonical text of the same document |
| `ChaincodeTheorems.DecodeCanonical` | chaincode/evidence-proof/main.go:94-104 | Strict decoding of the canonical text of a validated struct gives the struct back |
| `ChaincodeTheorems.CanonicalInjective` | chaincode/evidence-proof/main.go:156-228 | Validated structs of either kind with one canonical text are the same struct |
| `ChaincodeRuns.EnvelopeAgreement` | chaincode/evidence-proof/main.go:94-190 | What the worker sends and the chaincode accepts is printed again byte for byte if and only if its members have exactly the names of the struct: decoding also takes names in another case, two names for one field, and an evidence envelope without previousProofId |
| `ChaincodeRuns.EnvelopePayloadSurvives` | chaincode/evidence-proof/main.go:55-62 | A payload stored as a raw message in a record and read back is byte for byte the payload, whatever the other strings hold |
| `ChaincodeRuns.StringsSurvive` | chaincode/evidence-proof/main.go:212-227 | A reader of a stored record finds the proof's own id and kind in it |
| `ChaincodeRuns.AnchorAnswers` | chaincode/evidence-proof/main.go:192-228 | The full answer of anchor: the stored record for the same proof, a conflict for any other, a new sound record otherwise, errors without effect |
| `ChaincodeRuns.PrepareAccepts` | chaincode/evidence-proof/main.go:94-190 | Exactly the texts that decode, with white space and names in any case as encoding/json takes them, and validate are handed to anchor, with their canonical text |
| `ChaincodeRuns.RecordsNeverChange` | chaincode/evidence-proof/main.go:192-228 | A stored record never changes in any run, and is what some accepted proof left under its own key |
| `ChaincodeRuns.ResubmissionIdempotent` | chaincode/evidence-proof/main.go:192-206 | Resubmitting an accepted envelope at any later time returns the same record and changes nothing |
| `ChaincodeRuns.NeverCorrupt` | chaincode/evidence-proof/main.go:192-224 | STATE_CORRUPT, CANONICALIZATION_FAILED and ENCODING_FAILED never occur in any run |
| `ChaincodeRuns.VerificationAnswers` | chaincode/evidence-proof/main.go:230-288 | verifyEvidence and verifyDecision answer exactly whether the hashes given are the anchored ones, do not find proofs of the other kind, and report a failed read |
| `ChaincodeRuns.VerificationStable` | chaincode/evidence-proof/main.go:230-288 | What verification answers about a stored proof never changes in any run |
| `ChaincodeNames.VerifiesByName` | chaincode/evidence-proof/main.go:249-288 | verifyEvidence answers true if and only if the argument is the text the anchored document has under contentSha256; verifyDecision if and only if its arguments are, in this order, those under evidenceManifestSha256, recommendationSha256 and decisionRecordSha256 |
| `ChaincodeNames.NewRecordSays` | chaincode/evidence-proof/main.go:212-227 | A reader of a new record finds proofId, kind, version, the time and the id of the transaction that anchored it |
| `ChaincodeExamples.OmittedPreviousAnchored` | chaincode/evidence-proof/main.go:106-190 | Every valid evidence envelope sent without previousProofId is accepted and anchored, under another canonical text than the sender's |
| `ChaincodeExamples.SampleAnchoredDifferently` | chaincode/evidence-proof/main.go:106-190 | A concrete such envelope on an empty registry |
| `ChaincodeExamples.RenamedMemberAnchored` | chaincode/evidence-proof/main.go:94-190 | Every valid envelope of either kind, with any one member under another name that folds to its own, is accepted and anchored under another canonical text than the sender's |
| `ChaincodeExamples.SampleRenamedDifferently` | chaincode/evidence-proof/main.go:94-190 | A concrete such envelope on an empty registry: previousProofId spelled out and kind written Kind |
| `ProofSagaTheorems.ConfirmedIsAnchored` | apps/ledger-service/src/proof.worker.ts:91-189 | In every run with overlapping workers, lost replies, failed commits, retries, reconciliation and other clients, a CONFIRMED request's canonical payload lies in the registry under its proofId, then and ever after |
| `ProofSagaTheorems.SuccessAnchorsRequest` | apps/ledger-service/src/fabric-ledger-provider.ts:108-134 | A successful submission, whatever order the JSON column returns members in, leaves the request's own payload under its proofId and names that proofId |
| `ProofSagaTheorems.EveryRun` | apps/ledger-service/src/proof.worker.ts:47-322 | Bindings, confirmations and worker sessions rest on ledger records in every state of every run |
| `ProofSagaOutcomes.DeliveredOutcome` | apps/ledger-service/src/fabric-ledger-provider.ts:108-148 | Judged by the registry alone a delivered submission is anchored if and only if the registry takes the request, with the proofId and transaction id of the stored record; it is a conflict if and only if another payload is stored; otherwise it fails for good |
| `ProofSagaOutcomes.AnswerIff` | chaincode/evidence-proof/main.go:192-228 | The chaincode answers a request with success or PROOF_ID_CONFLICT exactly as what lies under its proofId demands |
| `ProofSagaOutcomes.ConflictIsFinal` | apps/ledger-service/src/proof.worker.ts:190-250 | In every run a request that ever was in CONFLICT has another payload under its proofId, then and ever after, and is never CONFIRMED |
| `ProofSagaOutcomes.AttemptConfirms` | apps/ledger-service/src/proof.worker.ts:112-189 | From every reachable state an uninterrupted attempt whose submission the registry takes leaves the request CONFIRMED with the proofId and transaction id that are stored |
| `ProofSagaOutcomes.FirstAttemptConfirms` | apps/ledger-service/src/proof.worker.ts:52-189 | The run create, acquire, read, mark, number, submit, commit over a working ledger ends CONFIRMED for every valid envelope, with the transaction that anchored it |
| `ProofSagaBudget.BudgetKeptIff` | apps/ledger-service/src/proof.worker.ts:244-285 | With one worker at a time, attempts stay within the maximum and waiting requests have attempts left, if and only if no retry wrote, and no worker went on, after the row it read had stopped waiting with its attempts used up |
| `ProofSagaBudget.AttemptNumbers` | apps/ledger-service/src/proof.worker.ts:112-128 | With one worker at a time, attempts are numbered 1, 2, ... without gap or repetition, whatever is retried |
| `ProofSagaBudget.GuardsSuffice` | apps/ledger-service/src/proof.service.ts:352-374 | If retry rechecked FAILED_RETRYABLE at its write and process turned away rows that no longer wait, the budget would be kept |
| `ProofSagaSubmissions.SubmissionsWithinIff` | apps/ledger-service/src/proof.worker.ts:112-138 | With one worker at a time no request is ever submitted more often than the maximum, manual retries included, if and only if no session submits that read the maximum of attempts plus those lost before submitting |
| `ProofSagaSubmissions.AttemptsAccounted` | apps/ledger-service/src/proof.worker.ts:112-138 | Submissions, lost attempts and the one in flight add up to the attempts a request counts |
| `ProofSagaSubmissions.SubmissionsBounded` | apps/ledger-service/src/proof.worker.ts:112-138 | The checkable form: where no stale retry and no stale worker acts on a spent row, the maximum bounds submissions as well as attempts |
| `ProofSagaSubmissions.AttemptsTerminate` | apps/ledger-service/src/proof.worker.ts:91-309 | Under those guards at most the maximum of sessions make an attempt for a request, and they make at most seven steps each |
| `ProofSagaSubmissions.MeasureDecreases` | apps/ledger-service/src/proof.worker.ts:91-309 | Every step of a worker decreases the lexicographic measure of attempts left and steps left in its session |
| `ProofSagaCounterexamples.OverrunExceedsMaximum` | apps/ledger-service/src/proof.worker.ts:52-85 | A concrete run, one worker at a time, in which a stale candidate leads to a second submission although the maximum is one |
| `ProofSagaCounterexamples.RetryRevivesSpentRequest` | apps/ledger-service/src/proof.service.ts:352-374 | A concrete run in which a manual retry makes a request PENDING that has used up its two attempts |
| `PollingTheorems.CapturedExactlyOnce` | apps/integration-ingestion-service/src/integration.service.ts:576-666 | With BIGINT or UUID ties, and STRING ties free of colons, every source row above the seed and at or below the checkpoint has exactly one trigger, its own, under a key no other trigger has, with expired leases, overlapping runs, failures and crashes |
| `PollingTheorems.QueryCovers` | apps/integration-ingestion-service/src/sql-polling.adapter.ts:161-166 | A poll returns every row above its cursor up to the last row it returns |
| `PollingTheorems.CutCoversIff` | apps/integration-ingestion-service/src/sql-polling.adapter.ts:161-166 | What the unique tie-breaker that the connector asks for is needed for: where keys repeat, a full batch is complete up to its last key if and only if it does not cut through rows of one key |
| `PollingTheorems.NextCovered` | apps/integration-ingestion-service/src/sql-polling.adapter.ts:184-196 | The checkpoint a run commits is covered from the seed of its line of polls, also when it moves backwards |
| `PollingTheorems.CapturedUnderItsKey` | apps/integration-ingestion-service/src/integration.service.ts:576-666 | For all columns every row passed by the checkpoint has exactly one trigger under its key, with a row that some poll returned |
| `PollingTheorems.LostIff` | apps/integration-ingestion-service/src/integration.service.ts:596-627 | In every run a row passed is lost if and only if another row was captured whose id, watermark and tie collide with its own; when different ties have different texts, the ids and ties of the two overlap as in KeysEqualIff |
| `PollingProgress.CommitEffect` | apps/integration-ingestion-service/src/sql-polling.adapter.ts:184-196 | A commit of a non-empty batch leaves the checkpoint at the key of its last row, strictly above the run's cursor and with the seed of its line, and every row of the batch has its trigger |
| `PollingProgress.RunsCatchUp` | apps/integration-ingestion-service/src/integration.service.ts:520-666 | Over a source at rest as many uninterrupted runs as its rows above the checkpoint need leave every row above the seed passed and with its trigger |
| `PollingProgress.FirstRunsCatchUp` | apps/integration-ingestion-service/src/sql-polling.adapter.ts:118-200 | The same from a first poll that finds a row above its seed |
| `PollingProgress.RunAdvances` | apps/integration-ingestion-service/src/sql-polling.adapter.ts:118-200 | One uninterrupted run fetches a full batch or all there is and decreases the rows still to fetch by as many |
| `PollingProgress.PolledRows` | apps/integration-ingestion-service/src/sql-polling.adapter.ts:161-166 | A poll returns the first rows above its cursor in order, as many as the limit allows, and all of them when they are fewer |
| `PollingKeys.KeysEqualIff` | apps/integration-ingestion-service/src/integration.service.ts:598 | For all columns, STRING ties included: two rows have one idempotency key if and only if they agree in id, watermark and tie, or the tie of one is made of the watermark and tie of the other and its id makes up for it |
| `PollingKeys.KeyTextInjective` | apps/integration-ingestion-service/src/integration.service.ts:598 | The idempotency key determines record id, watermark and tie-breaker whenever ties hold no colon, as BIGINT and UUID ties never do |
| `PollingExamples.SecondRowCapturedIff` | apps/integration-ingestion-service/src/integration.service.ts:576-666 | Of any two rows polled together the second is captured if and only if its key is not the first one's, though the checkpoint passes both |
| `PollingExamples.SecondRowLost` | apps/integration-ingestion-service/src/sql-polling.adapter.ts:202-206 | A concrete two-row source with STRING ties whose second row is passed and gets no trigger |
| `AuditChain.LastHashBinds` | apps/audit-query-service/src/audit.service.ts:314-365 | Two lists that verification accepts and that end in one hash are identical |
| `AuditChain.TamperingDetected` | apps/audit-query-service/src/audit.service.ts:314-365 | Any edit, interior deletion, insertion or reordering that keeps the last hash is rejected |
| `AuditChain.TruncationAccepted` | apps/audit-query-service/src/audit.service.ts:314-320 | Any prefix of an accepted list is accepted, so rows cut off the end are not detected |
| `AuditChain.EveryLogVerifies` | apps/audit-query-service/src/event.consumer.ts:160-242 | In every run of consumer and control writers over all tenants, with redelivery, every tenant's log is a sound chain for every limit |
| `AuditChain.AcceptedExactlyOnce` | apps/audit-query-service/src/event.consumer.ts:166-178 | An acknowledged event has exactly one record |
| `AuditChain.RecordsNeverChange` | apps/audit-query-service/src/audit.service.ts:97-154 | The log only grows at its end |
| `AuditChain.AcceptedIffPrefix` | apps/audit-query-service/src/audit.service.ts:314-365 | Of all lists that end in a genuine row of the log exactly its prefixes are accepted, so removal at the end and nothing else goes unnoticed |
| `AuditChain.CallEffect` | apps/audit-query-service/src/event.consumer.ts:160-244 | A delivery or control record adds at most its own event's record, with its tenant, time, content and source, linked to the tenant's newest record and late exactly when that one happened later; a delivery is acknowledged exactly when recorded |
| `AuditChain.NewEventRecorded` | apps/audit-query-service/src/event.consumer.ts:179-244 | A new event at a new place is recorded by either writer when its transaction works |
| `EvidenceTheorems.NumbersWithoutGaps` | apps/evidence-service/src/evidence.service.ts:611-727 | The versions of an asset are numbered 1..latest, each number exactly once, in every run |
| `EvidenceTheorems.PredecessorLinked` | apps/evidence-service/src/evidence.service.ts:683-704 | Each later version carries, ever after, the id and recorded hash of the version numbered just before it |
| `EvidenceTheorems.HashWrittenOnce` | apps/evidence-service/src/evidence.service.ts:507-520 | A recorded hash is never written again |
| `EvidenceTheorems.CurrentIsCleanAndIntact` | apps/evidence-service/src/processing.worker.ts:257-316 | A version ever made current belongs to its asset, had a CLEAN scan attempt, and has canonical bytes that hash to its recorded hash, then and ever after |
| `EvidenceTheorems.FailedUploadBlocksAsset` | apps/evidence-service/src/evidence.service.ts:730-761 | After an upload that ended without its hash no later version of the asset is ever accepted |
| `EvidenceTheorems.LostUploadReached` | apps/evidence-service/src/evidence.service.ts:730-761 | A concrete run in which an upload fails and the next version of its asset is refused |
| `EvidenceOutcomes.AvailableIsCleanAndIntact` | apps/evidence-service/src/processing.worker.ts:257-316 | A version that ever was AVAILABLE was found clean and has canonical bytes that hash to its recorded hash, then and ever after, in every run |
| `EvidenceOutcomes.RejectedIsInfected` | apps/evidence-service/src/processing.worker.ts:203-224 | A version that ever was REJECTED was found infected, in every run |
| `EvidenceOutcomes.ScanOutcome` | apps/evidence-service/src/processing.worker.ts:115-396 | An uninterrupted scan: infected leaves the version REJECTED, the job completed and the current version as it was; clean with intact bytes leaves it AVAILABLE and current; anything else retries or, after the last attempt, fails version and job |
| `Paging.WalkIsQuery` | apps/audit-query-service/src/audit.service.ts:237-262 | Following nextCursor ends, and the pages put together are the one-shot filtered, sorted query in either direction, all but the last of them full |
| `Paging.WalkListsOnce` | apps/ledger-service/src/case-proof-read.service.ts:238-316 | Under concurrent writes a row present and matching throughout the walk is listed exactly once |
| `Paging.WalkInOrder` | apps/ledger-service/src/case-proof-read.service.ts:238-316 | Whatever changes meanwhile, the pages put together are in strict order, so nothing is listed twice, and every item matched |
| `Paging.ListingAfter` | apps/audit-query-service/src/audit.service.ts:219-236 | What lies beyond a listed row is the rest of the list |
| `Paging.WalkByTime` | apps/audit-query-service/src/audit.service.ts:219-262 | The pages put together go strictly by time and then id, downwards or upwards as asked |
| `Csv.CsvRoundTrip` | apps/audit-query-service/src/audit.service.ts:867-898 | A reader of section 2 of RFC 4180 recovers exactly the table of protected cells, whatever quotes, commas and line ends they hold |
| `Csv.NoRecoveredFormula` | apps/audit-query-service/src/audit-crypto.ts:112-124 | No cell recovered from an export starts a formula |
| `Csv.ProtectCollides` | apps/audit-query-service/src/audit-crypto.ts:112-115 | Two different cells are exported alike exactly when one is missing and the other empty, or one is the other with the apostrophe already in front |
| `Csv.ExportedRow` | apps/audit-query-service/src/audit.service.ts:867-898 | A reader of the export finds the twelve columns of each record in the header's order, each as it is or with an apostrophe before one of six characters |
| `WorkflowSync.ValidationQueues` | apps/validation-workflow-service/src/workflow.service.ts:736-741 | A committed validation queues UNDER_REVIEW when it passed and EVIDENCE_COLLECTION when it failed |
| `WorkflowSync.RecommendationQueues` | apps/validation-workflow-service/src/workflow.service.ts:1380-1385 | A committed recommendation queues DECISION_PENDING, and nothing when it asks for more information |
| `WorkflowSync.DecisionQueues` | apps/validation-workflow-service/src/workflow.service.ts:1617-1622 | A committed decision of either outcome queues DECIDED |
| `CaseEffects.UpdateIff` | apps/case-service/src/case.service.ts:164-242 | update is accepted under the case's version if it opens a draft or leaves the status, and its history entry says so |
| `CaseEffects.CancelIff` | apps/case-service/src/case.service.ts:604-652 | cancel is accepted under the case's version until the case is decided, closed or cancelled |
| `CaseEffects.SyncOnce` | apps/case-service/src/case.service.ts:493-570 | A synchronization answers an applied operation again without effect, applies another to its own case and notes it, or refuses it without effect |
| `CaseEffects.ApplyIff` | apps/case-service/src/case.service.ts:528-568 | A synchronization moves a case that is neither cancelled nor closed to its target, and a decided one nowhere |
| `CaseEffects.QueueEffect` | apps/validation-workflow-service/src/workflow.service.ts:1984-2006 | queueSync keeps one operation an instance and event type, which keeps its first target and waits again |
| `CaseEffects.BeginEffect` | apps/validation-workflow-service/src/workflow.service.ts:1753-1762 | An attempt is made for the newest operation of the instance that is not SYNCED, if there is one |
| `CaseEffects.CallEffect` | apps/case-service/src/case.service.ts:493-570 | A call takes effect exactly when it arrives and is known to have done so exactly when its answer does |
| `CaseEffects.FinishEffect` | apps/validation-workflow-service/src/workflow.service.ts:1766-1819 | After the reply the operation is SYNCED, FAILED on its last attempt, or PENDING again, with its attempts counted |
| `WorkflowEffects.CorrectionEffect` | apps/validation-workflow-service/src/workflow.service.ts:1131-1174 | A correction that commits completes its task alone and waits for a corrected submission |
| `WorkflowEffects.ClaimEffect` | apps/validation-workflow-service/src/workflow.service.ts:838-892 | A claim gives the task to the user and moves a review's instance from READY_FOR_REVIEW to UNDER_REVIEW |
| `WorkflowEffects.AssignEffect` | apps/validation-workflow-service/src/workflow.service.ts:919-936 | An assignment puts an open task back to pending for its new assignee |
| `WorkflowEffects.StartEffect` | apps/validation-workflow-service/src/workflow.service.ts:477-503 | A new cycle is active and not started, for a case with no active one, on the version asked for, which is no draft |
| `WorkflowEffects.WithdrawEffect` | apps/validation-workflow-service/src/workflow.service.ts:1678-1709 | A withdrawal leaves an instance of its case WITHDRAWN and inactive with its open tasks cancelled |
| `WorkflowEffects.CancelEffect` | apps/validation-workflow-service/src/event.consumer.ts:166-186 | case.cancelled leaves the active instance of its case CANCELLED with its open tasks cancelled |
| `WorkflowEffects.ResubmitEffect` | apps/validation-workflow-service/src/workflow.service.ts:1208-1223 | resubmit completes the correction task and nothing else |
| `WorkflowEffects.ExpireEffect` | apps/validation-workflow-service/src/operational.worker.ts:27-33 | The timer expires exactly the open tasks that are due |
| `WorkflowEffects.VersionEffect` | apps/validation-workflow-service/src/workflow.service.ts:258-380 | Definition versions begin as drafts and are published from draft and retired from published only, with their content |
| `WorkflowEffects.ValidateAloneIff` | apps/validation-workflow-service/src/workflow.service.ts:606-660 | With nobody in between validate is accepted for the active instance of its case if and only if its row version is current |
| `WorkflowEffects.ReopenAloneIff` | apps/validation-workflow-service/src/workflow.service.ts:1717-1750 | With nobody in between reopen goes on with the version chosen or that of the last cycle, if and only if no cycle is active and that version is published |
| `WorkflowEffects.StartAloneIff` | apps/validation-workflow-service/src/workflow.service.ts:388-503 | With nobody in between start is accepted if and only if the version is published and the case has no active instance |
| `WorkflowEffects.ClaimAloneIff` | apps/validation-workflow-service/src/workflow.service.ts:821-892 | With nobody in between a claim is accepted if and only if the task is pending under its version and unassigned or the user's |
| `WorkflowEffects.EndAloneIff` | apps/validation-workflow-service/src/workflow.service.ts:1678-1709 | With nobody in between the active instance is withdrawn under its row version and cancelled under any |
| `WorkflowEffects.AssignAloneIff` | apps/validation-workflow-service/src/workflow.service.ts:902-936 | With nobody in between an open task is assigned under its version, whoever holds it |
| `WorkflowEffects.CorrectionAloneIff` | apps/validation-workflow-service/src/workflow.service.ts:1118-1150 | With nobody in between a correction is accepted on an open task if and only if both versions are current |
| `WorkflowEffects.ResubmitAloneIff` | apps/validation-workflow-service/src/workflow.service.ts:1188-1207 | With nobody in between resubmit is accepted if and only if the active instance has the correction task open |
| `CanonicalJson.LessIff` | apps/ledger-service/src/canonicalization.ts:23 | Keys are ordered by the first code unit in which they differ, a proper prefix first |
| `ChaincodeNames.MalformedRefused` | chaincode/evidence-proof/main.go:250-274 | Requests with a wrong number of arguments or with something that is no hash are refused with the code of their kind |
| `ChaincodeNames.NotAnchored` | chaincode/evidence-proof/main.go:230-247 | Requests about no identifier, an unreadable ledger, or a proof that is not there or of the other kind are refused with their codes |
| `ChaincodeNames.ValidateEvidenceIff` | chaincode/evidence-proof/main.go:106-131 | An evidence proof is valid if and only if each of its ten members passes its check |
| `ChaincodeNames.ValidateDecisionIff` | chaincode/evidence-proof/main.go:133-154 | A decision proof is valid if and only if each of its ten members passes its check |
| `ChaincodeNames.EvidenceCode` | chaincode/evidence-proof/main.go:106-131 | A refused evidence proof gets the code of a check that fails before all later groups: schema, identifiers, predecessor, hashes |
| `ChaincodeNames.DecisionCode` | chaincode/evidence-proof/main.go:133-154 | A refused decision proof gets the code of a check that fails before all later groups: schema, identifiers, outcome, hashes |
| `ChaincodeNames.UuidGroups` | chaincode/evidence-proof/main.go:23 | An identifier splits into lower-case groups of 8, 4, 4, 4 and 12 with the version and variant digits of the pattern |
| `ChaincodeNames.GroupsUuid` | chaincode/evidence-proof/main.go:23 | and whatever consists of such groups is an identifier |
| `ProofSagaOutcomes.UnansweredOutcome` | apps/ledger-service/src/fabric-ledger-provider.ts:135-148 | A submission that is not answered fails as the provider classifies it and never as a conflict, over a registry that has or has not seen it |
| `ProofSagaOutcomes.SuccessEffect` | apps/ledger-service/src/proof.worker.ts:139-189 | A committed success makes its request CONFIRMED with the binding answered and frees its lease |
| `ProofSagaOutcomes.FailureEffect` | apps/ledger-service/src/proof.worker.ts:244-285 | A committed failure makes its request CONFLICT, FAILED_RETRYABLE while attempts are left, or FAILED_PERMANENT, exactly by the answer |
| `ProofSagaOutcomes.AcquireEffect` | apps/ledger-service/src/proof.worker.ts:52-85 | A lease is taken only where there is none, an expired one or the owner's, for a candidate that was read as waiting |
| `ProofSagaOutcomes.CreateEffect` | apps/ledger-service/src/proof.service.ts:96-140 | A request enters PENDING, without attempts, under a proofId that no other has |
| `ProofSagaOutcomes.MarkEffect` | apps/ledger-service/src/proof.worker.ts:112-120 | Marking makes the row SUBMITTING with one more attempt and numbers the session after what it read |
| `ProofSagaOutcomes.PollEffect` | apps/ledger-service/src/proof.worker.ts:96-111 | An existing transaction is confirmed only when it was found under its reference |
| `ProofSagaOutcomes.ConfirmEffect` | apps/ledger-service/src/proof.worker.ts:311-322 | confirmExisting makes the request CONFIRMED and frees its lease |
| `ProofSagaOutcomes.RetryEffect` | apps/ledger-service/src/proof.service.ts:352-374 | A manual retry of a request read FAILED_RETRYABLE makes it PENDING and frees its lease |
| `ProofSagaOutcomes.ReconcileEffect` | apps/ledger-service/src/proof.service.ts:388-424 | Reconciliation confirms exactly what it read waiting with a transaction and then found in the registry |
| `ProofSagaOutcomes.SessionStepIff` | apps/ledger-service/src/proof.worker.ts:91-309 | Which step of process may come next: an existing transaction is asked for exactly when the row was read SUBMITTED with one |
| `ProofSagaOutcomes.RowStepIff` | apps/ledger-service/src/proof.service.ts:352-424 | When a request may be entered, acquired, retried or reconciled |
| `PollingProgress.SeedSees` | apps/integration-ingestion-service/src/sql-polling.adapter.ts:118-160 | A first poll sees the rows of the lookback, or those whose watermark is at most a batch below the greatest |
| `PollingProgress.AcquireEffect` | apps/integration-ingestion-service/src/integration.service.ts:1171-1183 | A lease is taken only where there is none or an expired one |
| `PollingProgress.FailEffect` | apps/integration-ingestion-service/src/integration.service.ts:1189-1226 | A failed run moves nothing and gives up its own lease only |
| `AuditChain.SelectedRows` | apps/audit-query-service/src/audit.service.ts:314-319 | What is verified is the tenant's oldest rows, at least one and at most 5000 |
| `EvidenceOutcomes.PrepareEffect` | apps/evidence-service/src/evidence.service.ts:598-728 | A prepared version is pending, numbered next after the asset's latest and becomes it |
| `EvidenceOutcomes.StoreEffect` | apps/evidence-service/src/evidence.service.ts:473-507 | The bytes lie in quarantine and the hash taken on the way is kept |
| `EvidenceOutcomes.FinishEffect` | apps/evidence-service/src/evidence.service.ts:507-538 | The end of an upload records that hash, makes the version UPLOADED and queues its scan |
| `EvidenceOutcomes.UploadFailureEffect` | apps/evidence-service/src/evidence.service.ts:730-761 | A failed upload fails its version unless its scan has begun, and nothing else of it |
| `EvidenceOutcomes.ClaimEffect` | apps/evidence-service/src/processing.worker.ts:78-113 | A job is claimed only while it waits or its lease has expired, and counts the attempt |
| `EvidenceOutcomes.SweepEffect` | apps/evidence-service/src/processing.worker.ts:573-603 | The sweeps fail abandoned uploads and requeue expired leases, and nothing else |
| `EvidenceOutcomes.StepIff` | apps/evidence-service/src/processing.worker.ts:78-113 | When each step around a scan is taken: a job is claimed exactly while it waits or its lease has expired |
| `Paging.PresentedStatus` | apps/ledger-service/src/case-proof-read.service.ts:41-48 | Which stored states each presented status stands for |
| `Csv.NoFormulaCharacter` | apps/audit-query-service/src/audit-crypto.ts:112-115 | No recovered cell starts with = + - @ TAB or CR |
| `WorkflowStore.WorkflowTables.ExpireTasks` | apps/validation-workflow-service/src/operational.worker.ts:27-33 | Row by row, exactly the open tasks past their due date expire |
| `WorkflowStore.WorkflowTables.AssertSnapshotCurrent` | apps/validation-workflow-service/src/workflow.service.ts:1867-1893 | The loop accepts exactly when every selected version is pinned, current and unchanged |
| `Chaincode.Buffer.WriteCanonical` | chaincode/evidence-proof/main.go:340-382 | The recursive writer over a buffer appends exactly the canonical text, or reports that there is none |
| `ProofStore.ProofTables.Reconcile` | apps/ledger-service/src/proof.service.ts:388-424 | The loop confirms exactly the picked requests whose binding is found on the ledger, and its counts add up |
| `PollingStore.Connector.CaptureBatch` | apps/integration-ingestion-service/src/integration.service.ts:594-666 | The capture loop and the checkpoint move together, the lease is released only if still held, and each row has its trigger |
| `AuditChain.VerifyChain` | apps/audit-query-service/src/audit.service.ts:314-365 | The loop answers VERIFIED exactly for a sound chain, and otherwise the first broken row with the number of sound rows before it |
| `Paging.GroupEvents` | apps/ledger-service/src/case-proof-read.service.ts:281-295 | The one-pass map holds each proof's events in order, and no empty entry |
| `EvidenceStore.EvidenceTables.RequeueExpired` | apps/evidence-service/src/processing.worker.ts:576-579 | Exactly the expired leases return to RETRY |
| `EvidenceStore.EvidenceTables.AbandonExpired` | apps/evidence-service/src/processing.worker.ts:580-603 | The loop fails exactly the abandoned versions that are still pending upload |
| `WorkflowStore.WorkflowTables.OverwriteVersion` | apps/validation-workflow-service/src/workflow.service.ts:276-282 | The write of updateVersion by id, whatever the version has become since it was read |
| `WorkflowStore.WorkflowTables.MoveVersion` | apps/validation-workflow-service/src/workflow.service.ts:285-380 | publish and retire: the status moves only from the one expected |
| `WorkflowStore.WorkflowTables.StartInstance` | apps/validation-workflow-service/src/workflow.service.ts:477-503 | The start transaction in place equals its specification |
| `WorkflowStore.WorkflowTables.RecordValidation` | apps/validation-workflow-service/src/workflow.service.ts:668-711 | The validate transaction in place: new run, open tasks cancelled, new task, next state |
| `WorkflowStore.WorkflowTables.ClaimTask` | apps/validation-workflow-service/src/workflow.service.ts:838-892 | The claim transaction in place, guarded by task status, version and assignee alone |
| `WorkflowStore.WorkflowTables.AssignTask` | apps/validation-workflow-service/src/workflow.service.ts:919-936 | The assign write in place, guarded by task status and version |
| `WorkflowStore.WorkflowTables.RecordReview` | apps/validation-workflow-service/src/workflow.service.ts:997-1087 | The review transaction in place, with its two row checks |
| `WorkflowStore.WorkflowTables.RecordCorrection` | apps/validation-workflow-service/src/workflow.service.ts:1131-1174 | The correction transaction in place, guarded by the task alone |
| `WorkflowStore.WorkflowTables.RecordRecommendation` | apps/validation-workflow-service/src/workflow.service.ts:1258-1359 | The recommendation transaction in place, both branches |
| `WorkflowStore.WorkflowTables.RecordDecision` | apps/validation-workflow-service/src/workflow.service.ts:1515-1600 | The decision transaction in place, with supersession |
| `WorkflowStore.WorkflowTables.EndInstance` | apps/validation-workflow-service/src/event.consumer.ts:166-186 | The writes of case.cancelled, which withdraw shares |
| `Chaincode.WriteProof` | chaincode/evidence-proof/main.go:324-338 | canonicalJSON with its buffer computes its specification |
| `Chaincode.Ledger.Anchor` | chaincode/evidence-proof/main.go:192-228 | anchor over the world state, all branches |
| `Chaincode.Ledger.Invoke` | chaincode/evidence-proof/main.go:156-190 | anchorEvidence and anchorDecision over the world state, all error codes |
| `ProofStore.ProofTables.AcquireLease` | apps/ledger-service/src/proof.worker.ts:69-85 | The lease is taken exactly when it is free, expired or the owner's |
| `ProofStore.ProofTables.Process` | apps/ledger-service/src/proof.worker.ts:91-309 | process without interference: which rows change, to what state, for every outcome of the provider, of the final commit and of the attempt's insert |
| `ProofStore.ProofTables.Retry` | apps/ledger-service/src/proof.service.ts:352-374 | retry writes by id whatever the row has become since its read |
| `PollingStore.Connector.AcquireLease` | apps/integration-ingestion-service/src/integration.service.ts:1171-1183 | The lease is acquired exactly when there is none or it has expired |
| `PollingStore.Connector.Poll` | apps/integration-ingestion-service/src/sql-polling.adapter.ts:118-200 | poll with its reassigned cursor returns the specified batch and next checkpoint |
| `PollingStore.Connector.RecordFailure` | apps/integration-ingestion-service/src/integration.service.ts:1189-1226 | A failed poll counts, pauses at the threshold and releases only its own lease |
| `AuditStore.AuditTables.Append` | apps/audit-query-service/src/event.consumer.ts:160-244 | append in place: duplicates, checkpoint, quarantine resolution and counters |
| `AuditStore.AuditTables.AppendControl` | apps/audit-query-service/src/audit.service.ts:97-154 | The control record in place chains to the tenant's newest record |
| `AuditStore.AuditTables.Quarantine` | apps/audit-query-service/src/event.consumer.ts:125-158 | A message that cannot be read is kept once, however often it is delivered |
| `CaseStore.CaseRecord.constructor` | apps/case-service/src/case.service.ts:56-83 | A created case is DRAFT at version 1 with one history row |
| `CaseStore.CaseRecord.Update` | apps/case-service/src/case.service.ts:164-242 | update in place, with its version and transition checks |
| `CaseStore.CaseRecord.Cancel` | apps/case-service/src/case.service.ts:604-652 | cancel in place, with its version and status checks |
| `CaseStore.SyncTables.InternalWorkflowSync` | apps/case-service/src/case.service.ts:493-570 | internalWorkflowSync in place: target check, inbox, refusal, transition |
| `CaseStore.SyncTables.Enqueue` | apps/validation-workflow-service/src/workflow.service.ts:1984-2006 | queueSync in place: one operation an instance and event type |
| `CaseStore.SyncTables.AttemptCaseSync` | apps/validation-workflow-service/src/workflow.service.ts:1753-1819 | attemptCaseSync without interference equals its three steps |
| `EvidenceStore.EvidenceTables.PrepareUpload` | apps/evidence-service/src/evidence.service.ts:598-728 | prepareUpload in place, with its lineage check |
| `EvidenceStore.EvidenceTables.CompleteUpload` | apps/evidence-service/src/evidence.service.ts:507-538 | The transaction that ends an upload, in place |
| `EvidenceStore.EvidenceTables.FailUpload` | apps/evidence-service/src/evidence.service.ts:730-761 | markUploadFailure in place, which fails only versions still uploading |
| `EvidenceStore.EvidenceTables.Process` | apps/evidence-service/src/processing.worker.ts:115-201 | scan without interference equals the steps of its worker, for every scan result |
| `EvidenceStore.EvidenceTables.Promote` | apps/evidence-service/src/processing.worker.ts:257-347 | promote in place: copy, hash comparison, one transaction |
| `CaseSync.DecisionRefusedIff` | apps/case-service/src/case.service.ts:528-539 | A decision can be synchronized exactly as long as its case is not cancelled |
| `CaseSync.RequeuedOperationIgnored` | apps/validation-workflow-service/src/workflow.service.ts:1984-2006 | An operation queued again keeps its first target and the Case service ignores it |
| `Paging.FilterIsPresentation` | apps/ledger-service/src/case-proof-read.service.ts:41-47 | The status filter selects exactly the stored states that are presented with that status |
| `CanonicalJson.AscendingUnique` | apps/ledger-service/src/canonicalization.ts:23 | A list of keys in ascending order is determined by the keys it holds |
| `WorkflowDuties.LastWriteWins` | apps/validation-workflow-service/src/workflow.service.ts:258-283 | What a version holds is what the last write to it left, whoever wrote and on whatever earlier read |
| `PollingTheorems.OnlyPolledRows` | apps/integration-ingestion-service/src/integration.service.ts:596-627 | Nothing is captured that a poll did not return |
| `PollingTheorems.TriggersOnlyGrow` | apps/integration-ingestion-service/src/integration.service.ts:600-625 | Captured triggers are never changed or removed |
| `ProofSagaTheorems.SubmitProofKeeps` | apps/ledger-service/src/fabric-ledger-provider.ts:108-148 | Every outcome of a submission keeps the registry sound and growing; only a success leads to confirmation |
| `EvidenceTheorems.NextVersionIff` | apps/evidence-service/src/evidence.service.ts:692-695 | A further version is accepted if and only if the asset has none yet or its latest one has its hash |

## Left out

- Kafka, HTTP, gRPC, S3, ClamAV, Prisma and the clock: their outcomes are parameters of the steps.
- History, outbox, action-actor, correction-request, comment and idempotency rows of the workflow service;
  the newest REVIEW_SUBMITTED actor row is taken from the newest review, which is written with it.
- evaluateRules, case-type and eligibility checks: the verdict is a parameter, a failed check is a command
  not issued.
- `CanonicalJson.PrintInt` prints integers in full, as JavaScript does below 10^21; fractions and exponents are not modelled.
- `Chaincode.GoCanonical`: keys are compared by code unit, which for text at or above U+D800 differs from
  Go's byte order, so the comparison of the two printers stops there.
- `Chaincode.StrictDecode`: a number with a fraction or an exponent is a syntax error here and a type error in Go;
  either way the envelope is refused with one code.
- `Chaincode.StoredPayload`, `Chaincode.RecordString`: a stored record is read compactly and by exact names; only the
  chaincode writes records, and it writes them so.
- `Chaincode.MarshalRecord`: Go's conversion of invalid UTF-8 is modelled for lone surrogates only.
- The order in which requests become due (`nextAttemptAt`, `requestedAt`) and outbox rows of the saga: a worker
  may pick any waiting request, which includes what the order allows.
- Ledger providers other than Fabric: one that reports SUBMITTED would need its own argument. With Fabric the
  steps that poll and confirm a pending transaction are never taken; they are modelled because process has them.
- No liveness past a crash: SUBMITTING is never picked up again. `ProofSagaSubmissions.AttemptsTerminate` bounds the
  sessions that make an attempt; sessions that end before one, because the lease or the ledger was not
  available, may come again without bound.
- `Polling.Step`: new source rows sort above every row a poll has returned and have keys of their own, and
  watermarks are integers or exact to the millisecond; a finer timestamp is truncated by the source.
- `Polling.TieText`: a STRING tie-breaker is a place in the list of the column's texts, in the database's order,
  so that order is any order at all. `PollingKeys.KeysEqualIff` compares the texts themselves.
- `Polling.TimeOf`: watermark timestamps count 31 days to every month, so their order is the calendar's and
  some counts are no date.
- `Csv.RenderCsv`: the header is any row of cells; the source's is fixed.
- Correlation, extraction and journey rows after capture.
- The localeCompare order of audit hashing, sanitizing of metadata and cursor signatures: the hashed material
  is opaque and cursors are exact to the millisecond.
- appendControlRecord takes the tenant's newest record in a transaction that is not serializable; like every
  transaction here it is one atomic step.
- The scan branches without a version or a quarantine reference: the job, the version's reference and its hash are
  written in one transaction, and nothing deletes them, so they are not reached.
- `caseSyncStatus` of an instance, which synchronization also writes after the instance has ended.
- The status of an evidence asset, legal holds and orphan candidates: quarantine objects may disappear at any
  time, which includes every cleanup. A current version may still be marked FAILED by an exhausted integrity job.
- Web portal, gateway, authentication, AI assessment, reporting endpoints and schemas.
