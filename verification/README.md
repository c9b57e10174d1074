# Mail intelligence: verified models of its protocols

A Dafny model of the parts of this mail system that have to be right under concurrency, failure and odd
input, with proofs of what they promise. `dafny verify dfyconfig.toml` checks everything.

**Sending with human approval** (`Send*.dfy`). The tables and every transaction on them are values and functions in
`SendStore`; `SendLifecycle` and `SendQueue` prove what each transaction keeps. `SendProtocol` is the whole system as
steps: one database transaction is one step, every await lets any other task overtake, any task may be abandoned,
the clock may advance at any time, Graph may deliver a POST late or never, and its answers may be lost. Readers and
any number of workers with expiring leases run beside the sender. `SendSafety`, `SendTheorems`, `SendReceipts`,
`SendProgress`, `SendFencing` and `SendExclusion` prove the statements about whole runs. `SendAuthority`,
`SendOrigins` and `SendRefusals` say in the callers' own terms who may move a draft, where rows and approvals come
from, and why a call is refused: each an equivalence, so that a check dropped or added breaks a proof. `SendDatabase`
and `SendWorker` are the classes of the program, on savepoints and rows; SQLite may refuse any of their statements, and
each method is proved to do exactly what those functions say, or, when a statement is refused, nothing.

**Answered elsewhere** (`HandledElsewhere`, `AnsweredDrafts`, `AnsweredMeaning`, `HandledService`). Markers, the
cancellations they cause, undoing them, and what a refused statement leaves of either.

**Command receipts** (`JsonNumber`, `JsonString`, `CanonicalJson`, `CommandReceipt`, `CommandMeaning`, `JsonReading`,
`Utf8Reading`). The canonical JSON text on UTF-16 code units, proved to determine the value, down to the bytes that are
hashed and signed; readers written from RFC 8259 and RFC 3629 get text and value back. What accepted receipts and
commands say, field by field.

**Receipts in Sent Items** (`PageChain`, `BodyText`, `StableSort`, `TextSort`, `ReceiptScan`,
`ReceiptMeaning`). The scan of a paged listing, against
the definition of what a reader of the whole mailbox would accept.

**Project import** (`ProjectCsv`, `ProjectBatch`, `ProjectRegistry`, `ProjectMeaning`, `ProjectTable`). The CSV scanner against its
grammar, the order-free planner, and writing a plan under unique indexes.

**Synchronisation** (`MailSync`, `DeltaResume`, `FolderDiscovery`). Which ids are reported as committed, resuming from
saved links, and finding all folders.

**Attachments** (`ZipDirectory`, `AttachmentQuota`, `AttachmentUpload`, `AttachmentVerdict`,
`AttachmentExtremes`). The archive walker; the
quota as a step system, and the upload as a method in which every outside call may throw.

**Intake authority** (`IntakeGrant`). Epochs, captures, and registrations overtaken while their write is awaited.

## What the code does not keep

Proved, each with the exact condition under which it does hold or fails:

- The reconciliation interval starts a run without waiting for the previous one, under the same worker id. A release
  then matches a lease that its own worker took again later, and two tasks rely on running leases of one draft
  (`OverlapBreaksExclusion`). Nothing else breaks exclusion (`ExclusionKeptIff`), and runs that do not overlap never
  do (`SoloIsClean`). Delivery safety does not depend on it.
- A worker whose id is the empty text can reopen a complete job (`ReleaseReopensIffNameless`).
- A reply without any time slips past a person's restore when the message has no time either (`RestoreCutHoldsIff`).
- Attachments that the host's text comparison ties can be refused though they are the expected ones, when Graph lists
  them in another order (`FilesAcceptedInAnyOrderIff`).
- A CSV whose first field begins with U+FEFF, unquoted, loses it (`RoundTripIff`).
- An upload that finds its request already stored, after it read the body, does not give its reservation back; no
  other end leaves one open, unless giving it back throws as well (`StrandsIff`). As many of these as uploads may run
  at once refuse every later upload (`StrandedBlocks`): with the shipped limits two raced uploads are enough, from the
  empty service (`TwoRacesBlock`).
- Bodies longer than declared can take the stored bytes past the quotas, by exactly the bound of `QuotaHolds`, which is
  reached from the empty service (`BoundReached`, `UnlinkedBoundReached`).
- A registration does not advance the epoch. A capture notices it exactly when it changes the revision or changes
  nothing (`RegistrationSeenIff`), and over whole runs captures are exact if and only if registrations raise the
  revision or repeat the binding with its mailbox selected (`CurrentIffUntouched`, `SafeIffShows`). The planner's
  proposals do so unless a repeated identity moves the selection back (`PlannedShowsIff`, `SwitchBackUnseen`) or two
  were planned from one binding (`ParallelPlansUnseen`).
- A refused COMMIT or RELEASE leaves the depth counter of `transaction` one too low; the tables and open frames are as
  before all the same, at every depth (`Run`, `RefusedCommitDrifts`).
- An undo that a refused statement stopped half way cannot be asked for again (`StoppedUndoIsFinal`); a mark can, and
  then completes (`StoppedMarkCompletes`).
- Preparing a prepared project again changes nothing exactly when its name, key and aliases are fixed points of the
  host's cleaning, which cutting at 200 or 120 characters can spoil (`PrepareTwiceIff`).
- A closing delta page that also has a next link makes the next run resume there (`NextRoundStart`).

## What is taken as given

- Graph puts at most one message into Sent Items for a POST, none once it has answered that POST with a 4xx status
  other than 408, and only the system's own POSTs carry the correlation header. Sent Items is append-only.
- Answers of SELECT statements are arguments, constrained by what the statement asks for and in the order it asks for
  (`DueAnswer`, `PendingRows`, `CancelledRows`, `LinkedRows`).
- Times are whole milliseconds. Digests, recipient and partner policies, token scopes, receipt signatures, attachment
  binding, ids and the clock are arguments. One mailbox is modelled.
- A finite number is its shortest decimal digits and the place of its point, which determine it. Lower-casing,
  collation, Unicode normalisation and name rules are functions of the host.
- Within one scan or discovery, a link is answered in one way; within one discovery every record of a folder agrees.
- Row theorems of batch planning assume that preparing a prepared row changes nothing (`PrepareTwiceIff` says when).
  The registry it starts from is sound, and names vacated while a plan is written are names of no project.
- A ROLLBACK is carried out whenever it is asked for.
- Division of two 32-bit sizes in floating point exceeds 100 exactly when the exact quotient does.

## Model

| member | source | states |
|---|---|---|
| `SendTheorems.DeliverySafety` | src/application/mail-send-api.js:158-186 | In every run of the protocol from the empty world, with any interleaving of approvals, cancels, readers, workers, lost answers and abandoned tasks: a draft is posted at most once; if it is sent, exactly one Sent Items message carries its id and that is the one it names; if it failed, none does; otherwise at most one does. |
| `SendTheorems.SettledForever` | src/application/mail-send-drafts.js:430-455 | A draft's content never changes, and a row that is sent or failed, receipt included, is the same after every continuation of every run. |
| `SendTheorems.LogIsLifecycle` | src/application/mail-send-drafts.js:123-126 | In every run a draft's events form a path of one fixed automaton ending in its status; every review status in it is the one the draft was created with, at most one event is a claim, and a draft created for clarification is never approved or launched. |
| `SendTheorems.ReceiptsSpentOnce` | src/application/jarvis-receipt-gate.js:92-103 | In every run each approval under a receipt has its (receipt, item digest) pair recorded for that very draft, and no pair authorises two approvals. |
| `SendReceipts.PairCommitsOnce` | src/application/mail-send-api.js:158-168 | In any run at most one approve route commits under a given receipt and item digest, whether it approves the draft or finds it approved already: a pair authorises at most one claim. |
| `SendReceipts.StepKeepsUses` | src/application/jarvis-receipt-gate.js:92-103 | No step of anybody forgets a used pair or gives it to another draft, and a route that commits under a pair found it unused. |
| `SendReceipts.FailedRouteSpendsNothing` | src/application/mail-send-api.js:158-168 | An approve route that fails anywhere leaves the world, and so the pair, as it was; one that succeeds finds the pair unused and records it. |
| `SendTheorems.NothingLost` | src/application/send-reconciliation-worker.js:85-118 | In every run a draft in flight has a pending or leased job that falls due within the longest backoff or lease; a job is complete exactly when its draft is sent; owner and expiry are set exactly while it is leased. |
| `SendProgress.FoundBecomesSent` | src/application/send-reconciliation-worker.js:85-138 | From every reachable world, once the longest backoff and lease have passed, a draft in flight is due; any worker whose due query returns it, and whose scan finds its message, records it as sent with that message; the query misses it only by a full batch of rows that come before it. |
| `SendTheorems.ApplyKeeps` | src/application/mail-send-api.js:92-186 | Every single step of the protocol keeps the whole world invariant and only extends the tables: content, settled rows and the log are never rewritten. |
| `SendAuthority.MovesIff` | src/application/mail-send-drafts.js:262-455 | A step moves a draft to a status if and only if it is the one kind of step that does so, on a draft where it may, with all that it asks for: recipients, subject and body for a draft that may be approved; the draft's own digest, allowed sending, scope and recipients, unchanged attachments, no open slot, and a person or a valid unused receipt for an approval; and likewise for claims, cancellations, restores and recorded outcomes. Every other step leaves every status as it is. |
| `SendAuthority.LaunchMoves` | src/application/mail-send-api.js:158-169 | Every new send task is the task of the very step that moved its draft to sending, with all that this takes. |
| `SendAuthority.LaunchWarranted` | src/application/mail-send-api.js:158-169 | In every run a draft that is sending, sent or failed was launched by a step that had what a launch takes. |
| `SendOrigins.CreatedAs` | src/application/mail-send-drafts.js:285-318 | In every run each draft is, word for word, the input of one step that created it for a request without a draft: recipients, subject, text, message, attachments and digest; and its first event says needs_approval if and only if that input has recipients, a subject, a body that is not blank, and no open slot. |
| `SendOrigins.ApprovedIsComplete` | src/adapters/microsoft-graph-send.js:117-121 | In every run a draft that is approved, sending, sent or failed has recipients, a subject and a body that is not blank and holds no open slot: what the sending side asks of it is never missing. |
| `SendOrigins.OneDraftEach` | src/application/mail-send-drafts.js:291-298 | In every run a request has at most one draft, and the index on requests finds it. |
| `SendOrigins.RepeatedRequest` | src/application/mail-send-drafts.js:293-298 | In every run, repeating a request changes nothing: with the draft's digest it is answered with that draft, with any other it is refused as a conflict. |
| `SendOrigins.ApprovalsWarranted` | src/application/mail-send-drafts.js:322-341 | In every run each approval in the log was given by a step that had what an approval takes, on a draft that waited for it, and names that approver. |
| `SendOrigins.ReceiptApprovalsValid` | src/application/mail-send-api.js:113-121 | In every run each approval under a receipt comes from an approve route that presented that very receipt, valid, with its item for this draft unused. |
| `SendOrigins.RouteNeedsValid` | src/application/mail-send-api.js:158-168 | A route that commits under a receipt presented a valid one, and any send task it starts was started for a person or for a valid unused receipt. |
| `SendRefusals.CreateRefusal` | src/application/mail-send-drafts.js:286-299 | A creation is refused for the first demand that is not met, in this order: source message, attachments, digest of an earlier draft, uniqueness; and only then. |
| `SendRefusals.ApproveRefusal` | src/application/mail-send-drafts.js:322-337 | An approval is refused for the first of nine demands that is not met, in the order of the service; and only then. |
| `SendRefusals.RecordRefusal` | src/application/mail-send-drafts.js:430-449 | An outcome is refused if and only if the draft is unknown, not in flight, the receipt is malformed or the failure code has the wrong shape, in this order. |
| `SendRefusals.RouteRefusal` | src/application/mail-send-api.js:113-168 | The approve route is refused for an unknown draft, an invalid receipt, a used item, and then for what the approval or the claim is refused for. |
| `SendSafety.RecordedStep` | src/application/mail-send-drafts.js:430-455 | Recording an outcome that is true of Sent Items keeps the world invariant, and a receipt leaves the draft sent. |
| `SendSafety.LaunchStep` | src/application/mail-send-api.js:169-182 | A claim hands the draft to one sending task that nobody shares and that has no earlier POST. |
| `SendTheorems.AnswerKeeps` | src/adapters/microsoft-graph-send.js:145-154 | Classifying the answer to the POST is safe: failure is only concluded from statuses that mean the message was certainly refused; a lost answer, 408 and 5xx stay uncertain. |
| `SendTheorems.AnswerMeans` | src/adapters/microsoft-graph-send.js:145-154 | After the POST the sender looks for the message exactly after a 202, gives the draft up exactly for a 4xx status other than 408, and is uncertain otherwise. |
| `SendLifecycle.LaunchedStays` | src/application/mail-send-drafts.js:386-397 | Once an event is sending, sent or failed, all later ones are, and none of them is a claim. |
| `SendLifecycle.ClaimedAtMostOnce` | src/application/mail-send-drafts.js:386-397 | No draft has two claim events. |
| `SendLifecycle.ClarificationNeverLaunched` | src/application/mail-send-drafts.js:329-340 | A draft created as needs_clarification only ever waits or is cancelled. |
| `SendLifecycle.PlainCancelIsTerminal` | src/application/mail-send-drafts.js:399-428 | Only a cancellation for a system reason is ever followed by another event, and only by a restore to the creation status. |
| `SendLifecycle.PriorReviewIsCreation` | src/application/mail-send-drafts.js:209-216 | The status restore goes back to is the one the draft was created with: restore never upgrades. |
| `SendLifecycle.ReceiptItemApprovesOnce` | src/application/mail-send-drafts.js:322-341 | Two approvals under receipts differ in the receipt or in the item. |
| `SendLifecycle.RecordOutcomeKeeps` | src/application/mail-send-drafts.js:430-455 | Recording keeps the log, job, receipt and row invariants. |
| `SendLifecycle.ApproveAndClaimKeeps` | src/application/mail-send-api.js:158-168 | Consuming a receipt item, approving and claiming in one transaction keeps all store invariants. |
| `SendQueue.BackoffBounded` | src/application/send-reconciliation-worker.js:111-113 | The wait lies between base and maximum and never shrinks as the lease count grows. |
| `SendQueue.FirstWaits` | src/application/send-reconciliation-worker.js:112-113 | The count is read before it is incremented, so the first two attempts both wait the base delay and the third twice that. |
| `SendQueue.BackoffDoubles` | src/application/send-reconciliation-worker.js:111-113 | From the first attempt on every wait is twice the one before, or the maximum, until it stops growing after the eleventh. |
| `SendQueue.LeaseTakes` | src/application/send-reconciliation-worker.js:85-101 | A claim of due jobs leases every row it selected, none of which anybody held, counts one more attempt, and touches no other row. |
| `SendQueue.DueIsLeased` | src/application/send-reconciliation-worker.js:86-94 | A due draft is leased by the next claim unless the batch is full of rows that come before it. |
| `SendQueue.ReleaseReopensIffNameless` | src/application/send-reconciliation-worker.js:115-116 | A release can reopen a complete job exactly when the worker's id is the empty text. |
| `SendFencing.FencedRun` | src/application/send-reconciliation-worker.js:95-118 | From the moment a lease is held until it runs out, over any run in which nobody releases under the owner's own id, the lease stays exactly as it is or the job is completed with a message in Sent Items. |
| `SendFencing.CompletedStays` | src/application/mail-send-drafts.js:139-145 | Complete is absorbing under every step. |
| `SendExclusion.ExclusionKeptIff` | src/application/send-reconciliation-worker.js:103-118 | Every task that relies on a running lease is backed by the lease row, and no two share a draft; a step breaks this exactly when it is a release that matches, by worker id alone, a lease its own worker took again later. Such a release takes the backing away; a second task on the draft needs one more claim. |
| `SendExclusion.LeasesExclusive` | src/application/send-reconciliation-worker.js:85-118 | In every run without such a release, leases are mutually exclusive. |
| `SendExclusion.SoloIsClean` | src/application/send-reconciliation-worker.js:120-138 | Runs of one worker id that never overlap contain no such release. |
| `SendOverlap.OverlapBreaksExclusion` | server.mjs:3475-3479 | A concrete run of the one worker, with its default delays, that overlaps itself until two of its tasks hold running leases of one draft: the interval does not wait for the previous run. |
| `SendDatabase.MailSendDrafts.Run` | src/application/mail-send-drafts.js:106-121 | At every nesting depth, whichever statements SQLite refuses, running an operation on savepoints has exactly the all-or-nothing meaning; the frames are restored, and the depth falls by the number of refused commits. |
| `SendDatabase.RefusedCommitDrifts` | src/application/mail-send-drafts.js:111-119 | A refused COMMIT undoes the write and counts the depth down twice. |
| `SendDatabase.MailSendDrafts.Create` | src/application/mail-send-drafts.js:262-320 | Creation on the tables is the transaction function: same draft, event, replay, conflict and errors; when any statement is refused, nothing changes. |
| `SendDatabase.MailSendDrafts.Approve` | src/application/mail-send-drafts.js:322-341 | Approval on the tables is the transaction function, refusals in the same order; when any statement is refused, nothing changes. |
| `SendDatabase.MailSendDrafts.Claim` | src/application/mail-send-drafts.js:386-397 | Claiming on the tables is the transaction function, the queued job included; when any statement is refused, nothing changes. |
| `SendDatabase.MailSendDrafts.Cancel` | src/application/mail-send-drafts.js:399-413 | Cancelling on the tables is the transaction function for people and for the two system reasons, or nothing when a statement is refused. |
| `SendDatabase.MailSendDrafts.Restore` | src/application/mail-send-drafts.js:415-428 | Restoring on the tables is the transaction function, or nothing when a statement is refused. |
| `SendDatabase.MailSendDrafts.RecordOutcome` | src/application/mail-send-drafts.js:430-455 | Recording on the tables is the transaction function: receipt, uncertain, failed, and the refusals; when the row, event or queue statement is refused, nothing changes. |
| `SendQueue.EnqueueDisturbsNobody` | src/application/mail-send-drafts.js:132-147 | Enqueueing a draft in flight leaves a leased or complete job everything but its failure code, makes a waiting or new job due at once, never blanks a failure code, touches no other job, keeps the queue's invariant, and done twice changes nothing more. |
| `SendDatabase.MailSendDrafts.ApproveRoute` | src/application/mail-send-api.js:158-168 | The nested transactions of the approve route are one all-or-nothing transaction, which succeeds with a receipt only if that is valid: a failing approval or a statement refused at any depth gives the receipt item back. |
| `SendWorker.SendReconciliationWorker.constructor` | src/application/send-reconciliation-worker.js:41-43 | Options are clamped: a lease of at least a second, a wait of at least a tenth of one and no maximum below the base. |
| `SendWorker.SendReconciliationWorker.ClaimDue` | src/application/send-reconciliation-worker.js:69-101 | Every selected row is leased and returned with the attempt count it had before; when any statement is refused, none is. |
| `SendWorker.SendReconciliationWorker.Finish` | src/application/send-reconciliation-worker.js:103-118 | Records first, then updates the job under the worker's id; a refused recording changes nothing, and a refused job update leaves the outcome recorded and the lease in place. |
| `SendWorker.SendReconciliationWorker.RunOnce` | src/application/send-reconciliation-worker.js:120-138 | A run that nothing overtakes finishes the claimed jobs in order up to the first refused recording or statement. |
| `SendWorker.UnfinishedStayLeased` | src/application/send-reconciliation-worker.js:123-136 | A job whose recording throws, and every job after it, stays exactly as it was leased. |
| `HandledElsewhere.MarkUndoRoundTrip` | src/application/handled-elsewhere.js:126-167 | Marking a message none of whose drafts stands handled-cancelled and undoing the mark returns every draft row. |
| `AnsweredMeaning.MarkMeans` | src/application/handled-elsewhere.js:126-152 | Marking is refused for the first of four demands that is not met, and only then; otherwise the marker stands, new. |
| `AnsweredMeaning.UndoMeans` | src/application/handled-elsewhere.js:154-167 | Undoing takes a person, a known message and a mark that stands, and keeps the mark with the time it was undone. |
| `HandledElsewhere.CancelEachAt` | src/application/handled-elsewhere.js:111-124 | Cancelling the selected rows one by one changes exactly those rows and adds exactly one event to each. |
| `HandledElsewhere.RestoreEachAt` | src/application/handled-elsewhere.js:178-196 | Exactly the rows whose last cancellation was for the handled-elsewhere reason come back, to their creation status. |
| `AnsweredDrafts.HandledOnlyWhileMarked` | src/application/handled-elsewhere.js:126-196 | In every run of marking, undoing, answering, creating, approving, cancelling, restoring and recording, a draft stands cancelled for the handled-elsewhere reason only while its message is marked. |
| `AnsweredDrafts.MarkUndoReversible` | src/application/handled-elsewhere.js:126-167 | After any such run, marking an unmarked message cancels all its drafts under review and undoing the mark returns every draft row. |
| `AnsweredDrafts.AnsweredOnlyUnderReview` | src/application/reply-draft-pipeline.js:466-516 | cancelAnsweredDrafts changes only drafts under review, and only if their message is marked or a later reply answers it past the last restore. |
| `AnsweredMeaning.AnsweredIff` | src/application/reply-draft-pipeline.js:359-377 | A draft counts as answered if and only if its message is on file and either marked or, being of a conversation, answered by a later sent message past the last restore by a person. |
| `AnsweredDrafts.AnswerEachAt` | src/application/reply-draft-pipeline.js:466-516 | Exactly the answered rows are cancelled, each with the actor and reason that fits it, and each with one event. |
| `AnsweredDrafts.RestoreCutHoldsIff` | src/application/reply-draft-pipeline.js:359-377 | A restored draft counts as answered only by a reply sent strictly after the restore, for all lists of replies, if and only if its message has a time or no conversation. |
| `HandledService.HandledElsewhereService.MarkHandledElsewhere` | src/application/handled-elsewhere.js:126-152 | Marker, cancelled rows, count and refusals are those of the marking function; when a statement is refused, either nothing changed or the marker stands and the rows before the refusal are cancelled. |
| `HandledService.HandledElsewhereService.UndoHandledElsewhere` | src/application/handled-elsewhere.js:154-167 | Marker, restored rows, count and refusals are those of the undoing function; when a statement is refused, either nothing changed or the marker is undone and the rows before the refusal are back. |
| `HandledService.StoppedMarkCompletes` | src/application/handled-elsewhere.js:126-152 | A mark that a refused statement stopped can be asked for again, and then every draft is as if it had not been stopped. |
| `HandledService.StoppedUndoIsFinal` | src/application/handled-elsewhere.js:154-167 | An undo that was stopped cannot be asked for again: its marker counts as undone. |
| `HandledService.HandledElsewhereService.RestoreSystemCancelledDrafts` | src/application/handled-elsewhere.js:178-196 | Exactly the rows last cancelled for the handled-elsewhere reason are restored, and counted. |
| `HandledService.HandledElsewhereService.CancelAnsweredDrafts` | src/application/reply-draft-pipeline.js:492-515 | The loop has the specified effect and counts as cancelled exactly the rows that count as answered. |
| `CanonicalJson.CanonicalExact` | src/application/jarvis-receipt-gate.js:6-19 | Two values that have canonical texts have the same text if and only if they are the same JSON value, up to key order and the sign of zero. |
| `CanonicalJson.Unambiguous` | src/application/jarvis-receipt-gate.js:6-19 | Two canonical texts that begin the same text, each up to a delimiter, belong to the same value. |
| `JsonNumber.NumberTextExact` | src/application/jarvis-receipt-gate.js:10-13 | Printed numbers are equal exactly when the numbers are, the two zeros printing alike. |
| `JsonNumber.MagnitudeRoundTrip` | src/application/jarvis-receipt-gate.js:10-13 | Digits and point can be read back from each of the five printed forms. |
| `JsonString.StringUnambiguous` | src/application/jarvis-receipt-gate.js:8 | A quoted string at the front of a text determines the string: short escapes, \u escapes of controls and lone surrogates, pairs. |
| `JsonString.Utf8Exact` | src/application/jarvis-receipt-gate.js:35 | UTF-8 keeps well-formed texts apart. |
| `CommandReceipt.PrintWellFormed` | src/application/jarvis-receipt-gate.js:35 | Canonical text holds no lone surrogate, so encoding it as UTF-8 loses nothing. |
| `CommandReceipt.DigestBindsEveryField` | src/application/jarvis-receipt-gate.js:21-36 | Under a hash without collisions, two command digests are equal exactly when all eleven fields are the same values. |
| `CommandReceipt.SignatureCoversReceipt` | src/application/jarvis-receipt-gate.js:46-49 | The signed bytes of two receipts are equal exactly when the receipts are the same value but for the signature. |
| `CommandReceipt.ReceiptFixesDrafts` | src/application/jarvis-receipt-gate.js:55-80 | All commands accepted with one receipt name the same drafts. |
| `CommandMeaning.ReceiptMeans` | src/application/jarvis-receipt-gate.js:38-53 | A receipt is accepted if and only if it is an issued approval for one use under the configured key, its three dates parse, now lies in its window of at most half an hour, and the signature verifies over the signed bytes. |
| `CommandMeaning.ReceiptWindow` | src/application/jarvis-receipt-gate.js:38-53 | Two times at which one receipt is accepted lie less than half an hour apart. |
| `CommandMeaning.CommandMeans` | src/application/jarvis-receipt-gate.js:64-80 | A command is accepted if and only if it is an external delegation of level three by and for this agent, in force now, with the receipt's request id, and its digest is the one the receipt names. |
| `CommandMeaning.FoundItem` | src/application/jarvis-receipt-gate.js:55-62 | The item found is the first that asks to send this draft with this content digest, and there is one if and only if some item does. |
| `CommandMeaning.MatchMeans` | src/application/jarvis-receipt-gate.js:55-62 | A command names a draft if and only if its items are a list with such an item in it. |
| `CommandMeaning.DigestBinds` | src/application/jarvis-receipt-gate.js:21-36 | The fields that equal digests bind are these eleven, by name, and no others. |
| `CommandMeaning.SignedMeans` | src/application/jarvis-receipt-gate.js:46-49 | What is signed is the domain and the canonical text of exactly the members other than "signature". |
| `JsonReading.CanonicalReadsBack` | src/application/jarvis-receipt-gate.js:6-19 | The bytes hashed or signed for a value are UTF-8 of a JSON text (RFC 3629, RFC 8259): they read back as the text, and the text as the same value, the keys of every object in code unit order. |
| `JsonReading.EscapeIsShortest` | src/application/jarvis-receipt-gate.js:8 | Only what must be escaped is, by its shortest escape; lone surrogates get the six-unit one. |
| `JsonReading.FormIff` | src/application/jarvis-receipt-gate.js:10-13 | When a number is printed with an exponent, a point or a leading zero. |
| `Utf8Reading.Utf8ReadsBack` | src/application/jarvis-receipt-gate.js:35 | The bytes of any text read back as the text with U+FFFD for each lone surrogate. |
| `ReceiptScan.Reconcile` | src/adapters/microsoft-graph-send.js:156-203 | Terminates for every mailbox; yields a receipt exactly when one message is confirmed; reports pending and ambiguous exactly for clean listings with none and with several; and every other code has the cause it names: a page that cannot be had, a link that leads astray, or a message or attachment that differs. |
| `ReceiptScan.ScanSentItems` | src/adapters/microsoft-graph-send.js:168-193 | Either returns all messages that carry the draft's id out of a clean listing, or no clean listing exists and the code names what was met. |
| `ReceiptScan.ReadSentAttachments` | src/adapters/microsoft-graph-send.js:205-246 | Either returns the facts of every attachment of a listing read in full, or there is none that can be, and the code names what was met. |
| `ReceiptScan.OneReceipt` | src/adapters/microsoft-graph-send.js:194-203 | At most one message can be confirmed, and it carries the draft's id and content. |
| `ReceiptMeaning.ConfirmedIff` | src/adapters/microsoft-graph-send.js:168-203 | A message is the receipt of a draft if and only if the listing can be read to its end within the limit, this message alone in it carries the draft's id, every field of it is as approved, and its attachments can be read in full and are the draft's. |
| `ReceiptMeaning.AcceptedIff` | src/adapters/microsoft-graph-send.js:178-184 | A message that carries the draft's id matches if and only if one header alone has that name, it is no draft, has an id, was sent no earlier than a minute before the approval, has the same subject, is plain text, has the same body up to line ends and white space around it, and the same to and cc addresses as lower-cased multisets. |
| `ReceiptScan.AddressesAreMultisets` | src/adapters/microsoft-graph-send.js:50-58 | Comparing sorted lower-cased addresses as JSON text is equality of multisets of lower-cased addresses. |
| `BodyText.BodyAccepted` | src/adapters/microsoft-graph-send.js:60-62 | CRLF line ends and any white space around the body, CR and LF included, do not matter. |
| `BodyText.SameBodyIff` | src/adapters/microsoft-graph-send.js:60-62 | Two bodies count as the same if and only if, with LF line ends, they are one text with white space around it. |
| `ReceiptScan.AcceptedFilesAreEqual` | src/adapters/microsoft-graph-send.js:249-263 | Accepted attachments are multiset-equal on name, size and sha256. |
| `ReceiptScan.FilesAcceptedInAnyOrderIff` | src/adapters/microsoft-graph-send.js:249-263 | The expected attachments are accepted in every order if and only if the host's text comparison ties no two different ones. |
| `ReceiptScan.SortKeyExact` | src/adapters/microsoft-graph-send.js:251 | Different attachments with hashes of one length have different sort keys. |
| `StableSort.SortDecidesIff` | src/adapters/microsoft-graph-send.js:252-262 | Sorting recognises all rearrangements of a list if and only if no two different items of it are tied. |
| `ProjectCsv.ParseRecords` | src/application/project-import.js:5-29 | The scanning loop computes the records of the state machine. |
| `ProjectCsv.AcceptsIff` | src/application/project-import.js:5-29 | A text is accepted if and only if, past a leading U+FEFF, some document of bare and quoted fields prints to it; and then the result is what that document means, whichever document it is: all-empty lines dropped, an unfinished last line kept. |
| `ProjectCsv.UnclosedIff` | src/application/project-import.js:5-29 | The two errors are told apart: a field was left open if and only if one more quote would make the text readable. |
| `ProjectCsv.RoundTripIff` | src/application/project-import.js:5-29 | Records that each have a filled field come back from every printed form, with any mix of LF, CR, CRLF and quoting, if and only if the print does not begin with U+FEFF. |
| `ProjectCsv.LineMeans` | src/application/project-import.js:5-29 | A finished line gives a record if and only if one of its fields is not empty. |
| `ProjectCsv.PrintedRoundTripIff` | src/application/project-import.js:5-29 | The same for the RFC 4180 printer that quotes where it must: exactly an unquoted leading U+FEFF is lost. |
| `ProjectBatch.PlanProjectBatch` | src/domain/project-registration.js:45-66 | The method with its key set and running id computes the batch function, errors included. |
| `ProjectRegistry.PlannedIff` | src/domain/project-registration.js:45-66 | A batch is planned if and only if every row can be prepared and the entries fit: imports with distinct keys that take over only imports, sharing no term with each other or with a project left alone. |
| `ProjectRegistry.RegistryKept` | src/domain/project-registration.js:53-60 | From a sound registry a plan leads to a sound one; untouched projects stay, known keys keep their ids, new keys get ids above all others. |
| `ProjectRegistry.OrderFree` | src/domain/project-registration.js:45-66 | Success, and the multiset of planned projects, do not depend on the order of the rows. |
| `ProjectRegistry.ReplanUnchanged` | src/domain/project-registration.js:41-43 | Planning the same rows again succeeds, leads to the same registry, and every action is unchanged. |
| `ProjectRegistry.CleanAliasesFacts` | src/domain/project-registration.js:16-18 | Cleaned aliases are at most thirty, distinct, at least two units long, and none folds to the name. |
| `ProjectRegistry.PrepareTwiceIff` | src/domain/project-registration.js:10-22 | Preparing a prepared project changes nothing if and only if its name, key and every alias are fixed points of the host's cleaning. |
| `ProjectMeaning.PrepareMeans` | src/domain/project-registration.js:10-22 | A project is refused for the first of four faults, and only then; otherwise it is its cleaned input. |
| `ProjectMeaning.AliasesMean` | src/domain/project-registration.js:16-18 | The aliases kept are distinct, at most thirty, each a cleaned alias of two units or more that does not fold to the name; below thirty none is left out. |
| `ProjectMeaning.RegistrationMeans` | src/domain/project-registration.js:24-43 | Registering one project: an import never takes over a person's project, a shared name or alias is refused naming the first project that has it, and the action tells creating, updating and leaving alone apart. |
| `ProjectMeaning.FaultMeans` | src/domain/project-registration.js:45-52 | A batch is refused for the first row that is not an import's or repeats the key of an earlier one. |
| `ProjectTable.Projects.ImportProjects` | src/storage/sqlite-store.js:1328-1339 | Writing a planned batch, names vacated first under names no project has, is never refused by a unique index, even when names are swapped; untouched rows stay, every entry has its row, and the indexes hold. |
| `ProjectTable.VacateFits` | src/storage/sqlite-store.js:1331-1336 | Vacating the next changed name collides with no row and changes nothing else. |
| `ProjectTable.AllSaved` | src/storage/sqlite-store.js:1337-1339 | Once every plan is saved, untouched rows are as they were, every entry has its row, and new rows are imports. |
| `MailSync.MailSyncService.RunSync` | src/application/mail-sync.js:225-341 | Whatever fails and wherever, the ids returned or thrown are exactly those of the pages committed, which follow one another from the saved cursor; the cursor is left after the last; success means a delta link was reached; and the failure is the one the outside raised, or that there were too many pages or a page without links. |
| `MailSync.MailSyncService.SyncFolder` | src/application/mail-sync.js:40-119 | A folder's cursor is cleared for a second round exactly when the first round, not forced to start afresh, failed because the cursor had expired, and clearing did not throw; in every other case the cursor is left after the pages of the first round and what ended that round is thrown. The ids returned or thrown are those of all pages committed in both rounds, without duplicates. |
| `MailSync.MailSyncService.SyncWithRetry` | src/resilience.js:3-21 | At most three attempts, each from the cursor the one before it left and as fresh as asked for, another one exactly after a retryable failure; the last failure is thrown, and the collected ids are those of all pages committed in all attempts. |
| `MailSync.MailSyncService.SyncMailbox` | src/application/mail-sync.js:121-223 | Lists without duplicates, in commit order, exactly the ids of the pages committed in all folders, failed ones included, and names exactly the folders whose last attempt failed, with that failure. |
| `MailSync.UniqueMessageIds` | src/application/mail-sync.js:9-18 | The loop computes the first occurrences of the ids that are not empty. |
| `MailSync.UniqueIdsExact` | src/application/mail-sync.js:9-18 | No id twice, none lost, none made up, in the order of first occurrence. |
| `MailSync.DeltaLinkKept` | src/storage/sqlite-store.js:527-575 | Saving pages one after another never loses a delta link: the saved one is that of the newest page that had one, and the next run starts at the newest page's next link, or without one at that delta link. |
| `DeltaResume.InterruptedIsWhole` | src/adapters/microsoft-graph-mail.js:187-218 | Against a server that answers each link in one way, any schedule of interrupted runs has applied a prefix of the pages of the uninterrupted run, and, once it reaches the delta link, exactly those pages in that order, with the same cursor. |
| `DeltaResume.NextRoundStart` | src/application/mail-sync.js:226 | After a closed round the next run starts at the delta link if and only if the closing page had no other next link. |
| `FolderDiscovery.ListMailFolders` | src/adapters/microsoft-graph-mail.js:220-269 | With finite page chains it terminates; success returns every reachable folder exactly once, as some listing has it, hidden ones filtered on request but descended into, and means that no more than the bound are reachable; the limit error means that more are; any other error means that a needed page cannot be had. |
| `FolderDiscovery.ReadListing` | src/adapters/microsoft-graph-mail.js:233-266 | Reading one listing puts everything it holds among the seen folders and queues the listings of new folders with children. |
| `ZipDirectory.InspectZip` | src/application/attachment-policy.js:16-52 | For any bytes, every read is in bounds and the verdict is that of the rules on the entries that the last end record leads to. |
| `ZipDirectory.FindEnd` | src/application/attachment-policy.js:17-25 | The backward search finds the last signature that leaves room for an end record and a comment of at most 65535 bytes, or there is none. |
| `ZipDirectory.DirectoryVisited` | src/application/attachment-policy.js:32-51 | The walker visits exactly the entries that were written, in order, with the fields written. |
| `ZipDirectory.ArchiveAcceptedIff` | src/application/attachment-policy.js:16-52 | An archive written with a comment-free end record is accepted if and only if it has at most 1000 entries, each is unencrypted, of given sizes, an allowed name and a ratio of at most 100, stored or deflated, and the sizes sum to at most 20 MiB. |
| `AttachmentQuota.QuotaHolds` | src/application/mail-attachment-assets.js:176-216 | In every interleaving, stored bytes exceed the total quota, and unlinked bytes the unlinked quota, by at most (maxFileBytes - 1) for each concurrent upload. |
| `AttachmentQuota.FittingQuotaHolds` | src/application/mail-attachment-assets.js:176-216 | When no body is longer than what was reserved for it, stored plus reserved bytes never pass either quota. |
| `AttachmentQuota.DefaultQuotaHolds` | src/application/mail-attachment-assets.js:13-20 | With the shipped limits the bounds are 512 MiB and 128 MiB plus two files of two MiB less a byte each, and at most two reservations are open. |
| `AttachmentExtremes.BoundReached` | src/application/mail-attachment-assets.js:176-216 | Whatever the limits, a run from the empty service takes the stored bytes to exactly the bound on the total quota. |
| `AttachmentExtremes.UnlinkedBoundReached` | src/application/mail-attachment-assets.js:176-216 | Likewise the unlinked bytes, when that quota is no greater than the total one. |
| `AttachmentUpload.StrandsIff` | src/application/mail-attachment-assets.js:264-327 | Whatever call throws and whatever others do meanwhile, an upload leaves the reservation it took open, with nobody to give it back, if and only if it read a valid body whose request was by then stored with the same digest and name, or giving it back on an exception throws as well. |
| `AttachmentUpload.AttachmentAssetService.UploadAttachment` | src/application/mail-attachment-assets.js:234-327 | The upload with its nested handlers, in an environment in which every outside call may throw: with a reservation it performs exactly the specified steps and ends as specified; without one it replays exactly when the request was stored at entry and the body it read has that digest and name, throws otherwise, and leaves the world to the others. |
| `AttachmentVerdict.SmoothIff` | src/application/mail-attachment-assets.js:234-315 | When every call answers and nobody interferes, an upload replays if and only if its request is stored with this content and name, and creates if and only if its request has no row, no upload of it is under way, and the slots and both quotas have room; a declared length of zero or beyond the limit, or such a body, always throws. |
| `AttachmentVerdict.EndMeans` | src/application/mail-attachment-assets.js:274-327 | Whatever throws and whatever others do, an upload that reports a new asset added exactly that row for a request without one, one that reports a replay saw that content stored, and no other end adds or changes any asset. |
| `AttachmentVerdict.EndsWell` | src/application/mail-attachment-assets.js:234-327 | An upload that does not throw had every call on its way answered. |
| `AttachmentVerdict.OneOfEach` | src/application/mail-attachment-assets.js:201-215 | In every run no request is stored twice, and none has two open reservations. |
| `AttachmentVerdict.CountsIff` | src/application/mail-attachment-assets.js:187-200 | A live asset counts against the total quota, and against the unlinked one if and only if no draft links it and it has not expired; a dead one counts against neither. |
| `AttachmentVerdict.FaultIff` | src/application/mail-attachment-assets.js:178-213 | A reservation is refused for the first of too many uploads, a full quota and an upload of that request under way, and only then. |
| `AttachmentExtremes.RaceStrands` | src/application/mail-attachment-assets.js:264-281 | From any world with room for two uploads, one that is raced by another for the same request replays it and strands its reservation. |
| `AttachmentExtremes.TwoRacesBlock` | src/application/mail-attachment-assets.js:13-20 | With the shipped limits, from the empty service, two such races make every later upload fail, whatever else happens. |
| `AttachmentQuota.StrandedStays` | src/application/mail-attachment-assets.js:170-174 | No later step closes such a reservation. |
| `AttachmentQuota.StrandedBlocks` | src/application/mail-attachment-assets.js:178-182 | As many such reservations as uploads may run at once refuse every later upload. |
| `IntakeGrant.CurrentIff` | src/application/intake-authorization.js:98-107 | A capture is current if and only if since it was taken no token was replaced, no proof invalidated, no mailbox switched, not even away and back, and the revision is the one it had. |
| `IntakeGrant.EpochTellsDisruption` | src/application/intake-authorization.js:149-164 | The epoch never decreases and stands still exactly while nothing disrupts the grant. |
| `IntakeGrant.CurrentIffUntouched` | src/application/intake-authorization.js:98-107 | In a run whose registrations raise the revision or repeat the binding with its mailbox selected, a capture is current if and only if nothing touched token, proof, binding or selection since, and then binding and selection are as captured. |
| `IntakeGrant.RegistrationSeenIff` | src/application/intake-authorization.js:186-201 | A capture that stays current across a registration still has the right binding and selection if and only if the registration changed the revision or changed nothing. |
| `IntakeGrant.SafeIffShows` | src/application/intake-authorization.js:186-201 | Over every continuation by such registrations, no capture is wrongly current if and only if this registration raises the revision or repeats the binding with its mailbox selected. |
| `IntakeGrant.PlanMeans` | src/application/intake-identity.js:203-233 | The first binding gets revision one, one of another account is refused, a repeated identity stays as it is, and any other gets the next revision. |
| `IntakeGrant.PlannedShowsIff` | src/application/intake-identity.js:203-233 | What the planner proposes from the current binding is such a registration if and only if there was no binding, the identity is new, or the bound mailbox is the selected one: a repeated identity keeps its revision. |
| `IntakeGrant.SwitchBackUnseen` | src/application/intake-identity.js:230-232 | A concrete run: the selection moves to another mailbox, the bound identity is registered again, and a capture taken between stays current although the selection moved back. |
| `IntakeGrant.ParallelPlansUnseen` | src/application/intake-identity.js:230-232 | Two different registrations planned from one binding get one revision, so captures of the first stay current after the second replaced it. |
| `IntakeGrant.FrozenIff` | src/application/intake-authorization.js:217-231 | A frozen authorization works exactly while nothing disrupted the grant and its own token is still the proven one at the same revision. |
| `IntakeGrant.NoStaleAuthority` | src/application/intake-authorization.js:78-87 | In every run from a fresh grant, identity is proven only by a token that an accepted publication brought and that nothing has disrupted since. |
| `IntakeGrant.ProvenIff` | src/application/intake-authorization.js:78-87 | In every run from a fresh grant, identity is proven if and only if the binding is configured and an accepted publication brought a token that nothing has disrupted since. |
| `IntakeGrant.IntakeGrantService.FinishRegistration` | src/application/intake-authorization.js:198-208 | After its write a registration fails if and only if the epoch moved on, and then binding, selection and proof are unchanged. |
| `IntakeGrant.IntakeGrantService.PublishRegistration` | src/application/intake-authorization.js:186-215 | With anything happening while the write is awaited, a registration takes effect if and only if the identity was verified for this binding in the captured epoch and nothing disrupted the grant meanwhile; otherwise only the others' doings remain and the refusal says which was missing. |
| `IntakeGrant.OvertakenProof` | src/application/intake-authorization.js:166-180 | A proof made for an epoch is accepted later if and only if nothing disrupted the grant meanwhile and it is for the current revision and principal. |
| `IntakeGrant.IntakeGrantService.Authorize` | src/application/intake-authorization.js:112-126 | Authority is given if and only if the requested mailbox and the selected one are the bound one, the bound workspace is the configured and the requested one, and a proof of the bound principal exists of this generation, epoch and revision; the refusal names the first of these that fails. |

## Left out

- SendDatabase.MailSendDrafts.Run: a refused ROLLBACK, reads that throw, and errors after which SQLite rolls back by itself are not modelled.
- SendWorker.SendReconciliationWorker.RunOnce: describes a run that nothing overtakes; interleaved runs are the step system's.
- SendWorker.SendReconciliationWorker.ClaimDue: the caller-chosen time of the worker's own `enqueue` is not modelled; the service never passes one.
- SendDatabase.MailSendDrafts.Create: field validation and the size limit of bound attachments are left to the `assetsBound` answer; a draft and its attachment rows are one write, and link lists are not modelled.
- SendDatabase.MailSendDrafts.RecordOutcome: the company-memory outbox row written beside a sent draft is not modelled.
- SendExclusion.ExclusionKeptIff: is about the backing of leases; when a second task follows depends on backoff, readers and claims after the release.
- AnsweredDrafts.HandledOnlyWhileMarked: each operation runs from start to end; what a stopped one leaves is stated by the methods of HandledService.
- ReceiptScan.Reconcile: the byte limits of responses appear only as a page that cannot be read.
- CanonicalJson.CanonicalExact: sparse arrays, which JSON text cannot produce, are not values of the model.
- CommandMeaning.ReceiptMeans: the check of the signature itself and the parsing of dates are functions of the host.
- ProjectCsv.ParseRecords: the header and the rules for single columns come after it and are not modelled.
- ProjectTable.Projects.ImportProjects: ids of new rows are any free ones; audit rows and time stamps are not modelled.
- MailSync.MailSyncService.SyncMailbox: page and item totals are not modelled, and recording a failure is taken not to throw itself.
- FolderDiscovery.ListMailFolders: page chains that never end do not terminate and are excluded.
- ZipDirectory.InspectZip: reading the name as UTF-8 and the expressions names are matched against are one predicate.
- AttachmentQuota.QuotaHolds: fractional content lengths, which the database refuses, are not modelled.
- IntakeGrant.IntakeGrantService.Authorize: mailbox users come as keys, already trimmed and lower-cased.
- HTTP routing, sessions, CSRF and all browser code.
- Cryptography itself, token claims and key handling.
- Text classification, templates, search, AI prompts and their subprocesses.
- Google Drive, Notion, CWOS, price and company-memory clients.
- Circuit breakers, scan states and other single-branch guards: they would only add easy members.
