/**
 The rows of the send tables, and what each database transaction of the send protocol
 does to them.  Every function below is one whole transaction: it either yields the
 store that is committed or the error that rolled the transaction back.
 */
module SendStore {
  import opened Wrappers

  type DraftId = string
  type Time = int

  datatype Status =
    | NeedsApproval | NeedsClarification | Approved | Sending | Sent | Failed | Cancelled
  {
    predicate InReview() { NeedsApproval? || NeedsClarification? }

    /** The statuses a draft can only reach through a claim. */
    predicate Launched() { Sending? || Sent? || Failed? }
  }

  datatype Code =
    | DraftNotFound | SourceMessageNotFound | AssetNotFound | IdempotencyConflict
    | MailSendDisabled | MailSendScopeRequired | HumanApprovalRequired | DraftDigestMismatch
    | RecipientNotAllowed | AssetChanged | DraftNeedsClarification | DraftNotApprovable
    | DraftNotCancellable | DraftNotRestorable | DraftNotSending | InvalidReceipt
    | InvalidFailureCode | ReceiptInvalid | ReceiptAlreadyUsed | ConstraintViolation
    | StatementFailed

  datatype Fingerprint = Fingerprint(name: string, mime: string, size: nat, sha256: string)
  datatype FrozenAsset = FrozenAsset(assetId: string, frozen: Fingerprint)
  datatype Asset = Asset(ready: bool, current: Fingerprint, scanPolicyCurrent: bool)

  datatype Payload = Payload(
    to: seq<string>, cc: seq<string>, subject: string, bodyText: string,
    messageId: Option<nat>, attachments: seq<FrozenAsset>)

  datatype Draft = Draft(
    source: string, requestId: string, payload: Payload, digest: string, status: Status,
    approvedAt: Option<Time>, approvedBy: Option<string>,
    sentAt: Option<Time>, graphMessageId: Option<string>, failureReason: Option<string>)

  datatype Event = Event(draftId: DraftId, status: Status, actor: string, at: Time, reason: string)

  datatype JobState = Pending | Leased | Complete

  datatype Job = Job(
    state: JobState, attemptCount: nat, nextAttemptAt: Time, leaseOwner: string,
    leaseExpiresAt: Option<Time>, lastFailureCode: string, createdAt: Time)

  /** `requests` is the unique index on (source, request_id); `uses` the table of consumed receipt items. */
  datatype Store = Store(
    drafts: map<DraftId, Draft>, requests: map<(string, string), DraftId>, events: seq<Event>,
    hasQueue: bool, jobs: map<DraftId, Job>, uses: map<(string, string), DraftId>,
    assets: map<string, Asset>)

  datatype Effect<+T> = Done(store: Store, value: T) | Rejected(code: Code)

  const EMPTY_STORE := Store(map[], map[], [], true, map[], map[], map[])

  const SESSION_PREFIX := "session:"
  const RECEIPT_PREFIX := "jarvis-receipt:"
  const SYSTEM_PREFIX := "system:"
  const MAIL_INTELLIGENCE := "mail-intelligence"
  const ALREADY_REPLIED_ACTOR := "system:already-replied"
  const ALREADY_REPLIED_REASON := "이미 회신함"
  const HANDLED_ELSEWHERE_ACTOR := "system:handled-elsewhere"
  const HANDLED_ELSEWHERE_REASON := "외부에서 회신함"
  const RESTORED_REASON := "restored"
  const UNFILLED_SLOT := "{확인 필요}"

  // ---------- Text guards ----------

  predicate Contains(text: string, part: string)
    decreases |text|
  {
    part <= text || (text != "" && Contains(text[1..], part))
  }

  /** A body that still holds an unfilled slot must be clarified by a person first. */
  predicate BodyNeedsClarification(body: string) { Contains(body, UNFILLED_SLOT) }

  predicate IsSpace(c: char)
  {
    || '\t' <= c <= '\r' || c == ' ' || c == '\U{A0}' || c == '\U{1680}' || '\U{2000}' <= c <= '\U{200A}'
    || c in {'\U{2028}', '\U{2029}', '\U{202F}', '\U{205F}', '\U{3000}', '\U{FEFF}'}
  }

  predicate Blank(text: string) { forall c | c in text :: IsSpace(c) }

  predicate SessionActor(actor: string) { SESSION_PREFIX <= actor && |actor| <= 160 }

  predicate ReceiptActor(actor: string) { RECEIPT_PREFIX <= actor && |actor| <= 160 }

  /** The shape every stored failure code has: three to eighty capitals, digits and underscores. */
  predicate ValidFailureCode(code: string)
  {
    && 3 <= |code| <= 80
    && 'A' <= code[0] <= 'Z'
    && forall c | c in code :: 'A' <= c <= 'Z' || '0' <= c <= '9' || c == '_'
  }

  // ---------- Reading the event log ----------

  /** The events of one draft, oldest first. */
  function EventsOf(events: seq<Event>, id: DraftId): (es: seq<Event>)
  {
    if events == [] then []
    else
      var n := |events| - 1;
      EventsOf(events[..n], id) + if events[n].draftId == id then [events[n]] else []
  }

  /** The newest event of `es` that satisfies `p`. */
  function LastWhere(es: seq<Event>, p: Event -> bool): Option<Event>
  {
    if es == [] then None
    else if p(es[|es| - 1]) then Some(es[|es| - 1])
    else LastWhere(es[..|es| - 1], p)
  }

  predicate SystemCancelEvent(e: Event)
  {
    SYSTEM_PREFIX <= e.actor || e.reason == ALREADY_REPLIED_REASON || e.reason == HANDLED_ELSEWHERE_REASON
  }

  function LastCancellation(events: seq<Event>, id: DraftId): Option<Event>
  {
    LastWhere(EventsOf(events, id), (e: Event) => e.status.Cancelled?)
  }

  predicate IsSystemCancelled(s: Store, id: DraftId)
  {
    var e := LastCancellation(s.events, id);
    e.Some? && SystemCancelEvent(e.value)
  }

  function PriorReviewStatus(s: Store, id: DraftId): Status
  {
    var e := LastWhere(EventsOf(s.events, id), (e: Event) => e.status.InReview());
    if e.Some? then e.value.status else NeedsApproval
  }

  predicate FrozenAssetsIntact(s: Store, d: Draft)
  {
    forall a | a in d.payload.attachments && a.assetId in s.assets ::
      var row := s.assets[a.assetId];
      row.ready && row.current == a.frozen && row.scanPolicyCurrent
  }

  // ---------- Writing rows ----------

  /** Update one draft row and append the event that goes with it. */
  function Log(s: Store, id: DraftId, d: Draft, actor: string, now: Time, reason: string): Store
  {
    s.(drafts := s.drafts[id := d], events := s.events + [Event(id, d.status, actor, now, reason)])
  }

  /** What an upsert makes of a job it finds. */
  function Requeued(j: Job, failureCode: string, now: Time): Job
  {
    var code := if failureCode != "" then failureCode else j.lastFailureCode;
    if j.state.Pending? then
      j.(nextAttemptAt := now, lastFailureCode := code, leaseOwner := "", leaseExpiresAt := None)
    else j.(lastFailureCode := code)
  }

  /** The upsert of a reconciliation job: it never touches the lease columns of a leased or complete job. */
  function Enqueue(s: Store, id: DraftId, failureCode: string, now: Time): Store
    requires id in s.drafts
  {
    if !s.hasQueue || !s.drafts[id].status.Sending? then s
    else
      s.(jobs := s.jobs[id :=
        if id in s.jobs then Requeued(s.jobs[id], failureCode, now)
        else Job(Pending, 0, now, "", None, failureCode, now)])
  }

  // ---------- MailSendDrafts ----------

  datatype NewDraft = NewDraft(
    source: string, requestId: string, to: seq<string>, cc: seq<string>, subject: string,
    userBody: string, appendix: string, messageId: Option<nat>, attachments: seq<FrozenAsset>, digest: string)

  datatype Created = Created(id: DraftId, replay: bool)

  /** `sourceKnown` and `assetsBound` are the answers of the message and attachment tables. */
  function Create(s: Store, now: Time, input: NewDraft, newId: DraftId, sourceKnown: bool, assetsBound: bool):
      Effect<Created>
  {
    var key := (input.source, input.requestId);
    if input.messageId.Some? && !sourceKnown then Rejected(SourceMessageNotFound)
    else if !assetsBound then Rejected(AssetNotFound)
    else if key in s.requests && s.requests[key] in s.drafts then
      var previous := s.requests[key];
      if s.drafts[previous].digest != input.digest then Rejected(IdempotencyConflict)
      else Done(s, Created(previous, true))
    else if newId in s.drafts || key in s.requests then Rejected(ConstraintViolation)
    else
      var complete := input.to != [] && input.subject != "" && !Blank(input.userBody)
        && !BodyNeedsClarification(input.userBody);
      var status := if complete then NeedsApproval else NeedsClarification;
      var payload := Payload(input.to, input.cc, input.subject, input.userBody + input.appendix,
                             input.messageId, input.attachments);
      var d := Draft(input.source, input.requestId, payload, input.digest, status, None, None, None, None, None);
      Done(Log(s, newId, d, input.source, now, "").(requests := s.requests[key := newId]), Created(newId, false))
  }

  datatype Approval = Approval(
    actor: string, digest: string, allowSend: bool, hasSendScope: bool, receiptVerified: bool,
    recipientsAllowed: bool)

  predicate ApproverAccepted(a: Approval)
  {
    SessionActor(a.actor) || (a.receiptVerified && ReceiptActor(a.actor))
  }

  function Approve(s: Store, now: Time, id: DraftId, a: Approval): Effect<Draft>
  {
    if !a.allowSend then Rejected(MailSendDisabled)
    else if !a.hasSendScope then Rejected(MailSendScopeRequired)
    else if !ApproverAccepted(a) then Rejected(HumanApprovalRequired)
    else if id !in s.drafts then Rejected(DraftNotFound)
    else
      var d := s.drafts[id];
      if a.digest != d.digest then Rejected(DraftDigestMismatch)
      else if !a.recipientsAllowed then Rejected(RecipientNotAllowed)
      else if !FrozenAssetsIntact(s, d) then Rejected(AssetChanged)
      else if d.status.Approved? || d.status.Sending? || d.status.Sent? then Done(s, d)
      else if BodyNeedsClarification(d.payload.bodyText) then Rejected(DraftNeedsClarification)
      else if !d.status.NeedsApproval? then Rejected(DraftNotApprovable)
      else
        var d' := d.(status := Approved, approvedAt := Some(now), approvedBy := Some(a.actor));
        Done(Log(s, id, d', a.actor, now, ""), d')
  }

  /** True exactly when this call moved the draft from approved to sending. */
  function Claim(s: Store, now: Time, id: DraftId): Effect<bool>
  {
    if id !in s.drafts then Rejected(DraftNotFound)
    else
      var d := s.drafts[id];
      if !d.status.Approved? then Done(s, false)
      else if !FrozenAssetsIntact(s, d) then Rejected(AssetChanged)
      else
        Done(Enqueue(Log(s, id, d.(status := Sending), MAIL_INTELLIGENCE, now, ""), id, "", now), true)
  }

  predicate SystemReply(actor: string, reason: string)
  {
    || (actor == ALREADY_REPLIED_ACTOR && reason == ALREADY_REPLIED_REASON)
    || (actor == HANDLED_ELSEWHERE_ACTOR && reason == HANDLED_ELSEWHERE_REASON)
  }

  function Cancel(s: Store, now: Time, id: DraftId, actor: string, reason: string): Effect<Draft>
  {
    if !SystemReply(actor, reason) && !SessionActor(actor) then Rejected(HumanApprovalRequired)
    else if id !in s.drafts then Rejected(DraftNotFound)
    else
      var d := s.drafts[id];
      if d.status.Cancelled? then Done(s, d)
      else if SystemReply(actor, reason) && !d.status.InReview() then Done(s, d)
      else if !d.status.InReview() && !d.status.Approved? then Rejected(DraftNotCancellable)
      else
        var d' := d.(status := Cancelled);
        Done(Log(s, id, d', actor, now, reason), d')
  }

  function Restore(s: Store, now: Time, id: DraftId, actor: string): Effect<Draft>
  {
    if !SessionActor(actor) then Rejected(HumanApprovalRequired)
    else if id !in s.drafts then Rejected(DraftNotFound)
    else
      var d := s.drafts[id];
      if !d.status.Cancelled? || !IsSystemCancelled(s, id) then Rejected(DraftNotRestorable)
      else
        var d' := d.(status := PriorReviewStatus(s, id));
        Done(Log(s, id, d', actor, now, RESTORED_REASON), d')
  }

  /** A timestamp field as Graph sent it: absent, unreadable, or a time. */
  datatype Stamp = Absent | Unreadable | At(t: Time)

  datatype Outcome = Outcome(graphMessageId: string, sentAt: Stamp, failureCode: string, uncertain: bool)
  {
    predicate Receipt() { graphMessageId != "" && !sentAt.Absent? }
  }

  function Uncertain(code: string): Outcome { Outcome("", Absent, code, true) }

  function CompleteJob(s: Store, id: DraftId): Store
  {
    if s.hasQueue && id in s.jobs then
      s.(jobs := s.jobs[id := s.jobs[id].(state := Complete, leaseOwner := "", leaseExpiresAt := None)])
    else s
  }

  function RecordOutcome(s: Store, now: Time, id: DraftId, o: Outcome): Effect<Draft>
  {
    if id !in s.drafts then Rejected(DraftNotFound)
    else
      var d := s.drafts[id];
      if d.status.Sent? then Done(s, d)
      else if !d.status.Sending? then Rejected(DraftNotSending)
      else if o.Receipt() then
        if |o.graphMessageId| > 2048 || !o.sentAt.At? then Rejected(InvalidReceipt)
        else
          var d' := d.(status := Sent, graphMessageId := Some(o.graphMessageId), sentAt := Some(o.sentAt.t),
                       failureReason := None);
          Done(CompleteJob(Log(s, id, d', MAIL_INTELLIGENCE, now, ""), id), d')
      else if !ValidFailureCode(o.failureCode) then Rejected(InvalidFailureCode)
      else
        var d' := d.(status := if o.uncertain then Sending else Failed, failureReason := Some(o.failureCode));
        var s' := Log(s, id, d', MAIL_INTELLIGENCE, now, o.failureCode);
        Done(if o.uncertain then Enqueue(s', id, o.failureCode, now) else s', d')
  }

  // ---------- The receipt gate and the approve route ----------

  /** A command receipt presented with an approval; `valid` is the verdict of its signature and command checks. */
  datatype Gate = NoReceipt | Receipt(receiptId: string, valid: bool)

  function ItemDigest(d: Draft): string { "sha256:" + d.digest }

  function ConsumeReceiptItem(s: Store, receiptId: string, itemDigest: string, id: DraftId): Effect<()>
  {
    if (receiptId, itemDigest) in s.uses then Rejected(ReceiptAlreadyUsed)
    else Done(s.(uses := s.uses[(receiptId, itemDigest) := id]), ())
  }

  function GateActor(gate: Gate, sessionActor: string): string
  {
    if gate.Receipt? then RECEIPT_PREFIX + gate.receiptId else sessionActor
  }

  /** The transaction of the approve route: consume the receipt item, approve, claim; all or nothing. */
  function ApproveAndClaim(s: Store, now: Time, id: DraftId, gate: Gate, request: Approval): Effect<bool>
  {
    if id !in s.drafts then Rejected(DraftNotFound)
    else if gate.Receipt? && !gate.valid then Rejected(ReceiptInvalid)
    else
      var consumed :=
        if gate.Receipt? then ConsumeReceiptItem(s, gate.receiptId, ItemDigest(s.drafts[id]), id) else Done(s, ());
      if consumed.Rejected? then Rejected(consumed.code)
      else
        var approved := Approve(consumed.store, now, id,
          request.(actor := GateActor(gate, request.actor), receiptVerified := gate.Receipt?));
        if approved.Rejected? then Rejected(approved.code)
        else Claim(approved.store, now, id)
  }

  // ---------- The reconciliation worker ----------

  datatype WorkerConfig = WorkerConfig(workerId: string, leaseMs: int, baseBackoffMs: int, maxBackoffMs: int)
  {
    /** The bounds the worker's constructor enforces. */
    predicate Clamped() { leaseMs >= 1000 && 100 <= baseBackoffMs <= maxBackoffMs }
  }

  predicate Due(s: Store, id: DraftId, now: Time)
  {
    && id in s.jobs && id in s.drafts && s.drafts[id].status.Sending?
    && var j := s.jobs[id];
       || (j.state.Pending? && j.nextAttemptAt <= now)
       || (j.state.Leased? && j.leaseExpiresAt.Some? && j.leaseExpiresAt.value <= now)
  }

  predicate Before(a: Job, b: Job)
  {
    a.nextAttemptAt < b.nextAttemptAt || (a.nextAttemptAt == b.nextAttemptAt && a.createdAt <= b.createdAt)
  }

  function ClampLimit(limit: int): nat
  {
    if limit == 0 then 20 else if limit < 1 then 1 else if limit > 100 then 100 else limit
  }

  /** `rows` is an answer SQLite may give to the due query: the first due jobs in order, up to the limit. */
  ghost predicate DueAnswer(s: Store, now: Time, limit: int, rows: seq<DraftId>)
  {
    && s.hasQueue
    && |rows| <= ClampLimit(limit)
    && (forall i | 0 <= i < |rows| :: Due(s, rows[i], now))
    && (forall i, j | 0 <= i < j < |rows| :: rows[i] != rows[j] && Before(s.jobs[rows[i]], s.jobs[rows[j]]))
    && (forall id | Due(s, id, now) && id !in rows ::
          |rows| == ClampLimit(limit) && forall i | 0 <= i < |rows| :: Before(s.jobs[rows[i]], s.jobs[id]))
  }

  predicate Leasable(j: Job, now: Time)
  {
    j.state.Pending? || (j.state.Leased? && j.leaseExpiresAt.Some? && j.leaseExpiresAt.value <= now)
  }

  function Lease(j: Job, workerId: string, leaseUntil: Time): Job
  {
    j.(state := Leased, leaseOwner := workerId, leaseExpiresAt := Some(leaseUntil), attemptCount := j.attemptCount + 1)
  }

  /** The guarded update of one selected row. */
  function LeaseRow(s: Store, id: DraftId, workerId: string, now: Time, leaseUntil: Time): Store
  {
    if id in s.jobs && Leasable(s.jobs[id], now)
    then s.(jobs := s.jobs[id := Lease(s.jobs[id], workerId, leaseUntil)])
    else s
  }

  /** Lease the selected rows one after another. */
  function LeaseRows(s: Store, rows: seq<DraftId>, workerId: string, now: Time, leaseUntil: Time): Store
  {
    if rows == [] then s
    else
      var n := |rows| - 1;
      LeaseRow(LeaseRows(s, rows[..n], workerId, now, leaseUntil), rows[n], workerId, now, leaseUntil)
  }

  function Pow2(n: nat): nat { if n == 0 then 1 else 2 * Pow2(n - 1) }

  function Min(a: int, b: int): int { if a <= b then a else b }

  /** The wait before the next attempt, from the attempt count the worker read before it took the lease. */
  function BackoffDelay(c: WorkerConfig, attemptCount: nat): int
  {
    var attempt := if attemptCount == 0 then 1 else attemptCount;
    Min(c.maxBackoffMs, c.baseBackoffMs * Pow2(Min(attempt - 1, 10)))
  }

  /** The code a worker stores for an outcome without a receipt. */
  function WorkerFailureCode(o: Outcome): string
  {
    if ValidFailureCode(o.failureCode) then o.failureCode else "GRAPH_RECEIPT_UNAVAILABLE"
  }

  /** The outcome a worker hands to `recordOutcome`. */
  function WorkerOutcome(o: Outcome): Outcome
  {
    if o.Receipt() then o else Uncertain(WorkerFailureCode(o))
  }

  /** The job row after a worker is done with it. */
  function Released(j: Job, c: WorkerConfig, attemptCount: nat, o: Outcome, now: Time): Job
  {
    if o.Receipt() then j.(state := Complete, leaseOwner := "", leaseExpiresAt := None)
    else
      j.(state := Pending, leaseOwner := "", leaseExpiresAt := None,
         nextAttemptAt := now + BackoffDelay(c, attemptCount), lastFailureCode := WorkerFailureCode(o))
  }

  /** The worker's own job update, fenced by its id. */
  function ReleaseJob(s: Store, id: DraftId, c: WorkerConfig, attemptCount: nat, o: Outcome, now: Time): Store
  {
    if id !in s.jobs || s.jobs[id].leaseOwner != c.workerId then s
    else s.(jobs := s.jobs[id := Released(s.jobs[id], c, attemptCount, o, now)])
  }
}
