/** Why a transaction is refused: the first demand that is not met, in the order the service looks at them. */
module SendRefusals {
  import opened Wrappers
  import opened SendStore
  import opened SendLifecycle
  import opened SendAuthority

  /** A demand, the answer when it is not met, and the demands that come after it. */
  function Unless(met: bool, code: Code, later: Option<Code>): Option<Code>
  {
    if met then later else Some(code)
  }

  function Refusal<T>(e: Effect<T>): Option<Code> { if e.Rejected? then Some(e.code) else None }

  lemma CreateRefusal(s: Store, now: Time, input: NewDraft, newId: DraftId, sourceKnown: bool, assetsBound: bool)
    ensures var key := (input.source, input.requestId);
            var known := key in s.requests && s.requests[key] in s.drafts;
            Refusal(Create(s, now, input, newId, sourceKnown, assetsBound)) ==
              Unless(input.messageId.Some? ==> sourceKnown, SourceMessageNotFound,
              Unless(assetsBound, AssetNotFound,
              Unless(known ==> s.drafts[s.requests[key]].digest == input.digest, IdempotencyConflict,
              Unless(known || (newId !in s.drafts && key !in s.requests), ConstraintViolation, None))))
  {
    hide BodyNeedsClarification, Blank;
  }

  lemma ApproveRefusal(s: Store, now: Time, id: DraftId, a: Approval)
    ensures var found := id in s.drafts;
            var settled := found && (s.drafts[id].status.Approved? || s.drafts[id].status.Sending? || s.drafts[id].status.Sent?);
            Refusal(Approve(s, now, id, a)) ==
              Unless(a.allowSend, MailSendDisabled,
              Unless(a.hasSendScope, MailSendScopeRequired,
              Unless(Person(a.actor) || (a.receiptVerified && "jarvis-receipt:" <= a.actor && |a.actor| <= 160),
                     HumanApprovalRequired,
              Unless(found, DraftNotFound,
              Unless(found ==> a.digest == s.drafts[id].digest, DraftDigestMismatch,
              Unless(a.recipientsAllowed, RecipientNotAllowed,
              Unless(found ==> AssetsReady(s, s.drafts[id]), AssetChanged,
              Unless(settled || (found ==> !HoldsSlot(s.drafts[id].payload.bodyText)), Code.DraftNeedsClarification,
              Unless(settled || (found ==> s.drafts[id].status.NeedsApproval?), DraftNotApprovable, None)))))))))
  {
    PersonIff(a.actor);
    if id in s.drafts {
      SlotIff(s.drafts[id].payload.bodyText);
      AssetsIff(s, s.drafts[id]);
    }
    hide BodyNeedsClarification, HoldsSlot, FrozenAssetsIntact, AssetsReady, SessionActor, Person;
  }

  lemma ClaimRefusal(s: Store, now: Time, id: DraftId)
    ensures Refusal(Claim(s, now, id)) ==
      Unless(id in s.drafts, DraftNotFound,
      Unless(id in s.drafts && s.drafts[id].status.Approved? ==> AssetsReady(s, s.drafts[id]), AssetChanged, None))
  {
    if id in s.drafts { AssetsIff(s, s.drafts[id]); }
    hide FrozenAssetsIntact, AssetsReady, Requeued;
  }

  lemma CancelRefusal(s: Store, now: Time, id: DraftId, actor: string, reason: string)
    ensures var found := id in s.drafts;
            Refusal(Cancel(s, now, id, actor, reason)) ==
              Unless(SystemPair(actor, reason) || Person(actor), HumanApprovalRequired,
              Unless(found, DraftNotFound,
              Unless(SystemPair(actor, reason) || (found ==>
                       s.drafts[id].status.Cancelled? || s.drafts[id].status.InReview() || s.drafts[id].status.Approved?),
                     DraftNotCancellable, None)))
  {
    PersonIff(actor);
    SystemIff(actor, reason);
    hide SessionActor, SystemReply, Person, SystemPair;
  }

  lemma RestoreRefusal(s: Store, now: Time, id: DraftId, actor: string)
    requires LogInv(s)
    ensures var found := id in s.drafts;
            Refusal(Restore(s, now, id, actor)) ==
              Unless(Person(actor), HumanApprovalRequired,
              Unless(found, DraftNotFound,
              Unless(found ==> s.drafts[id].status.Cancelled? && SystemCancelled(s, id), DraftNotRestorable, None)))
  {
    PersonIff(actor);
    if id in s.drafts && s.drafts[id].status.Cancelled? {
      FirstEvent(s, id);
      CancelledLast(s, id);
    }
    hide SessionActor, Person, LogInv, EventsOf, IsSystemCancelled, PriorReviewStatus;
  }

  lemma RecordRefusal(s: Store, now: Time, id: DraftId, o: Outcome)
    ensures var found := id in s.drafts;
            var sending := found && s.drafts[id].status.Sending?;
            Refusal(RecordOutcome(s, now, id, o)) ==
              Unless(found, DraftNotFound,
              Unless(found ==> sending || s.drafts[id].status.Sent?, DraftNotSending,
              Unless(sending && ReceiptOf(o) ==> |o.graphMessageId| <= 2048 && o.sentAt.At?, InvalidReceipt,
              Unless(sending && !ReceiptOf(o) ==> CodeShape(o.failureCode), InvalidFailureCode, None))))
  {
    CodeIff(o.failureCode);
    hide ValidFailureCode, CodeShape, Log, Enqueue, CompleteJob;
  }

  /** The draft, the receipt's checks, its item, and then what the approval and the claim ask for. */
  lemma RouteRefusal(s: Store, now: Time, id: DraftId, gate: Gate, request: Approval)
    ensures var found := id in s.drafts;
            var approved := if found then Approve(Consumed(s, id, gate), now, id, RouteApproval(gate, request))
                            else Rejected(DraftNotFound);
            Refusal(ApproveAndClaim(s, now, id, gate, request)) ==
              Unless(found, DraftNotFound,
              Unless(gate.Receipt? ==> gate.valid, ReceiptInvalid,
              Unless(gate.Receipt? && found ==> (gate.receiptId, "sha256:" + s.drafts[id].digest) !in s.uses,
                     ReceiptAlreadyUsed,
              if approved.Rejected? then Some(approved.code) else Refusal(Claim(approved.store, now, id)))))
  {
    hide Approve, Claim;
  }

  /** What is stored with an outcome: the message and its time, or the code of the failure. */
  lemma RecordStores(s: Store, now: Time, id: DraftId, o: Outcome)
    ensures var r := RecordOutcome(s, now, id, o);
            r.Done? && s.drafts[id].status.Sending? ==>
              && r.store.drafts == s.drafts[id := r.value] && r.store.events == s.events
                 + [Event(id, r.value.status, "mail-intelligence", now, if ReceiptOf(o) then "" else o.failureCode)]
              && r.value.approvedAt == s.drafts[id].approvedAt && r.value.approvedBy == s.drafts[id].approvedBy
              && if ReceiptOf(o) then
                   o.sentAt.At? && r.value.graphMessageId == Some(o.graphMessageId)
                   && r.value.sentAt == Some(o.sentAt.t) && r.value.failureReason.None?
                 else
                   r.value.failureReason == Some(o.failureCode)
                   && r.value.graphMessageId == s.drafts[id].graphMessageId && r.value.sentAt == s.drafts[id].sentAt
  {
    hide ValidFailureCode, Requeued;
  }

  /** An approval stores when and by whom, and logs it. */
  lemma ApproveStores(s: Store, now: Time, id: DraftId, a: Approval)
    ensures var r := Approve(s, now, id, a);
            r.Done? && s.drafts[id].status.NeedsApproval? ==>
              && r.value.approvedAt == Some(now) && r.value.approvedBy == Some(a.actor)
              && r.store == s.(drafts := s.drafts[id := r.value],
                               events := s.events + [Event(id, Approved, a.actor, now, "")])
  {
    hide FrozenAssetsIntact, BodyNeedsClarification, ApproverAccepted;
  }

  /** A cancellation or a restore logs who and why, and changes nothing but the status. */
  lemma CancelStores(s: Store, now: Time, id: DraftId, actor: string, reason: string)
    ensures var r := Cancel(s, now, id, actor, reason);
            r.Done? && r.store != s ==>
              && id in s.drafts
              && r.store == s.(drafts := s.drafts[id := s.drafts[id].(status := Cancelled)],
                               events := s.events + [Event(id, Cancelled, actor, now, reason)])
  {
    hide SystemReply, SessionActor;
  }

  lemma RestoreStores(s: Store, now: Time, id: DraftId, actor: string)
    ensures var r := Restore(s, now, id, actor);
            r.Done? ==>
              && id in s.drafts
              && r.store == s.(drafts := s.drafts[id := s.drafts[id].(status := r.value.status)],
                               events := s.events + [Event(id, r.value.status, actor, now, "restored")])
  {
    hide IsSystemCancelled, PriorReviewStatus, SessionActor;
  }
}
