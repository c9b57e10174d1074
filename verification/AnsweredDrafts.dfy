/**
 Cancelling drafts whose message was answered, by hand elsewhere or by a later mail in the same conversation,
 and the promise that ties handled-elsewhere cancellations to active markers over every run.
 */
module AnsweredDrafts {
  import opened Wrappers
  import opened SendStore
  import opened SendLifecycle
  import opened HandledElsewhere

  // ---------- Later replies ----------

  datatype Mail = Mail(conversation: string, receivedAt: Option<Time>, sentAt: Option<Time>, inSentFolder: bool)

  function MailTime(m: Mail, preferSent: bool): Option<Time>
  {
    if preferSent then if m.sentAt.Some? then m.sentAt else m.receivedAt
    else if m.receivedAt.Some? then m.receivedAt else m.sentAt
  }

  /** Does `reply` answer `inbound`, looking only past the time of a person's restore? */
  predicate Answers(inbound: Mail, reply: Mail, notBefore: Option<Time>)
  {
    var received, sent := MailTime(inbound, false), MailTime(reply, true);
    && reply.inSentFolder
    && !(notBefore.Some? && sent.Some? && sent.value <= notBefore.value)
    && !(received.Some? && sent.Some? && sent.value <= received.value)
    && !(received.Some? && sent.None?)
    && reply.conversation == inbound.conversation
  }

  predicate HasLaterSentReply(inbound: Mail, sent: seq<Mail>, notBefore: Option<Time>)
  {
    inbound.conversation != "" && exists i | 0 <= i < |sent| :: Answers(inbound, sent[i], notBefore)
  }

  /** A reply of the same conversation that was sent strictly after the restore. */
  ghost predicate RepliedAfter(inbound: Mail, sent: seq<Mail>, restoredAt: Time)
  {
    exists i | 0 <= i < |sent| ::
      && sent[i].inSentFolder && sent[i].conversation == inbound.conversation
      && MailTime(sent[i], true).Some? && restoredAt < MailTime(sent[i], true).value
  }

  /**
   A restored draft counts as answered only by a reply sent strictly after the restore, for every list of
   replies, exactly when its message has a time or belongs to no conversation: against a message without any
   time a reply without any time slips past the cut.
   */
  lemma RestoreCutHoldsIff(inbound: Mail, restoredAt: Time)
    ensures (forall sent: seq<Mail> | HasLaterSentReply(inbound, sent, Some(restoredAt)) ::
               RepliedAfter(inbound, sent, restoredAt))
        <==> (MailTime(inbound, false).Some? || inbound.conversation == "")
  {
    if MailTime(inbound, false).Some? || inbound.conversation == "" {
      forall sent: seq<Mail> | HasLaterSentReply(inbound, sent, Some(restoredAt))
        ensures RepliedAfter(inbound, sent, restoredAt)
      {
        var i :| 0 <= i < |sent| && Answers(inbound, sent[i], Some(restoredAt));
        assert restoredAt < MailTime(sent[i], true).value;
      }
    } else {
      var untimed := [Mail(inbound.conversation, None, None, true)];
      assert Answers(inbound, untimed[0], Some(restoredAt));
      assert HasLaterSentReply(inbound, untimed, Some(restoredAt)) && !RepliedAfter(inbound, untimed, restoredAt);
    }
  }

  /** When a person last restored the draft. */
  function RestoredAt(s: Store, id: DraftId): Option<Time>
  {
    var e := LastWhere(EventsOf(s.events, id), (e: Event) => e.reason == RESTORED_REASON && SESSION_PREFIX <= e.actor);
    if e.Some? then Some(e.value.at) else None
  }

  // ---------- cancelAnsweredDrafts ----------

  /** The draft's message is marked, or a later reply answers it. */
  predicate Answered(d: Desk, messages: map<MessageId, Mail>, sent: seq<Mail>, id: DraftId)
  {
    && id in d.store.drafts && d.store.drafts[id].payload.messageId.Some?
    && var m := d.store.drafts[id].payload.messageId.value;
       m in messages && (d.Active(m) || HasLaterSentReply(messages[m], sent, RestoredAt(d.store, id)))
  }

  predicate MarkedDraft(d: Desk, id: DraftId)
  {
    && id in d.store.drafts && d.store.drafts[id].payload.messageId.Some?
    && d.Active(d.store.drafts[id].payload.messageId.value)
  }

  function AnswerActor(d: Desk, id: DraftId): string
  {
    if MarkedDraft(d, id) then HANDLED_ELSEWHERE_ACTOR else ALREADY_REPLIED_ACTOR
  }

  function AnswerReason(d: Desk, id: DraftId): string
  {
    if MarkedDraft(d, id) then HANDLED_ELSEWHERE_REASON else ALREADY_REPLIED_REASON
  }

  function AnswerOne(d: Desk, now: Time, messages: map<MessageId, Mail>, sent: seq<Mail>, id: DraftId): Desk
  {
    if !Answered(d, messages, sent, id) then d
    else
      var r := Cancel(d.store, now, id, AnswerActor(d, id), AnswerReason(d, id));
      if r.Done? then d.(store := r.store) else d
  }

  function AnswerEach(d: Desk, now: Time, messages: map<MessageId, Mail>, sent: seq<Mail>, rows: seq<DraftId>): Desk
  {
    if rows == [] then d
    else AnswerOne(AnswerEach(d, now, messages, sent, rows[..|rows| - 1]), now, messages, sent, rows[|rows| - 1])
  }

  /** `rows` lists the drafts under review whose message is on file. */
  ghost predicate LinkedRows(s: Store, messages: map<MessageId, Mail>, rows: seq<DraftId>)
  {
    && (forall i, j | 0 <= i < j < |rows| :: rows[i] != rows[j])
    && (forall id :: id in rows <==>
          && id in s.drafts && s.drafts[id].status.InReview()
          && s.drafts[id].payload.messageId.Some? && s.drafts[id].payload.messageId.value in messages)
  }

  lemma AnswerDecided(d: Desk, d': Desk, messages: map<MessageId, Mail>, sent: seq<Mail>, id: DraftId)
    requires id in d.store.drafts && id in d'.store.drafts && d'.store.drafts[id] == d.store.drafts[id]
    requires d'.markers == d.markers && EventsOf(d'.store.events, id) == EventsOf(d.store.events, id)
    ensures Answered(d', messages, sent, id) == Answered(d, messages, sent, id)
    ensures AnswerActor(d', id) == AnswerActor(d, id) && AnswerReason(d', id) == AnswerReason(d, id)
  {
  }

  /** What one more row does to the draft `id`. */
  lemma AnswerOneAt(d: Desk, now: Time, messages: map<MessageId, Mail>, sent: seq<Mail>, x: DraftId, id: DraftId)
    requires StoreInv(d.store) && x in d.store.drafts && d.store.drafts[x].status.InReview()
    ensures var d' := AnswerOne(d, now, messages, sent, x);
            var hit := id == x && Answered(d, messages, sent, x);
            && StoreInv(d'.store) && d'.markers == d.markers && d'.store.drafts.Keys == d.store.drafts.Keys
            && (id in d.store.drafts && !hit ==> d'.store.drafts[id] == d.store.drafts[id])
            && (hit ==> d'.store.drafts[id] == d.store.drafts[id].(status := Cancelled))
            && EventsOf(d'.store.events, id) == EventsOf(d.store.events, id)
               + if hit then [Event(id, Cancelled, AnswerActor(d, id), now, AnswerReason(d, id))] else []
  {
    hide StoreInv, EventsOf, Cancel, Answered, AnswerActor, AnswerReason, SystemReply;
    if Answered(d, messages, sent, x) {
      AnswerIsSystem(d, x);
      CancelOne(d.store, now, x, AnswerActor(d, x), AnswerReason(d, x));
      EventsOfAppend(d.store.events, Event(x, Cancelled, AnswerActor(d, x), now, AnswerReason(d, x)), id);
    }
  }

  /** Exactly the answered drafts among the rows are cancelled, each with the actor and reason that fits it. */
  lemma {:induction false} AnswerEachAt(d: Desk, now: Time, messages: map<MessageId, Mail>, sent: seq<Mail>,
                                        rows: seq<DraftId>, id: DraftId)
    requires StoreInv(d.store)
    requires forall i, j | 0 <= i < j < |rows| :: rows[i] != rows[j]
    requires forall i | 0 <= i < |rows| :: rows[i] in d.store.drafts && d.store.drafts[rows[i]].status.InReview()
    ensures var d' := AnswerEach(d, now, messages, sent, rows);
            var hit := id in rows && Answered(d, messages, sent, id);
            && StoreInv(d'.store) && d'.markers == d.markers && d'.store.drafts.Keys == d.store.drafts.Keys
            && (id in d.store.drafts && !hit ==> d'.store.drafts[id] == d.store.drafts[id])
            && (hit ==> d'.store.drafts[id] == d.store.drafts[id].(status := Cancelled))
            && EventsOf(d'.store.events, id) == EventsOf(d.store.events, id)
               + if hit then [Event(id, Cancelled, AnswerActor(d, id), now, AnswerReason(d, id))] else []
  {
    hide StoreInv, EventsOf, AnswerOne, Answered, AnswerActor, AnswerReason;
    if rows != [] {
      var n := |rows| - 1;
      var x := rows[n];
      AnswerEachAt(d, now, messages, sent, rows[..n], id);
      AnswerEachAt(d, now, messages, sent, rows[..n], x);
      var d' := AnswerEach(d, now, messages, sent, rows[..n]);
      assert x in rows && x !in rows[..n];
      AnswerDecided(d, d', messages, sent, x);
      AnswerOneAt(d', now, messages, sent, x, id);
      assert id in rows <==> id in rows[..n] || id == x;
    }
  }

  lemma AnswerIsSystem(d: Desk, id: DraftId)
    ensures SystemReply(AnswerActor(d, id), AnswerReason(d, id))
  {
  }

  lemma LinkedFacts(s: Store, messages: map<MessageId, Mail>, rows: seq<DraftId>)
    requires LinkedRows(s, messages, rows)
    ensures forall i, j | 0 <= i < j < |rows| :: rows[i] != rows[j]
    ensures forall i | 0 <= i < |rows| :: rows[i] in s.drafts && s.drafts[rows[i]].status.InReview()
  {
    assert forall i | 0 <= i < |rows| :: rows[i] in rows;
  }

  /**
   `cancelAnsweredDrafts` changes only drafts under review: approved, sending and sent drafts stay as they are,
   and a draft that a person restored is cancelled again only if its message is marked or counts as answered
   past the restore.
   */
  lemma AnsweredOnlyUnderReview(d: Desk, now: Time, messages: map<MessageId, Mail>, sent: seq<Mail>,
                                rows: seq<DraftId>, id: DraftId)
    requires StoreInv(d.store) && LinkedRows(d.store, messages, rows) && id in d.store.drafts
    ensures var d' := AnswerEach(d, now, messages, sent, rows);
            && id in d'.store.drafts
            && (!d.store.drafts[id].status.InReview() ==> d'.store.drafts[id] == d.store.drafts[id])
            && (d'.store.drafts[id] != d.store.drafts[id] ==>
                  && d'.store.drafts[id] == d.store.drafts[id].(status := Cancelled)
                  && d.store.drafts[id].payload.messageId.Some?
                  && var m := d.store.drafts[id].payload.messageId.value;
                     && m in messages
                     && (d.Active(m) || HasLaterSentReply(messages[m], sent, RestoredAt(d.store, id))))
  {
    hide StoreInv, EventsOf, AnswerEach, HasLaterSentReply, RestoredAt;
    LinkedFacts(d.store, messages, rows);
    AnswerEachAt(d, now, messages, sent, rows, id);
  }

  // ---------- Markers and handled-elsewhere cancellations over whole runs ----------

  datatype DeskStep =
    | Marking(m: MessageId, channel: string, note: string, actor: string, rows: seq<DraftId>)
    | Undoing(m: MessageId, actor: string, rows: seq<DraftId>)
    | Answering(messages: map<MessageId, Mail>, sent: seq<Mail>, rows: seq<DraftId>)
    | Creating(input: NewDraft, newId: DraftId, sourceKnown: bool, assetsBound: bool)
    | Routing(id: DraftId, gate: Gate, approval: Approval)
    | PersonCancels(id: DraftId, actor: string)
    | PersonRestores(id: DraftId, actor: string)
    | Recording(id: DraftId, outcome: Outcome)

  function Keep<T>(d: Desk, e: Effect<T>): Desk { if e.Done? then d.(store := e.store) else d }

  /** One operation from start to end; an operation that is refused leaves the desk as it is. */
  ghost function DeskApply(d: Desk, now: Time, step: DeskStep): Desk
  {
    match step
    case Marking(m, channel, note, actor, rows) =>
      if !PendingRows(d.store, m, rows) then d
      else var r := Mark(d, now, m, true, channel, note, actor, rows); if r.Ok? then r.value else d
    case Undoing(m, actor, rows) =>
      if !CancelledRows(d.store, m, rows) then d
      else var r := Undo(d, now, m, true, actor, rows); if r.Ok? then r.value else d
    case Answering(messages, sent, rows) =>
      if !LinkedRows(d.store, messages, rows) then d else AnswerEach(d, now, messages, sent, rows)
    case Creating(input, newId, sourceKnown, assetsBound) =>
      Keep(d, Create(d.store, now, input, newId, sourceKnown, assetsBound))
    case Routing(id, gate, approval) => Keep(d, ApproveAndClaim(d.store, now, id, gate, approval))
    case PersonCancels(id, actor) => Keep(d, Cancel(d.store, now, id, actor, ""))
    case PersonRestores(id, actor) => Keep(d, Restore(d.store, now, id, actor))
    case Recording(id, outcome) => Keep(d, RecordOutcome(d.store, now, id, outcome))
  }

  ghost function DeskRun(d: Desk, steps: seq<(Time, DeskStep)>): Desk
  {
    if steps == [] then d
    else
      var n := |steps| - 1;
      DeskApply(DeskRun(d, steps[..n]), steps[n].0, steps[n].1)
  }

  /** A draft stands cancelled for the handled-elsewhere reason only while its message is marked. */
  ghost predicate MarkerInv(d: Desk)
  {
    forall id | HandledCancelled(d.store, id) :: MarkedDraft(d, id)
  }

  /** No draft becomes handled-cancelled, and messages of drafts stay. */
  ghost predicate NoNewHandled(s: Store, s': Store)
  {
    forall id | HandledCancelled(s', id) ::
      HandledCancelled(s, id) && s'.drafts[id].payload.messageId == s.drafts[id].payload.messageId
  }

  lemma NoNewKeeps(d: Desk, s': Store)
    requires MarkerInv(d) && NoNewHandled(d.store, s')
    ensures MarkerInv(d.(store := s'))
  {
    hide LastCancellation;
  }

  /** One row rewritten with its event, not a cancellation for the handled-elsewhere reason. */
  lemma PlainStep(s: Store, s': Store, id: DraftId, d: Draft, e: Event)
    requires s'.drafts == s.drafts[id := d] && s'.events == s.events + [e]
    requires e.draftId == id && e.status == d.status
    requires id in s.drafts ==> d.payload == s.drafts[id].payload
    requires e.status.Cancelled? ==> e.reason != HANDLED_ELSEWHERE_REASON
    ensures NoNewHandled(s, s')
  {
    forall x | HandledCancelled(s', x) ensures
      HandledCancelled(s, x) && s'.drafts[x].payload.messageId == s.drafts[x].payload.messageId
    {
      EventsOfAppend(s.events, e, x);
      if x == id {
        LastCancelOf(s', x, EventsOf(s.events, x), e);
      } else {
        assert EventsOf(s'.events, x) == EventsOf(s.events, x);
        SameLastCancel(s, s', x);
      }
    }
  }

  lemma SameLastCancel(s: Store, s': Store, id: DraftId)
    requires EventsOf(s'.events, id) == EventsOf(s.events, id)
    ensures LastCancellation(s'.events, id) == LastCancellation(s.events, id)
  {
  }

  lemma ApproveNoNew(s: Store, now: Time, id: DraftId, a: Approval)
    ensures var r := Approve(s, now, id, a); r.Done? ==> NoNewHandled(s, r.store)
  {
    hide NoNewHandled, BodyNeedsClarification, FrozenAssetsIntact, ApproverAccepted;
    var r := Approve(s, now, id, a);
    if r.Done? {
      if r.store == s {
        SameLogSameHandled(s, r.store);
      } else {
        PlainStep(s, r.store, id, r.value, Event(id, Approved, a.actor, now, ""));
      }
    }
  }

  lemma ClaimNoNew(s: Store, now: Time, id: DraftId)
    ensures var r := Claim(s, now, id); r.Done? ==> NoNewHandled(s, r.store)
  {
    hide NoNewHandled, FrozenAssetsIntact;
    var r := Claim(s, now, id);
    if r.Done? {
      if r.value {
        PlainStep(s, r.store, id, s.drafts[id].(status := Sending), Event(id, Sending, MAIL_INTELLIGENCE, now, ""));
      } else {
        SameLogSameHandled(s, r.store);
      }
    }
  }

  lemma SameLogSameHandled(s: Store, s': Store)
    requires s'.drafts == s.drafts && s'.events == s.events
    ensures NoNewHandled(s, s')
  {
  }

  lemma NoNewTransitive(a: Store, b: Store, c: Store)
    requires NoNewHandled(a, b) && NoNewHandled(b, c)
    ensures NoNewHandled(a, c)
  {
    hide HandledCancelled;
  }

  lemma RouteNoNew(s: Store, now: Time, id: DraftId, gate: Gate, approval: Approval)
    ensures var r := ApproveAndClaim(s, now, id, gate, approval); r.Done? ==> NoNewHandled(s, r.store)
  {
    hide NoNewHandled, Approve, Claim;
    var r := ApproveAndClaim(s, now, id, gate, approval);
    if r.Done? {
      var a := approval.(actor := GateActor(gate, approval.actor), receiptVerified := gate.Receipt?);
      var consumed :=
        if gate.Receipt? then ConsumeReceiptItem(s, gate.receiptId, ItemDigest(s.drafts[id]), id) else Done(s, ());
      var s1 := consumed.store;
      var s2 := Approve(s1, now, id, a).store;
      SameLogSameHandled(s, s1);
      ApproveNoNew(s1, now, id, a);
      ClaimNoNew(s2, now, id);
      NoNewTransitive(s, s1, s2);
      NoNewTransitive(s, s2, r.store);
    }
  }

  lemma CreateNoNew(s: Store, now: Time, input: NewDraft, newId: DraftId, sourceKnown: bool, assetsBound: bool)
    ensures var r := Create(s, now, input, newId, sourceKnown, assetsBound); r.Done? ==> NoNewHandled(s, r.store)
  {
    hide NoNewHandled, BodyNeedsClarification, Blank;
    var r := Create(s, now, input, newId, sourceKnown, assetsBound);
    if r.Done? {
      if r.value.replay {
        SameLogSameHandled(s, r.store);
      } else {
        var d := r.store.drafts[newId];
        PlainStep(s, r.store, newId, d, Event(newId, d.status, input.source, now, ""));
      }
    }
  }

  lemma PersonCancelNoNew(s: Store, now: Time, id: DraftId, actor: string)
    ensures var r := Cancel(s, now, id, actor, ""); r.Done? ==> NoNewHandled(s, r.store)
  {
    hide NoNewHandled, SessionActor;
    var r := Cancel(s, now, id, actor, "");
    if r.Done? {
      if r.store == s {
        SameLogSameHandled(s, r.store);
      } else {
        PlainStep(s, r.store, id, r.value, Event(id, Cancelled, actor, now, ""));
      }
    }
  }

  lemma PersonRestoreNoNew(s: Store, now: Time, id: DraftId, actor: string)
    requires StoreInv(s)
    ensures var r := Restore(s, now, id, actor); r.Done? ==> NoNewHandled(s, r.store)
  {
    PersonRestoreStatus(s, now, id, actor);
    hide NoNewHandled, SessionActor, StoreInv, IsSystemCancelled, PriorReviewStatus;
    var r := Restore(s, now, id, actor);
    if r.Done? {
      PlainStep(s, r.store, id, r.value, Event(id, r.value.status, actor, now, RESTORED_REASON));
    }
  }

  lemma RecordNoNew(s: Store, now: Time, id: DraftId, o: Outcome)
    ensures var r := RecordOutcome(s, now, id, o); r.Done? ==> NoNewHandled(s, r.store)
  {
    hide NoNewHandled, ValidFailureCode;
    var r := RecordOutcome(s, now, id, o);
    if r.Done? {
      if s.drafts[id].status.Sent? {
        SameLogSameHandled(s, r.store);
      } else {
        PlainStep(s, r.store, id, r.value,
                  Event(id, r.value.status, MAIL_INTELLIGENCE, now, if o.Receipt() then "" else o.failureCode));
      }
    }
  }

  lemma PersonRestoreStatus(s: Store, now: Time, id: DraftId, actor: string)
    requires StoreInv(s)
    ensures var r := Restore(s, now, id, actor); r.Done? ==> r.value.status.InReview()
  {
    var r := Restore(s, now, id, actor);
    if r.Done? {
      PriorReviewIsCreation(s, id);
      FirstEvent(s, id);
    }
  }

  // ---------- The run theorem ----------

  /** Marking: the drafts it cancels are about the message it marks. */
  lemma MarkKeeps(d: Desk, now: Time, m: MessageId, channel: string, note: string, actor: string, rows: seq<DraftId>)
    requires StoreInv(d.store) && MarkerInv(d) && PendingRows(d.store, m, rows)
    ensures var r := Mark(d, now, m, true, channel, note, actor, rows);
            r.Ok? ==> StoreInv(r.value.store) && MarkerInv(r.value)
  {
    hide StoreInv, CancelEach, PendingRows, EventsOf, SessionActor, LastCancellation;
    var r := Mark(d, now, m, true, channel, note, actor, rows);
    if r.Ok? {
      var d' := r.value;
      PendingFacts(d.store, m, rows);
      CancelEachAt(d.store, now, rows, actor, HANDLED_ELSEWHERE_REASON, "");
      forall id | HandledCancelled(d'.store, id) ensures MarkedDraft(d', id) {
        CancelEachAt(d.store, now, rows, actor, HANDLED_ELSEWHERE_REASON, id);
        if id !in rows {
          assert EventsOf(d'.store.events, id) == EventsOf(d.store.events, id);
          SameLastCancel(d.store, d'.store, id);
          assert HandledCancelled(d.store, id);
        }
      }
    }
  }

  /** Undoing: every draft of the message that stood handled-cancelled comes back. */
  lemma UndoKeeps(d: Desk, now: Time, m: MessageId, actor: string, rows: seq<DraftId>)
    requires StoreInv(d.store) && MarkerInv(d) && CancelledRows(d.store, m, rows)
    ensures var r := Undo(d, now, m, true, actor, rows);
            r.Ok? ==> StoreInv(r.value.store) && MarkerInv(r.value)
                      && forall id | About(r.value.store, id, m) :: !HandledCancelled(r.value.store, id)
  {
    hide StoreInv, RestoreEach, CancelledRows, EventsOf, SessionActor, LastCancellation;
    var r := Undo(d, now, m, true, actor, rows);
    if r.Ok? {
      var d' := r.value;
      CancelledFacts(d.store, m, rows);
      RestoreEachAt(d.store, now, rows, actor, "");
      forall id | HandledCancelled(d'.store, id) ensures MarkedDraft(d', id) && !About(d'.store, id, m) {
        RestoreEachAt(d.store, now, rows, actor, id);
        StillHandled(d.store, d'.store, now, actor, rows, id);
        assert HandledCancelled(d.store, id);
        assert MarkedDraft(d, id);
      }
    }
  }

  /** A draft that still stands handled-cancelled after a restore of rows was so before, and was not among them. */
  lemma StillHandled(s: Store, s': Store, now: Time, actor: string, rows: seq<DraftId>, id: DraftId)
    requires StoreInv(s) && id in s.drafts && HandledCancelled(s', id)
    requires id !in rows || !LastCancelHandled(s, id) ==>
      s'.drafts[id] == s.drafts[id] && EventsOf(s'.events, id) == EventsOf(s.events, id)
    requires id in rows && LastCancelHandled(s, id) ==>
      EventsOf(s.events, id) != [] && s'.drafts[id] == s.drafts[id].(status := EventsOf(s.events, id)[0].status)
    ensures HandledCancelled(s, id) && id !in rows && s'.drafts[id] == s.drafts[id]
  {
    hide EventsOf, JobInv, UsesInv, RowInv;
    FirstEvent(s, id);
    hide LogInv;
    if !(id in rows && LastCancelHandled(s, id)) {
      SameLastCancel(s, s', id);
    }
  }

  lemma AnswerKeeps(d: Desk, now: Time, messages: map<MessageId, Mail>, sent: seq<Mail>, rows: seq<DraftId>)
    requires StoreInv(d.store) && MarkerInv(d) && LinkedRows(d.store, messages, rows)
    ensures var d' := AnswerEach(d, now, messages, sent, rows); StoreInv(d'.store) && MarkerInv(d')
  {
    hide StoreInv, AnswerEach, LinkedRows, EventsOf, LastCancellation, Answered;
    var d' := AnswerEach(d, now, messages, sent, rows);
    LinkedFacts(d.store, messages, rows);
    AnswerEachAt(d, now, messages, sent, rows, "");
    forall id | HandledCancelled(d'.store, id) ensures MarkedDraft(d', id) {
      AnswerEachAt(d, now, messages, sent, rows, id);
      if id in rows && Answered(d, messages, sent, id) {
        LastCancelOf(d'.store, id, EventsOf(d.store.events, id),
                     Event(id, Cancelled, AnswerActor(d, id), now, AnswerReason(d, id)));
        assert ALREADY_REPLIED_REASON[0] != HANDLED_ELSEWHERE_REASON[0];
      } else {
        assert EventsOf(d'.store.events, id) == EventsOf(d.store.events, id);
        SameLastCancel(d.store, d'.store, id);
        assert HandledCancelled(d.store, id);
      }
    }
  }

  lemma DeskStepKeeps(d: Desk, now: Time, step: DeskStep)
    requires StoreInv(d.store) && MarkerInv(d)
    ensures StoreInv(DeskApply(d, now, step).store) && MarkerInv(DeskApply(d, now, step))
  {
    hide LogInv, JobInv, UsesInv, RowInv, MarkerInv, NoNewHandled, Extends;
    hide Mark, Undo, AnswerEach, PendingRows, CancelledRows, LinkedRows;
    hide Create, ApproveAndClaim, Cancel, Restore, RecordOutcome;
    match step
    case Marking(m, channel, note, actor, rows) =>
      if PendingRows(d.store, m, rows) { MarkKeeps(d, now, m, channel, note, actor, rows); }
    case Undoing(m, actor, rows) =>
      if CancelledRows(d.store, m, rows) { UndoKeeps(d, now, m, actor, rows); }
    case Answering(messages, sent, rows) =>
      if LinkedRows(d.store, messages, rows) { AnswerKeeps(d, now, messages, sent, rows); }
    case Creating(input, newId, sourceKnown, assetsBound) =>
      CreateKeeps(d.store, now, input, newId, sourceKnown, assetsBound);
      CreateNoNew(d.store, now, input, newId, sourceKnown, assetsBound);
      KeepNoNew(d, Create(d.store, now, input, newId, sourceKnown, assetsBound));
    case Routing(id, gate, approval) =>
      ApproveAndClaimKeeps(d.store, now, id, gate, approval);
      RouteNoNew(d.store, now, id, gate, approval);
      KeepNoNew(d, ApproveAndClaim(d.store, now, id, gate, approval));
    case PersonCancels(id, actor) =>
      CancelKeeps(d.store, now, id, actor, "");
      PersonCancelNoNew(d.store, now, id, actor);
      KeepNoNew(d, Cancel(d.store, now, id, actor, ""));
    case PersonRestores(id, actor) =>
      RestoreKeeps(d.store, now, id, actor);
      PersonRestoreNoNew(d.store, now, id, actor);
      KeepNoNew(d, Restore(d.store, now, id, actor));
    case Recording(id, outcome) =>
      RecordOutcomeKeeps(d.store, now, id, outcome);
      RecordNoNew(d.store, now, id, outcome);
      KeepNoNew(d, RecordOutcome(d.store, now, id, outcome));
  }

  lemma KeepNoNew<T>(d: Desk, e: Effect<T>)
    requires MarkerInv(d) && (e.Done? ==> NoNewHandled(d.store, e.store))
    ensures MarkerInv(Keep(d, e))
  {
    hide MarkerInv, NoNewHandled;
    if e.Done? { NoNewKeeps(d, e.store); }
  }

  const EMPTY_DESK := Desk(EMPTY_STORE, map[])

  /** In every run, a draft is cancelled for the handled-elsewhere reason only while its message is marked. */
  lemma {:induction false} HandledOnlyWhileMarked(steps: seq<(Time, DeskStep)>)
    ensures StoreInv(DeskRun(EMPTY_DESK, steps).store) && MarkerInv(DeskRun(EMPTY_DESK, steps))
  {
    if steps != [] {
      var n := |steps| - 1;
      HandledOnlyWhileMarked(steps[..n]);
      hide StoreInv, MarkerInv, DeskApply;
      DeskStepKeeps(DeskRun(EMPTY_DESK, steps[..n]), steps[n].0, steps[n].1);
    }
  }

  /**
   Reversibility on every run: marking an unmarked message and undoing the mark returns every draft row to
   what it was, whatever happened before.
   */
  lemma MarkUndoReversible(steps: seq<(Time, DeskStep)>, t1: Time, t2: Time, m: MessageId, channel: string,
                           note: string, marker: string, undoer: string, rows1: seq<DraftId>, rows2: seq<DraftId>)
    requires !DeskRun(EMPTY_DESK, steps).Active(m)
    requires SessionActor(marker) && SessionActor(undoer) && channel in CHANNELS && |note| <= NOTE_LIMIT
    requires var d := DeskRun(EMPTY_DESK, steps);
             && PendingRows(d.store, m, rows1)
             && var r := Mark(d, t1, m, true, channel, note, marker, rows1);
                r.Ok? && CancelledRows(r.value.store, m, rows2)
    ensures var d := DeskRun(EMPTY_DESK, steps);
            var marked := Mark(d, t1, m, true, channel, note, marker, rows1).value;
            var r := Undo(marked, t2, m, true, undoer, rows2);
            && marked.Active(m)
            && (forall id | About(d.store, id, m) && d.store.drafts[id].status.InReview() ::
                  id in marked.store.drafts && marked.store.drafts[id].status.Cancelled?)
            && r.Ok? && r.value.store.drafts == d.store.drafts && !r.value.Active(m)
  {
    var d := DeskRun(EMPTY_DESK, steps);
    HandledOnlyWhileMarked(steps);
    PendingFacts(d.store, m, rows1);
    hide StoreInv, DeskRun, Mark, Undo, PendingRows, CancelledRows, HandledCancelled;
    assert forall id | About(d.store, id, m) :: !HandledCancelled(d.store, id);
    MarkUndoRoundTrip(d, t1, t2, m, channel, note, marker, undoer, rows1, rows2);
  }
}
