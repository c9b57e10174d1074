/** When a message counts as answered, and when marking and undoing are refused, in their callers' terms. */
module AnsweredMeaning {
  import opened Wrappers
  import opened SendStore
  import opened SendAuthority
  import opened HandledElsewhere
  import opened AnsweredDrafts

  // ---------- Marking and undoing ----------

  /** The first demand of marking that is not met; then the marker stands, new, whatever was there before. */
  lemma MarkMeans(d: Desk, now: Time, m: MessageId, known: bool, channel: string, note: string, actor: string,
                  rows: seq<DraftId>)
    ensures var r := Mark(d, now, m, known, channel, note, actor, rows);
            var listed := channel in {"kakao", "phone", "in_person", "other"};
            && (r == Err(ActorRejected) <==> !Person(actor))
            && (r == Err(InvalidChannel) <==> Person(actor) && !listed)
            && (r == Err(NoteTooLong) <==> Person(actor) && listed && |note| > 500)
            && (r == Err(MessageNotFound) <==> Person(actor) && listed && |note| <= 500 && !known)
            && (r.Ok? <==> Person(actor) && listed && |note| <= 500 && known)
            && (r.Ok? ==> r.value.markers == d.markers[m := Marker(channel, note, actor, now, None)])
  {
    PersonIff(actor);
    hide SessionActor, Person, CancelEach;
  }

  /** Undoing takes a person, a known message and a mark that stands; it keeps the mark and says when it was undone. */
  lemma UndoMeans(d: Desk, now: Time, m: MessageId, known: bool, actor: string, rows: seq<DraftId>)
    ensures var r := Undo(d, now, m, known, actor, rows);
            var stands := m in d.markers && d.markers[m].undoneAt.None?;
            && (r == Err(ActorRejected) <==> !Person(actor))
            && (r == Err(MessageNotFound) <==> Person(actor) && !known)
            && (r == Err(MarkerNotFound) <==> Person(actor) && known && !stands)
            && (r.Ok? <==> Person(actor) && known && stands)
            && (r.Ok? ==> r.value.markers == d.markers[m := d.markers[m].(undoneAt := Some(now))])
  {
    PersonIff(actor);
    hide SessionActor, Person, RestoreEach;
  }

  // ---------- Later replies ----------

  /** When a message came in: when it was received, or else sent. */
  predicate CameIn(m: Mail, t: Time) { m.receivedAt == Some(t) || (m.receivedAt.None? && m.sentAt == Some(t)) }

  /** When a message went out: when it was sent, or else received. */
  predicate WentOut(m: Mail, t: Time) { m.sentAt == Some(t) || (m.sentAt.None? && m.receivedAt == Some(t)) }

  /**
   A reply answers a message when it is a sent one of the same conversation that went out later than the message came
   in, if that is known, and later than the restore, if there was one and the reply's time is known.
   */
  ghost predicate Replies(inbound: Mail, reply: Mail, restoredAt: Option<Time>)
  {
    && reply.inSentFolder && reply.conversation == inbound.conversation
    && (forall t :: CameIn(inbound, t) ==> exists u :: WentOut(reply, u) && t < u)
    && (forall u :: WentOut(reply, u) && restoredAt.Some? ==> restoredAt.value < u)
  }

  lemma RepliesIff(inbound: Mail, reply: Mail, restoredAt: Option<Time>)
    ensures Answers(inbound, reply, restoredAt) <==> Replies(inbound, reply, restoredAt)
  {
    var received, sent := MailTime(inbound, false), MailTime(reply, true);
    assert forall t :: CameIn(inbound, t) <==> received == Some(t);
    assert forall u :: WentOut(reply, u) <==> sent == Some(u);
    hide CameIn, WentOut, MailTime;
    if received.Some? && sent.Some? && received.value < sent.value { assert WentOut(reply, sent.value); }
    if Replies(inbound, reply, restoredAt) && received.Some? { assert CameIn(inbound, received.value); }
    if sent.Some? { assert WentOut(reply, sent.value); }
  }

  /** When a person last restored the draft: at the last of its events that says so. */
  ghost predicate LastRestore(es: seq<Event>, t: Time)
  {
    exists k ::
      && 0 <= k < |es| && es[k].at == t && es[k].reason == "restored" && "session:" <= es[k].actor
      && forall j | k < j < |es| :: !(es[j].reason == "restored" && "session:" <= es[j].actor)
  }

  lemma {:induction false} LastWhereIs(es: seq<Event>, p: Event -> bool)
    ensures LastWhere(es, p).None? <==> forall j | 0 <= j < |es| :: !p(es[j])
    ensures LastWhere(es, p).Some? ==>
      exists k :: 0 <= k < |es| && es[k] == LastWhere(es, p).value && p(es[k]) && forall j | k < j < |es| :: !p(es[j])
  {
    if es != [] && !p(es[|es| - 1]) {
      var front := es[..|es| - 1];
      LastWhereIs(front, p);
      assert forall j | 0 <= j < |front| :: front[j] == es[j];
      if LastWhere(front, p).Some? {
        var k :| 0 <= k < |front| && front[k] == LastWhere(front, p).value && p(front[k])
          && forall j | k < j < |front| :: !p(front[j]);
        assert es[k] == front[k];
        assert forall j | k < j < |es| :: !p(es[j]);
      }
    }
  }

  lemma RestoredIff(s: Store, id: DraftId, t: Time)
    ensures RestoredAt(s, id) == Some(t) <==> LastRestore(EventsOf(s.events, id), t)
  {
    var es := EventsOf(s.events, id);
    var p := (e: Event) => e.reason == RESTORED_REASON && SESSION_PREFIX <= e.actor;
    LastWhereIs(es, p);
    assert forall e: Event :: p(e) <==> e.reason == "restored" && "session:" <= e.actor;
    hide EventsOf;
    if RestoredAt(s, id).Some? {
      var k :| 0 <= k < |es| && es[k] == LastWhere(es, p).value && p(es[k]) && forall j | k < j < |es| :: !p(es[j]);
      assert RestoredAt(s, id) == Some(es[k].at);
      assert LastRestore(es, es[k].at);
      if LastRestore(es, t) {
        var i :| 0 <= i < |es| && es[i].at == t && p(es[i]) && forall j | i < j < |es| :: !p(es[j]);
        assert i == k;
      }
    }
  }

  /**
   A draft counts as answered if and only if its message is on file and either marked or, being of a conversation,
   answered by a later reply past the last time a person restored the draft.
   */
  lemma AnsweredIff(d: Desk, messages: map<MessageId, Mail>, sent: seq<Mail>, id: DraftId)
    ensures Answered(d, messages, sent, id) <==>
      && id in d.store.drafts && d.store.drafts[id].payload.messageId.Some?
      && var m := d.store.drafts[id].payload.messageId.value;
         && m in messages
         && (|| (m in d.markers && d.markers[m].undoneAt.None?)
             || (messages[m].conversation != ""
                 && exists i :: 0 <= i < |sent| && Replies(messages[m], sent[i], RestoredAt(d.store, id))))
  {
    if id in d.store.drafts && d.store.drafts[id].payload.messageId.Some? {
      var m := d.store.drafts[id].payload.messageId.value;
      if m in messages {
        forall i | 0 <= i < |sent|
          ensures Answers(messages[m], sent[i], RestoredAt(d.store, id)) <==>
                  Replies(messages[m], sent[i], RestoredAt(d.store, id))
        {
          RepliesIff(messages[m], sent[i], RestoredAt(d.store, id));
        }
      }
    }
    hide Answers, Replies, RestoredAt;
  }
}
