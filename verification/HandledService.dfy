/** The marking service: it writes the marker table and drives the draft service row by row. */
module HandledService {
  import opened Wrappers
  import opened SendStore
  import opened SendLifecycle
  import opened SendDatabase
  import opened HandledElsewhere
  import opened AnsweredDrafts

  datatype Summary = Summary(cancelled: nat, skipped: nat)

  /** A cancellation of a draft under review is counted, because the row it returns is cancelled. */
  lemma CancelCounts(s: Store, now: Time, id: DraftId, actor: string, reason: string)
    requires id in s.drafts && s.drafts[id].status.InReview() && (SessionActor(actor) || SystemReply(actor, reason))
    ensures var r := Cancel(s, now, id, actor, reason); r.Done? && r.value.status.Cancelled?
  {
  }

  lemma NoneCancelled(s: Store, now: Time, actor: string)
    ensures CancelEach(s, now, [], actor, HANDLED_ELSEWHERE_REASON) == s
  {
  }

  /** The next selected row is still under review, so cancelling it succeeds and counts. */
  lemma OneMoreCancelled(s: Store, now: Time, rows: seq<DraftId>, i: nat, actor: string)
    requires StoreInv(s) && SessionActor(actor) && i < |rows|
    requires forall j, k | 0 <= j < k < |rows| :: rows[j] != rows[k]
    requires forall j | 0 <= j < |rows| :: rows[j] in s.drafts && s.drafts[rows[j]].status.InReview()
    ensures var s' := CancelEach(s, now, rows[..i], actor, HANDLED_ELSEWHERE_REASON);
            var r := Cancel(s', now, rows[i], actor, HANDLED_ELSEWHERE_REASON);
            && r.Done? && r.value.status.Cancelled?
            && CancelEach(s, now, rows[..i + 1], actor, HANDLED_ELSEWHERE_REASON) == r.store
  {
    hide StoreInv, Cancel, SessionActor, EventsOf;
    CancelEachAt(s, now, rows[..i], actor, HANDLED_ELSEWHERE_REASON, rows[i]);
    CancelCounts(CancelEach(s, now, rows[..i], actor, HANDLED_ELSEWHERE_REASON), now, rows[i], actor,
                 HANDLED_ELSEWHERE_REASON);
    assert rows[..i + 1][..i] == rows[..i];
  }

  /** How many of the rows were last cancelled for the handled-elsewhere reason. */
  function HandledCount(s: Store, rows: seq<DraftId>): nat
  {
    if rows == [] then 0
    else HandledCount(s, rows[..|rows| - 1]) + if LastCancelHandled(s, rows[|rows| - 1]) then 1 else 0
  }

  /** The next selected row is as it was selected, and restoring it succeeds and counts. */
  lemma StillHandledRow(s: Store, now: Time, m: MessageId, rows: seq<DraftId>, i: nat, actor: string)
    requires StoreInv(s) && CancelledRows(s, m, rows) && SessionActor(actor) && i < |rows|
    ensures var s' := RestoreEach(s, now, rows[..i], actor);
            && LastCancelHandled(s', rows[i]) == LastCancelHandled(s, rows[i])
            && (LastCancelHandled(s', rows[i]) ==>
                  var r := Restore(s', now, rows[i], actor); r.Done? && !r.value.status.Cancelled?)
  {
    CancelledFacts(s, m, rows);
    hide StoreInv, CancelledRows, LastCancelHandled, EventsOf, RestoreEach, SessionActor;
    RestoreEachAt(s, now, rows[..i], actor, rows[i]);
    var s' := RestoreEach(s, now, rows[..i], actor);
    SameCancellation(s, s', rows[i]);
    if LastCancelHandled(s', rows[i]) { RestoredCounts(s', now, rows[i], actor); }
  }

  lemma RestoredCounts(s: Store, now: Time, id: DraftId, actor: string)
    requires StoreInv(s) && id in s.drafts && s.drafts[id].status.Cancelled? && LastCancelHandled(s, id)
    requires SessionActor(actor)
    ensures var r := Restore(s, now, id, actor); r.Done? && !r.value.status.Cancelled?
  {
    RestoreOne(s, now, id, actor);
    FirstEvent(s, id);
    hide StoreInv, LastCancelHandled, SessionActor, IsSystemCancelled, PriorReviewStatus, EventsOf;
    var r := Restore(s, now, id, actor);
    assert r.store.drafts[id] == r.value;
  }

  lemma CancelAlwaysCounts(s: Store, now: Time, id: DraftId)
    requires id in s.drafts
    ensures s.drafts[id].status.InReview() ==>
      && (var r := Cancel(s, now, id, HANDLED_ELSEWHERE_ACTOR, HANDLED_ELSEWHERE_REASON);
          r.Done? && r.value.status.Cancelled?)
      && (var r := Cancel(s, now, id, ALREADY_REPLIED_ACTOR, ALREADY_REPLIED_REASON);
          r.Done? && r.value.status.Cancelled?)
  {
  }

  /** How many of the rows count as answered. */
  function AnsweredCount(d: Desk, messages: map<MessageId, Mail>, sent: seq<Mail>, rows: seq<DraftId>): nat
  {
    if rows == [] then 0
    else
      AnsweredCount(d, messages, sent, rows[..|rows| - 1])
      + if Answered(d, messages, sent, rows[|rows| - 1]) then 1 else 0
  }

  class HandledElsewhereService {
    const drafts: MailSendDrafts
    var markers: map<MessageId, Marker>

    constructor (drafts: MailSendDrafts)
      ensures this.drafts == drafts && markers == map[]
    {
      this.drafts := drafts;
      markers := map[];
    }

    function Contents(): Desk
      reads this, drafts, drafts.db
    {
      Desk(drafts.db.store, markers)
    }

    /** The rows selected as pending are cancelled and counted, in order, until a statement is refused. */
    method CancelPendingDrafts(now: Time, ghost m: MessageId, rows: seq<DraftId>, actor: string)
        returns (ok: bool, cancelled: nat)
      requires StoreInv(drafts.db.store) && PendingRows(drafts.db.store, m, rows) && SessionActor(actor)
      modifies drafts, drafts.db
      ensures drafts.db.frames == old(drafts.db.frames)
      ensures drafts.db.refused >= old(drafts.db.refused) && ok == (drafts.db.refused == old(drafts.db.refused))
      ensures cancelled <= |rows| && (ok <==> cancelled == |rows|)
      ensures drafts.db.store
              == CancelEach(old(drafts.db.store), now, rows[..cancelled], actor, HANDLED_ELSEWHERE_REASON)
    {
      ghost var before := drafts.db.store;
      PendingFacts(before, m, rows);
      hide StoreInv, PendingRows, Cancel, SessionActor, CancelEach;
      NoneCancelled(before, now, actor);
      cancelled := 0;
      var i := 0;
      while i < |rows|
        invariant 0 <= i <= |rows| && cancelled == i && drafts.db.frames == old(drafts.db.frames)
        invariant drafts.db.refused == old(drafts.db.refused)
        invariant drafts.db.store == CancelEach(before, now, rows[..i], actor, HANDLED_ELSEWHERE_REASON)
      {
        OneMoreCancelled(before, now, rows, i, actor);
        var updated := drafts.Cancel(now, rows[i], actor, HANDLED_ELSEWHERE_REASON);
        if updated.Err? { return false, cancelled; }
        if updated.value.status.Cancelled? { cancelled := cancelled + 1; }
        i := i + 1;
      }
      ok := true;
    }

    /** The marker row in a transaction of its own. */
    method WriteMarker(m: MessageId, marker: Marker) returns (ok: bool)
      requires drafts.db.frames == []
      modifies this, drafts.db
      ensures drafts.db.frames == [] && drafts.db.store == old(drafts.db.store)
      ensures drafts.db.refused >= old(drafts.db.refused) && ok == (drafts.db.refused == old(drafts.db.refused))
      ensures markers == if ok then old(markers)[m := marker] else old(markers)
    {
      ok := drafts.db.Begin();
      if !ok { return; }
      var was := markers;
      ok := drafts.db.Execute(drafts.db.store);
      if ok {
        markers := markers[m := marker];
        ok := drafts.db.Commit();
        if ok { return; }
      }
      drafts.db.Rollback();
      markers := was;
    }

    /**
     Mark a message.  When a statement is refused the call fails, and leaves either nothing or the marker and the
     cancellations of the rows before the refusal.
     */
    method MarkHandledElsewhere(now: Time, m: MessageId, known: bool, channel: string, note: string, actor: string,
                                rows: seq<DraftId>)
        returns (r: Result<nat, DeskCode>)
      requires StoreInv(drafts.db.store) && PendingRows(drafts.db.store, m, rows) && drafts.db.frames == []
      modifies this, drafts, drafts.db
      ensures drafts.db.refused == old(drafts.db.refused) ==>
        var e := Mark(old(Contents()), now, m, known, channel, note, actor, rows);
        && (e.Ok? ==> Contents() == e.value && r == Ok(|rows|))
        && (e.Err? ==> Contents() == old(Contents()) && r == Err(e.error))
      ensures drafts.db.refused != old(drafts.db.refused) ==>
        && r == Err(DeskCode.Draft(StatementFailed))
        && (|| Contents() == old(Contents())
            || exists k :: 0 <= k < |rows|
                 && Mark(old(Contents()), now, m, known, channel, note, actor, rows[..k]) == Ok(Contents()))
    {
      hide StoreInv, PendingRows, SessionActor, CancelEach;
      if !SessionActor(actor) { return Err(ActorRejected); }
      if channel !in CHANNELS { return Err(InvalidChannel); }
      if |note| > NOTE_LIMIT { return Err(NoteTooLong); }
      if !known { return Err(MessageNotFound); }
      var ok := WriteMarker(m, Marker(channel, note, actor, now, None));
      if !ok { return Err(DeskCode.Draft(StatementFailed)); }
      var cancelled;
      ok, cancelled := CancelPendingDrafts(now, m, rows, actor);
      assert rows[..|rows|] == rows;
      if !ok {
        assert Mark(old(Contents()), now, m, known, channel, note, actor, rows[..cancelled]) == Ok(Contents());
        return Err(DeskCode.Draft(StatementFailed));
      }
      r := Ok(cancelled);
    }

    /** The rows whose last cancellation was for the handled-elsewhere reason are restored and counted, in order. */
    method RestoreSystemCancelledDrafts(now: Time, ghost m: MessageId, rows: seq<DraftId>, actor: string)
        returns (ok: bool, restored: nat, ghost seen: nat)
      requires StoreInv(drafts.db.store) && CancelledRows(drafts.db.store, m, rows) && SessionActor(actor)
      modifies drafts, drafts.db
      ensures drafts.db.frames == old(drafts.db.frames)
      ensures drafts.db.refused >= old(drafts.db.refused) && ok == (drafts.db.refused == old(drafts.db.refused))
      ensures seen <= |rows| && (ok <==> seen == |rows|)
      ensures drafts.db.store == RestoreEach(old(drafts.db.store), now, rows[..seen], actor)
      ensures restored == HandledCount(old(drafts.db.store), rows[..seen])
    {
      hide Restore, StoreInv, CancelledRows, SessionActor, LastCancelHandled;
      ghost var before := drafts.db.store;
      restored := 0;
      var i := 0;
      while i < |rows|
        invariant 0 <= i <= |rows| && drafts.db.frames == old(drafts.db.frames)
        invariant restored == HandledCount(before, rows[..i]) && drafts.db.refused == old(drafts.db.refused)
        invariant drafts.db.store == RestoreEach(before, now, rows[..i], actor)
      {
        assert rows[..i + 1][..i] == rows[..i];
        StillHandledRow(before, now, m, rows, i, actor);
        if LastCancelHandled(drafts.db.store, rows[i]) {
          var updated := drafts.Restore(now, rows[i], actor);
          if updated.Err? && updated.error != DraftNotRestorable { return false, restored, i; }
          if updated.Ok? && !updated.value.status.Cancelled? { restored := restored + 1; }
        }
        i := i + 1;
      }
      ok, seen := true, i;
    }

    /**
     Undo a mark.  When a statement is refused the call fails, and leaves either nothing or the marker undone and
     the rows before the refusal restored.
     */
    method UndoHandledElsewhere(now: Time, m: MessageId, known: bool, actor: string, rows: seq<DraftId>)
        returns (r: Result<nat, DeskCode>)
      requires StoreInv(drafts.db.store) && CancelledRows(drafts.db.store, m, rows)
      modifies this, drafts, drafts.db
      ensures drafts.db.refused == old(drafts.db.refused) ==>
        var e := Undo(old(Contents()), now, m, known, actor, rows);
        && (e.Ok? ==> Contents() == e.value && r == Ok(HandledCount(old(drafts.db.store), rows)))
        && (e.Err? ==> Contents() == old(Contents()) && r == Err(e.error))
      ensures drafts.db.refused != old(drafts.db.refused) ==>
        && r == Err(DeskCode.Draft(StatementFailed))
        && (|| Contents() == old(Contents())
            || exists k :: 0 <= k < |rows|
                 && Undo(old(Contents()), now, m, known, actor, rows[..k]) == Ok(Contents()))
    {
      hide StoreInv, CancelledRows, SessionActor, RestoreEach;
      if !SessionActor(actor) { return Err(ActorRejected); }
      if !known { return Err(MessageNotFound); }
      if m !in markers || markers[m].undoneAt.Some? { return Err(MarkerNotFound); }
      var ok := drafts.db.Execute(drafts.db.store);
      if !ok { return Err(DeskCode.Draft(StatementFailed)); }
      markers := markers[m := markers[m].(undoneAt := Some(now))];
      ghost var seen;
      var restored;
      ok, restored, seen := RestoreSystemCancelledDrafts(now, m, rows, actor);
      assert rows[..|rows|] == rows;
      if !ok {
        assert Undo(old(Contents()), now, m, known, actor, rows[..seen]) == Ok(Contents());
        return Err(DeskCode.Draft(StatementFailed));
      }
      r := Ok(restored);
    }

    /** One row of `CancelAnsweredDrafts`: cancelled with the actor and reason that fit, or skipped. */
    method CancelAnswered(now: Time, messages: map<MessageId, Mail>, sent: seq<Mail>, id: DraftId)
        returns (ok: bool, cancelled: bool)
      requires id in drafts.db.store.drafts && drafts.db.store.drafts[id].payload.messageId.Some?
      requires drafts.db.store.drafts[id].payload.messageId.value in messages
      requires drafts.db.store.drafts[id].status.InReview()
      modifies drafts, drafts.db
      ensures drafts.db.refused >= old(drafts.db.refused) && ok == (drafts.db.refused == old(drafts.db.refused))
      ensures Contents() == if ok then AnswerOne(old(Contents()), now, messages, sent, id) else old(Contents())
      ensures ok ==> cancelled == Answered(old(Contents()), messages, sent, id)
    {
      CancelAlwaysCounts(drafts.db.store, now, id);
      hide HasLaterSentReply, RestoredAt, Cancel;
      var m := drafts.db.store.drafts[id].payload.messageId.value;
      var marked := m in markers && markers[m].undoneAt.None?;
      var restoredAt := RestoredAt(drafts.db.store, id);
      if !marked && !HasLaterSentReply(messages[m], sent, restoredAt) { return true, false; }
      var updated := drafts.Cancel(now, id, if marked then HANDLED_ELSEWHERE_ACTOR else ALREADY_REPLIED_ACTOR,
                                   if marked then HANDLED_ELSEWHERE_REASON else ALREADY_REPLIED_REASON);
      ok := updated.Ok?;
      cancelled := updated.Ok? && updated.value.status.Cancelled?;
    }

    /** When a statement is refused, the rows before it stay cancelled and the others untouched. */
    method CancelAnsweredDrafts(now: Time, messages: map<MessageId, Mail>, sent: seq<Mail>, rows: seq<DraftId>)
        returns (r: Result<Summary, Code>)
      requires StoreInv(drafts.db.store) && LinkedRows(drafts.db.store, messages, rows)
      modifies drafts, drafts.db
      ensures drafts.db.refused == old(drafts.db.refused) ==>
        && Contents() == AnswerEach(old(Contents()), now, messages, sent, rows)
        && r.Ok? && r.value.cancelled == AnsweredCount(old(Contents()), messages, sent, rows)
        && r.value.cancelled + r.value.skipped == |rows|
      ensures drafts.db.refused != old(drafts.db.refused) ==>
        && r == Err(StatementFailed)
        && exists k :: 0 <= k < |rows| && Contents() == AnswerEach(old(Contents()), now, messages, sent, rows[..k])
    {
      ghost var before := Contents();
      hide StoreInv, LinkedRows, AnswerOne, Answered;
      var summary := Summary(0, 0);
      var i := 0;
      while i < |rows|
        invariant 0 <= i <= |rows| && summary.cancelled + summary.skipped == i
        invariant drafts.db.refused == old(drafts.db.refused)
        invariant summary.cancelled == AnsweredCount(before, messages, sent, rows[..i])
        invariant Contents() == AnswerEach(before, now, messages, sent, rows[..i])
      {
        StillLinked(before, now, messages, sent, rows, i);
        assert rows[..i + 1][..i] == rows[..i];
        var ok, cancelled := CancelAnswered(now, messages, sent, rows[i]);
        if !ok { return Err(StatementFailed); }
        summary := if cancelled then summary.(cancelled := summary.cancelled + 1)
                   else summary.(skipped := summary.skipped + 1);
        i := i + 1;
      }
      assert rows[..i] == rows;
      r := Ok(summary);
    }
  }

  /** An undo that a refused statement stopped cannot be asked for again: its marker is already undone. */
  lemma StoppedUndoIsFinal(d: Desk, d': Desk, t1: Time, t2: Time, m: MessageId, actor: string, k: nat,
                           rows: seq<DraftId>, left: seq<DraftId>)
    requires k < |rows| && Undo(d, t1, m, true, actor, rows[..k]) == Ok(d')
    ensures Undo(d', t2, m, true, actor, left) == Err(MarkerNotFound)
  {
    hide RestoreEach, SessionActor;
  }

  /** A mark that was stopped can be asked for again, and then leaves the drafts as if it had not been stopped. */
  lemma StoppedMarkCompletes(d: Desk, d': Desk, now: Time, later: Time, m: MessageId, channel: string, note: string,
                             actor: string, rows: seq<DraftId>, k: nat, left: seq<DraftId>)
    requires StoreInv(d.store) && PendingRows(d.store, m, rows) && k < |rows|
    requires Mark(d, now, m, true, channel, note, actor, rows[..k]) == Ok(d') && PendingRows(d'.store, m, left)
    ensures var r := Mark(d', later, m, true, channel, note, actor, left);
            && r.Ok? && r.value.Active(m)
            && r.value.store.drafts == Mark(d, now, m, true, channel, note, actor, rows).value.store.drafts
  {
    var s := d.store;
    var whole := CancelEach(s, now, rows, actor, HANDLED_ELSEWHERE_REASON);
    var twice := CancelEach(d'.store, later, left, actor, HANDLED_ELSEWHERE_REASON);
    hide StoreInv, CancelEach, PendingRows, SessionActor, EventsOf;
    PendingFacts(s, m, rows);
    CancelEachAt(s, now, rows, actor, HANDLED_ELSEWHERE_REASON, "");
    CancelEachAt(s, now, rows[..k], actor, HANDLED_ELSEWHERE_REASON, "");
    PendingFacts(d'.store, m, left);
    CancelEachAt(d'.store, later, left, actor, HANDLED_ELSEWHERE_REASON, "");
    forall id | id in s.drafts ensures twice.drafts[id] == whole.drafts[id] {
      CancelEachAt(s, now, rows, actor, HANDLED_ELSEWHERE_REASON, id);
      CancelEachAt(s, now, rows[..k], actor, HANDLED_ELSEWHERE_REASON, id);
      CancelEachAt(d'.store, later, left, actor, HANDLED_ELSEWHERE_REASON, id);
      assert id in rows[..k] ==> id in rows;
    }
    assert twice.drafts == whole.drafts;
  }

  /** The row about to be looked at is still the row that was selected. */
  lemma StillLinked(d: Desk, now: Time, messages: map<MessageId, Mail>, sent: seq<Mail>, rows: seq<DraftId>, i: nat)
    requires StoreInv(d.store) && LinkedRows(d.store, messages, rows) && i < |rows|
    ensures var s := AnswerEach(d, now, messages, sent, rows[..i]).store;
            && rows[i] in s.drafts && s.drafts[rows[i]].payload.messageId.Some?
            && s.drafts[rows[i]].payload.messageId.value in messages && s.drafts[rows[i]].status.InReview()
            && Answered(AnswerEach(d, now, messages, sent, rows[..i]), messages, sent, rows[i])
               == Answered(d, messages, sent, rows[i])
  {
    LinkedFacts(d.store, messages, rows);
    assert rows[i] in rows;
    hide StoreInv, AnswerEach, Answered;
    AnswerEachAt(d, now, messages, sent, rows[..i], rows[i]);
    hide EventsOf;
    AnswerDecided(d, AnswerEach(d, now, messages, sent, rows[..i]), messages, sent, rows[i]);
  }
}
