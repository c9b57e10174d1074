/**
 Marking a message as answered elsewhere cancels its drafts under review, and undoing the mark brings them
 back.  `Desk` is the send tables together with the marker table.
 */
module HandledElsewhere {
  import opened Wrappers
  import opened SendStore
  import opened SendLifecycle

  type MessageId = nat

  datatype Marker = Marker(channel: string, note: string, actor: string, markedAt: Time, undoneAt: Option<Time>)

  datatype Desk = Desk(store: Store, markers: map<MessageId, Marker>)
  {
    predicate Active(m: MessageId) { m in markers && markers[m].undoneAt.None? }
  }

  datatype DeskCode = ActorRejected | InvalidChannel | NoteTooLong | MessageNotFound | MarkerNotFound | Draft(code: Code)

  const CHANNELS := {"kakao", "phone", "in_person", "other"}
  const NOTE_LIMIT := 500

  predicate About(s: Store, id: DraftId, m: MessageId) { id in s.drafts && s.drafts[id].payload.messageId == Some(m) }

  /** The draft stands cancelled, and its last cancellation was for the handled-elsewhere reason. */
  predicate HandledCancelled(s: Store, id: DraftId)
  {
    && id in s.drafts && s.drafts[id].status.Cancelled?
    && var e := LastCancellation(s.events, id);
       e.Some? && e.value.reason == HANDLED_ELSEWHERE_REASON
  }

  /** `rows` lists exactly the drafts of a message that satisfy `p`, in whatever order SQLite returns them. */
  ghost predicate RowsOf(s: Store, m: MessageId, p: Draft -> bool, rows: seq<DraftId>)
  {
    && (forall i, j | 0 <= i < j < |rows| :: rows[i] != rows[j])
    && (forall id :: id in rows <==> About(s, id, m) && p(s.drafts[id]))
  }

  ghost predicate PendingRows(s: Store, m: MessageId, rows: seq<DraftId>)
  {
    RowsOf(s, m, (d: Draft) => d.status.InReview(), rows)
  }

  ghost predicate CancelledRows(s: Store, m: MessageId, rows: seq<DraftId>)
  {
    RowsOf(s, m, (d: Draft) => d.status.Cancelled?, rows)
  }

  /** Cancel the rows one after another, each in its own transaction. */
  function CancelEach(s: Store, now: Time, rows: seq<DraftId>, actor: string, reason: string): Store
  {
    if rows == [] then s
    else
      var s' := CancelEach(s, now, rows[..|rows| - 1], actor, reason);
      var r := Cancel(s', now, rows[|rows| - 1], actor, reason);
      if r.Done? then r.store else s'
  }

  predicate LastCancelHandled(s: Store, id: DraftId)
  {
    var e := LastCancellation(s.events, id);
    e.Some? && e.value.reason == HANDLED_ELSEWHERE_REASON
  }

  /** Restore those rows whose last cancellation was for the handled-elsewhere reason. */
  function RestoreEach(s: Store, now: Time, rows: seq<DraftId>, actor: string): Store
  {
    if rows == [] then s
    else
      var s' := RestoreEach(s, now, rows[..|rows| - 1], actor);
      var id := rows[|rows| - 1];
      if !LastCancelHandled(s', id) then s'
      else
        var r := Restore(s', now, id, actor);
        if r.Done? then r.store else s'
  }

  function Mark(d: Desk, now: Time, m: MessageId, known: bool, channel: string, note: string, actor: string,
                rows: seq<DraftId>): Result<Desk, DeskCode>
  {
    if !SessionActor(actor) then Err(ActorRejected)
    else if channel !in CHANNELS then Err(InvalidChannel)
    else if |note| > NOTE_LIMIT then Err(NoteTooLong)
    else if !known then Err(MessageNotFound)
    else Ok(Desk(CancelEach(d.store, now, rows, actor, HANDLED_ELSEWHERE_REASON),
                 d.markers[m := Marker(channel, note, actor, now, None)]))
  }

  function Undo(d: Desk, now: Time, m: MessageId, known: bool, actor: string, rows: seq<DraftId>): Result<Desk, DeskCode>
  {
    if !SessionActor(actor) then Err(ActorRejected)
    else if !known then Err(MessageNotFound)
    else if !d.Active(m) then Err(MarkerNotFound)
    else Ok(Desk(RestoreEach(d.store, now, rows, actor), d.markers[m := d.markers[m].(undoneAt := Some(now))]))
  }

  // ---------- What cancelling and restoring rows does to each draft ----------

  /** One cancellation of a draft under review, by a person or by the system. */
  lemma CancelOne(s: Store, now: Time, id: DraftId, actor: string, reason: string)
    requires StoreInv(s) && id in s.drafts && s.drafts[id].status.InReview()
    requires SessionActor(actor) || SystemReply(actor, reason)
    ensures var r := Cancel(s, now, id, actor, reason);
            && r.Done? && StoreInv(r.store)
            && r.store.drafts == s.drafts[id := s.drafts[id].(status := Cancelled)]
            && r.store.events == s.events + [Event(id, Cancelled, actor, now, reason)]
  {
    hide StoreInv, Extends, SessionActor, SystemReply;
    CancelKeeps(s, now, id, actor, reason);
  }

  lemma {:induction false} CancelEachAt(s: Store, now: Time, rows: seq<DraftId>, actor: string, reason: string, id: DraftId)
    requires StoreInv(s) && (SessionActor(actor) || SystemReply(actor, reason))
    requires forall i, j | 0 <= i < j < |rows| :: rows[i] != rows[j]
    requires forall i | 0 <= i < |rows| :: rows[i] in s.drafts && s.drafts[rows[i]].status.InReview()
    ensures var s' := CancelEach(s, now, rows, actor, reason);
            && StoreInv(s') && s'.drafts.Keys == s.drafts.Keys
            && (id in s.drafts && id !in rows ==> s'.drafts[id] == s.drafts[id])
            && (id in rows ==> s'.drafts[id] == s.drafts[id].(status := Cancelled))
            && EventsOf(s'.events, id)
               == EventsOf(s.events, id) + if id in rows then [Event(id, Cancelled, actor, now, reason)] else []
  {
    hide StoreInv;
    if rows != [] {
      var n := |rows| - 1;
      var x := rows[n];
      CancelEachAt(s, now, rows[..n], actor, reason, id);
      CancelEachAt(s, now, rows[..n], actor, reason, x);
      var s' := CancelEach(s, now, rows[..n], actor, reason);
      assert x in rows;
      CancelOne(s', now, x, actor, reason);
      EventsOfAppend(s'.events, Event(x, Cancelled, actor, now, reason), id);
      assert id in rows <==> id in rows[..n] || id == x;
    }
  }

  lemma RestoreOne(s: Store, now: Time, id: DraftId, actor: string)
    requires StoreInv(s) && id in s.drafts && s.drafts[id].status.Cancelled? && LastCancelHandled(s, id)
    requires SessionActor(actor)
    ensures var r := Restore(s, now, id, actor);
            && r.Done? && StoreInv(r.store) && EventsOf(s.events, id) != []
            && r.store.drafts == s.drafts[id := s.drafts[id].(status := EventsOf(s.events, id)[0].status)]
            && r.store.events == s.events + [Event(id, EventsOf(s.events, id)[0].status, actor, now, RESTORED_REASON)]
  {
    RestoreKeeps(s, now, id, actor);
    RestoreWrites(s, now, id, actor);
    hide Restore, StoreInv, Extends, LastCancelHandled, SessionActor, EventsOf;
  }

  lemma RestoreWrites(s: Store, now: Time, id: DraftId, actor: string)
    requires LogInv(s) && id in s.drafts && s.drafts[id].status.Cancelled? && LastCancelHandled(s, id)
    requires SessionActor(actor)
    ensures EventsOf(s.events, id) != []
    ensures var r := Restore(s, now, id, actor);
            && r.Done?
            && r.store.drafts == s.drafts[id := s.drafts[id].(status := EventsOf(s.events, id)[0].status)]
            && r.store.events == s.events + [Event(id, EventsOf(s.events, id)[0].status, actor, now, RESTORED_REASON)]
  {
    FirstEvent(s, id);
    PriorReviewIsCreation(s, id);
    hide LogInv, PriorReviewStatus, SessionActor, EventsOf;
  }

  /** Which drafts a restore of rows brings back, and to what. */
  lemma {:induction false} RestoreEachAt(s: Store, now: Time, rows: seq<DraftId>, actor: string, id: DraftId)
    requires StoreInv(s) && SessionActor(actor)
    requires forall i, j | 0 <= i < j < |rows| :: rows[i] != rows[j]
    requires forall i | 0 <= i < |rows| :: rows[i] in s.drafts && s.drafts[rows[i]].status.Cancelled?
    ensures var s' := RestoreEach(s, now, rows, actor);
            && StoreInv(s') && s'.drafts.Keys == s.drafts.Keys
            && (id in s.drafts && (id !in rows || !LastCancelHandled(s, id)) ==>
                  s'.drafts[id] == s.drafts[id] && EventsOf(s'.events, id) == EventsOf(s.events, id))
            && (id in rows && LastCancelHandled(s, id) ==>
                  && EventsOf(s.events, id) != []
                  && s'.drafts[id] == s.drafts[id].(status := EventsOf(s.events, id)[0].status)
                  && EventsOf(s'.events, id) == EventsOf(s.events, id)
                     + [Event(id, EventsOf(s.events, id)[0].status, actor, now, RESTORED_REASON)])
  {
    hide StoreInv, LastCancelHandled, EventsOf, Restore;
    if rows != [] {
      var n := |rows| - 1;
      var x := rows[n];
      RestoreEachAt(s, now, rows[..n], actor, id);
      RestoreEachAt(s, now, rows[..n], actor, x);
      var s' := RestoreEach(s, now, rows[..n], actor);
      assert x in rows && x !in rows[..n];
      SameCancellation(s, s', x);
      if LastCancelHandled(s, x) {
        RestoreOne(s', now, x, actor);
        EventsOfAppend(s'.events, Event(x, EventsOf(s'.events, x)[0].status, actor, now, RESTORED_REASON), id);
      }
      assert id in rows <==> id in rows[..n] || id == x;
    }
  }

  lemma SameCancellation(s: Store, s': Store, id: DraftId)
    requires EventsOf(s.events, id) == EventsOf(s'.events, id)
    ensures LastCancelHandled(s, id) == LastCancelHandled(s', id)
  {
  }

  lemma PendingFacts(s: Store, m: MessageId, rows: seq<DraftId>)
    requires PendingRows(s, m, rows)
    ensures forall i, j | 0 <= i < j < |rows| :: rows[i] != rows[j]
    ensures forall i | 0 <= i < |rows| :: rows[i] in s.drafts && s.drafts[rows[i]].status.InReview()
    ensures forall id :: id in rows <==> About(s, id, m) && s.drafts[id].status.InReview()
  {
    assert forall i | 0 <= i < |rows| :: rows[i] in rows;
  }

  lemma CancelledFacts(s: Store, m: MessageId, rows: seq<DraftId>)
    requires CancelledRows(s, m, rows)
    ensures forall i, j | 0 <= i < j < |rows| :: rows[i] != rows[j]
    ensures forall i | 0 <= i < |rows| :: rows[i] in s.drafts && s.drafts[rows[i]].status.Cancelled?
    ensures forall id :: id in rows <==> About(s, id, m) && s.drafts[id].status.Cancelled?
  {
    assert forall i | 0 <= i < |rows| :: rows[i] in rows;
  }

  lemma LastCancelOf(s: Store, id: DraftId, es: seq<Event>, e: Event)
    requires EventsOf(s.events, id) == es + [e] && e.status.Cancelled?
    ensures LastCancellation(s.events, id) == Some(e)
  {
  }

  /** A draft under review has the status it was created with. */
  lemma ReviewIsCreation(s: Store, id: DraftId)
    requires LogInv(s) && id in s.drafts && s.drafts[id].status.InReview()
    ensures EventsOf(s.events, id) != [] && EventsOf(s.events, id)[0].status == s.drafts[id].status
  {
    var es := EventsOf(s.events, id);
    ReviewStatusIsCreation(es, |es| - 1);
  }

  /** A person's restore only concerns drafts that a system reason cancelled; marking and undoing is a round trip. */
  lemma MarkUndoRoundTrip(d: Desk, t1: Time, t2: Time, m: MessageId, channel: string, note: string,
                          marker: string, undoer: string, rows1: seq<DraftId>, rows2: seq<DraftId>)
    requires StoreInv(d.store) && SessionActor(marker) && SessionActor(undoer)
    requires channel in CHANNELS && |note| <= NOTE_LIMIT
    requires forall id | About(d.store, id, m) :: !HandledCancelled(d.store, id)
    requires PendingRows(d.store, m, rows1)
    requires var r := Mark(d, t1, m, true, channel, note, marker, rows1); r.Ok? && CancelledRows(r.value.store, m, rows2)
    ensures var marked := Mark(d, t1, m, true, channel, note, marker, rows1).value;
            var r := Undo(marked, t2, m, true, undoer, rows2);
            && marked.Active(m)
            && (forall id | id in rows1 :: id in marked.store.drafts && marked.store.drafts[id].status.Cancelled?)
            && r.Ok? && r.value.store.drafts == d.store.drafts && !r.value.Active(m)
  {
    hide StoreInv, CancelEach, RestoreEach, PendingRows, CancelledRows, HandledCancelled, SessionActor;
    RowsRoundTrip(d.store, t1, t2, m, marker, undoer, rows1, rows2);
  }

  lemma RowsRoundTrip(s: Store, t1: Time, t2: Time, m: MessageId, marker: string, undoer: string,
                      rows1: seq<DraftId>, rows2: seq<DraftId>)
    requires StoreInv(s) && SessionActor(marker) && SessionActor(undoer)
    requires forall id | About(s, id, m) :: !HandledCancelled(s, id)
    requires PendingRows(s, m, rows1)
    requires CancelledRows(CancelEach(s, t1, rows1, marker, HANDLED_ELSEWHERE_REASON), m, rows2)
    ensures var s1 := CancelEach(s, t1, rows1, marker, HANDLED_ELSEWHERE_REASON);
            && RestoreEach(s1, t2, rows2, undoer).drafts == s.drafts
            && (forall id | id in rows1 :: id in s1.drafts && s1.drafts[id].status.Cancelled?)
  {
    var s1 := CancelEach(s, t1, rows1, marker, HANDLED_ELSEWHERE_REASON);
    var s2 := RestoreEach(s1, t2, rows2, undoer);
    hide StoreInv, CancelEach, RestoreEach, PendingRows, CancelledRows, HandledCancelled, SessionActor;
    PendingFacts(s, m, rows1);
    CancelEachAt(s, t1, rows1, marker, HANDLED_ELSEWHERE_REASON, "");
    CancelledFacts(s1, m, rows2);
    RestoreEachAt(s1, t2, rows2, undoer, "");
    forall id | id in s.drafts
      ensures s2.drafts[id] == s.drafts[id] && (id in rows1 ==> s1.drafts[id].status.Cancelled?)
    {
      BackAgain(s, t1, t2, m, marker, undoer, rows1, rows2, id);
    }
    assert s2.drafts == s.drafts;
  }

  lemma BackAgain(s: Store, t1: Time, t2: Time, m: MessageId, marker: string, undoer: string,
                  rows1: seq<DraftId>, rows2: seq<DraftId>, id: DraftId)
    requires StoreInv(s) && SessionActor(marker) && SessionActor(undoer) && id in s.drafts
    requires About(s, id, m) ==> !HandledCancelled(s, id)
    requires PendingRows(s, m, rows1)
    requires CancelledRows(CancelEach(s, t1, rows1, marker, HANDLED_ELSEWHERE_REASON), m, rows2)
    ensures var s1 := CancelEach(s, t1, rows1, marker, HANDLED_ELSEWHERE_REASON);
            var s2 := RestoreEach(s1, t2, rows2, undoer);
            && id in s1.drafts && id in s2.drafts
            && s2.drafts[id] == s.drafts[id] && (id in rows1 ==> s1.drafts[id].status.Cancelled?)
  {
    hide StoreInv, CancelEach, RestoreEach, PendingRows, CancelledRows, EventsOf;
    var s1 := CancelEach(s, t1, rows1, marker, HANDLED_ELSEWHERE_REASON);
    PendingFacts(s, m, rows1);
    CancelEachAt(s, t1, rows1, marker, HANDLED_ELSEWHERE_REASON, id);
    CancelledFacts(s1, m, rows2);
    RestoreEachAt(s1, t2, rows2, undoer, id);
    if id in rows1 {
      CreationStatus(s, id);
      LastCancelOf(s1, id, EventsOf(s.events, id), Event(id, Cancelled, marker, t1, HANDLED_ELSEWHERE_REASON));
      assert id in rows2;
    } else {
      SameCancellation(s, s1, id);
    }
  }

  lemma CreationStatus(s: Store, id: DraftId)
    requires StoreInv(s) && id in s.drafts && s.drafts[id].status.InReview()
    ensures EventsOf(s.events, id) != [] && EventsOf(s.events, id)[0].status == s.drafts[id].status
  {
    ReviewIsCreation(s, id);
  }
}
