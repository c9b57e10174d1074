/**
 What every transaction of the send protocol keeps: the event log of a draft is a path of one
 automaton that ends in the draft's status, the reconciliation queue covers every draft in
 flight, and receipt items are spent once.
 */
module SendLifecycle {
  import opened SendStore

  // ---------- The automaton ----------

  /** May event `b` follow event `a` in the log of a draft that was created with status `created`? */
  predicate Edge(a: Event, b: Event, created: Status)
  {
    match a.status
    case NeedsApproval => b.status.Approved? || b.status.Cancelled?
    case NeedsClarification => b.status.Cancelled?
    case Approved => (b.status.Sending? && b.reason == "") || (b.status.Cancelled? && SessionActor(b.actor))
    case Sending => (b.status.Sending? && b.reason != "") || b.status.Sent? || b.status.Failed?
    case Cancelled => b.status == created && b.reason == RESTORED_REASON && SystemCancelEvent(a)
    case Sent => false
    case Failed => false
  }

  ghost predicate IsPath(es: seq<Event>)
  {
    && es != []
    && es[0].status.InReview()
    && forall i | 0 < i < |es| :: Edge(es[i - 1], es[i], es[0].status)
  }

  ghost predicate LogInv(s: Store)
  {
    && (forall id | id !in s.drafts :: EventsOf(s.events, id) == [])
    && (forall id | id in s.drafts ::
          var es := EventsOf(s.events, id);
          IsPath(es) && es[|es| - 1].status == s.drafts[id].status)
  }

  lemma EventsOfAppend(events: seq<Event>, e: Event, id: DraftId)
    ensures EventsOf(events + [e], id) == EventsOf(events, id) + if e.draftId == id then [e] else []
  {
    assert (events + [e])[..|events|] == events;
  }

  lemma {:induction false} EventsOfMember(events: seq<Event>, e: Event)
    requires e in events
    ensures e in EventsOf(events, e.draftId)
  {
    var n := |events| - 1;
    if events[n] != e {
      assert e in events[..n];
      EventsOfMember(events[..n], e);
    }
  }

  lemma {:induction false} LastWhereFinds(es: seq<Event>, p: Event -> bool)
    ensures LastWhere(es, p).Some? <==> exists e :: e in es && p(e)
    ensures LastWhere(es, p).Some? ==> LastWhere(es, p).value in es && p(LastWhere(es, p).value)
  {
    if es != [] {
      var n := |es| - 1;
      LastWhereFinds(es[..n], p);
      assert forall e :: e in es <==> e in es[..n] || e == es[n];
    }
  }

  /** Every review status in a path is the status the draft was created with. */
  lemma ReviewStatusIsCreation(es: seq<Event>, i: nat)
    requires IsPath(es) && i < |es| && es[i].status.InReview()
    ensures es[i].status == es[0].status
  {
    if i > 0 {
      assert Edge(es[i - 1], es[i], es[0].status);
    }
  }

  /** Once a path is launched it stays launched, and no later event is a claim. */
  lemma {:induction false} LaunchedStays(es: seq<Event>, i: nat, j: nat)
    requires IsPath(es) && i < j < |es| && es[i].status.Launched()
    ensures es[j].status.Launched()
    ensures es[j].status.Sending? ==> es[j].reason != ""
    decreases j
  {
    if i < j - 1 {
      LaunchedStays(es, i, j - 1);
    }
    assert Edge(es[j - 1], es[j], es[0].status);
  }

  predicate ClaimEvent(e: Event) { e.status.Sending? && e.reason == "" }

  /** A draft is claimed at most once in its whole life. */
  lemma ClaimedAtMostOnce(s: Store, id: DraftId, i: nat, j: nat)
    requires LogInv(s)
    requires i < j < |EventsOf(s.events, id)|
    ensures !(ClaimEvent(EventsOf(s.events, id)[i]) && ClaimEvent(EventsOf(s.events, id)[j]))
  {
    var es := EventsOf(s.events, id);
    assert id in s.drafts;
    if ClaimEvent(es[i]) {
      LaunchedStays(es, i, j);
    }
  }

  /** A draft created for clarification only ever waits or is cancelled. */
  lemma {:induction false} ClarificationNeverLaunched(es: seq<Event>, i: nat)
    requires IsPath(es) && i < |es| && es[0].status.NeedsClarification?
    ensures es[i].status.NeedsClarification? || es[i].status.Cancelled?
  {
    if i > 0 {
      ClarificationNeverLaunched(es, i - 1);
      assert Edge(es[i - 1], es[i], es[0].status);
    }
  }

  /** Only a cancellation for a system reason is ever followed by anything, and only by a restore. */
  lemma PlainCancelIsTerminal(es: seq<Event>, i: nat)
    requires IsPath(es) && i + 1 < |es| && es[i].status.Cancelled?
    ensures SystemCancelEvent(es[i])
    ensures es[i + 1].status == es[0].status && es[i + 1].reason == RESTORED_REASON
  {
    assert Edge(es[i + 1 - 1], es[i + 1], es[0].status);
  }

  // ---------- Log lemmas shared by the operations ----------

  lemma PathGrows(es: seq<Event>, e: Event)
    requires IsPath(es) && Edge(es[|es| - 1], e, es[0].status)
    ensures IsPath(es + [e])
  {
    hide Edge;
    var grown := es + [e];
    forall i | 0 < i < |grown| ensures Edge(grown[i - 1], grown[i], grown[0].status) {
      if i < |es| {
        assert Edge(es[i - 1], es[i], es[0].status);
      }
    }
  }

  lemma LogStep(s: Store, s': Store, id: DraftId, d: Draft, e: Event)
    requires LogInv(s) && id in s.drafts
    requires s'.drafts == s.drafts[id := d] && s'.events == s.events + [e]
    requires e.draftId == id && e.status == d.status
    requires var es := EventsOf(s.events, id); Edge(es[|es| - 1], e, es[0].status)
    ensures LogInv(s')
  {
    hide EventsOf, IsPath, Edge;
    forall x ensures
      EventsOf(s'.events, x) == EventsOf(s.events, x) + if e.draftId == x then [e] else []
    {
      EventsOfAppend(s.events, e, x);
    }
    PathGrows(EventsOf(s.events, id), e);
    forall x | x != id ensures EventsOf(s'.events, x) == EventsOf(s.events, x) {
    }
  }

  /** The cancellation a restore looks at is the draft's last event. */
  lemma CancelledLast(s: Store, id: DraftId)
    requires LogInv(s) && id in s.drafts && s.drafts[id].status.Cancelled?
    ensures var es := EventsOf(s.events, id);
            IsSystemCancelled(s, id) <==> SystemCancelEvent(es[|es| - 1])
  {
  }

  /** `restore` goes back to exactly the status the draft was created with. */
  lemma PriorReviewIsCreation(s: Store, id: DraftId)
    requires LogInv(s) && id in s.drafts
    ensures PriorReviewStatus(s, id) == EventsOf(s.events, id)[0].status
  {
    var es := EventsOf(s.events, id);
    var p := (e: Event) => e.status.InReview();
    LastWhereFinds(es, p);
    assert es[0] in es && p(es[0]);
    var e := LastWhere(es, p).value;
    var i :| 0 <= i < |es| && es[i] == e;
    ReviewStatusIsCreation(es, i);
  }

  // ---------- The queue ----------

  /** No draft in flight is without a live job, and a job is complete exactly when its draft is sent. */
  ghost predicate JobInv(s: Store)
  {
    s.hasQueue ==>
      && s.jobs.Keys <= s.drafts.Keys
      && (forall id | id in s.drafts && s.drafts[id].status.Sending? ::
            id in s.jobs && (s.jobs[id].state.Pending? || s.jobs[id].state.Leased?))
      && (forall id | id in s.drafts ::
            s.drafts[id].status.Sent? <==> (id in s.jobs && s.jobs[id].state.Complete?))
      && (forall id | id in s.jobs :: s.drafts[id].status.Launched())
      && (forall id | id in s.jobs ::
            (s.jobs[id].leaseOwner != "" <==> s.jobs[id].state.Leased?)
            && (s.jobs[id].leaseExpiresAt.Some? <==> s.jobs[id].state.Leased?))
  }

  /** A waiting job is due within the longest backoff, a lease runs out within the longest lease. */
  predicate WaitsWithin(j: Job, now: Time, maxBackoff: int, maxLease: int)
  {
    && (j.state.Pending? ==> j.nextAttemptAt <= now + maxBackoff)
    && (j.state.Leased? && j.leaseExpiresAt.Some? ==> j.leaseExpiresAt.value <= now + maxLease)
  }

  ghost predicate DueInv(s: Store, now: Time, maxBackoff: int, maxLease: int)
  {
    forall id | id in s.jobs :: WaitsWithin(s.jobs[id], now, maxBackoff, maxLease)
  }

  // ---------- Receipts ----------

  predicate ReceiptApproval(e: Event) { e.status.Approved? && RECEIPT_PREFIX <= e.actor }

  function ReceiptIdOf(e: Event): string
    requires ReceiptApproval(e)
  {
    e.actor[|RECEIPT_PREFIX|..]
  }

  /** Every approval made under a receipt has spent its own pair of receipt and item digest. */
  ghost predicate UsesInv(s: Store)
  {
    && (forall i | 0 <= i < |s.events| && ReceiptApproval(s.events[i]) ::
          var e := s.events[i];
          && e.draftId in s.drafts
          && var pair := (ReceiptIdOf(e), ItemDigest(s.drafts[e.draftId]));
             pair in s.uses && s.uses[pair] == e.draftId)
    && (forall i, j | 0 <= i < j < |s.events| && ReceiptApproval(s.events[i]) && ReceiptApproval(s.events[j]) ::
          s.events[i].actor != s.events[j].actor || s.events[i].draftId != s.events[j].draftId)
  }

  ghost predicate RowInv(s: Store)
  {
    forall id | id in s.drafts ::
      && (s.drafts[id].status.Sent? ==> s.drafts[id].graphMessageId.Some?)
      && (s.drafts[id].status.Approved? || s.drafts[id].status.Launched() ==>
            s.drafts[id].approvedAt.Some? && s.drafts[id].approvedBy.Some?
            && !BodyNeedsClarification(s.drafts[id].payload.bodyText))
  }

  ghost predicate StoreInv(s: Store) { LogInv(s) && JobInv(s) && UsesInv(s) && RowInv(s) }

  /** One receipt item never approves twice, whichever drafts carry that item. */
  lemma ReceiptItemApprovesOnce(s: Store, i: nat, j: nat)
    requires UsesInv(s) && i < j < |s.events|
    requires ReceiptApproval(s.events[i]) && ReceiptApproval(s.events[j])
    ensures s.events[i].draftId in s.drafts && s.events[j].draftId in s.drafts
    ensures ReceiptIdOf(s.events[i]) != ReceiptIdOf(s.events[j])
         || ItemDigest(s.drafts[s.events[i].draftId]) != ItemDigest(s.drafts[s.events[j].draftId])
  {
    var a, b := s.events[i], s.events[j];
    assert a.actor == RECEIPT_PREFIX + ReceiptIdOf(a);
    assert b.actor == RECEIPT_PREFIX + ReceiptIdOf(b);
  }

  /** Payload and identity of a draft, which no transaction changes. */
  predicate SameContent(a: Draft, b: Draft)
  {
    a.payload == b.payload && a.digest == b.digest && a.source == b.source && a.requestId == b.requestId
  }

  /** What a transaction may do to rows it finds: contents stay, a sent row stays as it is, the log grows. */
  ghost predicate Extends(s: Store, s': Store)
  {
    && s.drafts.Keys <= s'.drafts.Keys
    && (forall id | id in s.drafts :: SameContent(s.drafts[id], s'.drafts[id]))
    && (forall id | id in s.drafts && s.drafts[id].status.Sent? :: s'.drafts[id] == s.drafts[id])
    && (forall id | id in s.drafts && s.drafts[id].status.Failed? :: s'.drafts[id] == s.drafts[id])
    && s.events <= s'.events
    && s.hasQueue == s'.hasQueue
  }

  lemma ExtendsTransitive(a: Store, b: Store, c: Store)
    requires Extends(a, b) && Extends(b, c)
    ensures Extends(a, c)
  {
    forall id | id in a.drafts ensures
      && SameContent(a.drafts[id], c.drafts[id])
      && (a.drafts[id].status.Sent? || a.drafts[id].status.Failed? ==> c.drafts[id] == a.drafts[id])
    {
      assert id in b.drafts;
    }
  }

  // ---------- Every transaction keeps the invariants ----------

  lemma LastEvent(s: Store, id: DraftId)
    requires LogInv(s) && id in s.drafts
    ensures var es := EventsOf(s.events, id); es != [] && es[|es| - 1].status == s.drafts[id].status
  {
  }

  /** `s'` is `s` with one draft row rewritten and the event for it appended. */
  ghost predicate Writes(s: Store, s': Store, id: DraftId, d: Draft, e: Event)
  {
    && s'.drafts == s.drafts[id := d] && s'.events == s.events + [e]
    && e.draftId == id && e.status == d.status
    && s'.hasQueue == s.hasQueue
    && (id in s.drafts ==> SameContent(s.drafts[id], d))
  }

  /** Appending an event that is no receipt approval keeps the receipts in order. */
  lemma UsesAppend(s: Store, s': Store, id: DraftId, d: Draft, e: Event)
    requires UsesInv(s) && !ReceiptApproval(e) && Writes(s, s', id, d, e) && s'.uses == s.uses
    ensures UsesInv(s')
  {
    forall i | 0 <= i < |s'.events| && ReceiptApproval(s'.events[i]) ensures
      var a := s'.events[i];
      && i < |s.events|
      && a.draftId in s'.drafts
      && var pair := (ReceiptIdOf(a), ItemDigest(s'.drafts[a.draftId]));
         pair in s'.uses && s'.uses[pair] == a.draftId
    {
      assert s'.events[i] == s.events[i];
    }
  }

  lemma RowStep(s: Store, s': Store, id: DraftId, d: Draft, e: Event)
    requires RowInv(s) && Writes(s, s', id, d, e)
    requires d.status.Sent? ==> d.graphMessageId.Some?
    requires d.status.Approved? || d.status.Launched() ==>
      d.approvedAt.Some? && d.approvedBy.Some? && !BodyNeedsClarification(d.payload.bodyText)
    ensures RowInv(s')
  {
  }

  lemma ExtendsStep(s: Store, s': Store, id: DraftId, d: Draft, e: Event)
    requires Writes(s, s', id, d, e)
    requires id in s.drafts ==> !s.drafts[id].status.Sent? && !s.drafts[id].status.Failed?
    ensures Extends(s, s')
  {
  }

  lemma ExtendsSame(s: Store)
    ensures Extends(s, s)
  {
  }

  /** What the queue says about one draft. */
  ghost predicate JobFits(s: Store, id: DraftId)
  {
    && (id in s.jobs ==>
          && id in s.drafts && s.drafts[id].status.Launched()
          && (s.jobs[id].leaseOwner != "" <==> s.jobs[id].state.Leased?)
          && (s.jobs[id].leaseExpiresAt.Some? <==> s.jobs[id].state.Leased?))
    && (id in s.drafts ==>
          && (s.drafts[id].status.Sending? ==> id in s.jobs && !s.jobs[id].state.Complete?)
          && (s.drafts[id].status.Sent? <==> (id in s.jobs && s.jobs[id].state.Complete?)))
  }

  lemma JobInvFits(s: Store, id: DraftId)
    requires JobInv(s) && s.hasQueue
    ensures JobFits(s, id)
  {
  }

  lemma FitsJobInv(s: Store)
    requires s.hasQueue ==> forall id :: JobFits(s, id)
    ensures JobInv(s)
  {
    if s.hasQueue {
      forall id | id in s.jobs || id in s.drafts ensures JobFits(s, id) {
      }
    }
  }

  /** The queue after one draft row changed: only that draft's job may differ, and it must fit the new status. */
  lemma JobStep(s: Store, s': Store, id: DraftId, d: Draft, e: Event)
    requires JobInv(s) && Writes(s, s', id, d, e)
    requires s'.hasQueue ==>
      && s'.jobs.Keys <= s.jobs.Keys + {id}
      && (forall x | x in s.jobs && x != id :: x in s'.jobs && s'.jobs[x] == s.jobs[x])
      && JobFits(s', id)
    ensures JobInv(s')
  {
    hide JobInv;
    if s'.hasQueue {
      forall x ensures JobFits(s', x) {
        JobInvFits(s, x);
        if x != id { OtherJobFits(s, s', id, x); }
      }
    }
    hide JobFits;
    FitsJobInv(s');
  }

  lemma OtherJobFits(s: Store, s': Store, id: DraftId, x: DraftId)
    requires JobFits(s, x) && x != id
    requires x in s'.drafts <==> x in s.drafts
    requires x in s.drafts ==> s'.drafts[x] == s.drafts[x]
    requires x in s'.jobs <==> x in s.jobs
    requires x in s.jobs ==> s'.jobs[x] == s.jobs[x]
    ensures JobFits(s', x)
  {
  }

  lemma RowOf(s: Store, id: DraftId)
    requires RowInv(s) && id in s.drafts
    ensures s.drafts[id].status.Approved? || s.drafts[id].status.Launched() ==>
      s.drafts[id].approvedAt.Some? && s.drafts[id].approvedBy.Some?
      && !BodyNeedsClarification(s.drafts[id].payload.bodyText)
  {
  }

  // ---------- Every transaction keeps the invariants ----------

  lemma CreateKeeps(s: Store, now: Time, input: NewDraft, newId: DraftId, sourceKnown: bool, assetsBound: bool)
    requires StoreInv(s)
    ensures var r := Create(s, now, input, newId, sourceKnown, assetsBound);
            r.Done? ==> StoreInv(r.store) && Extends(s, r.store)
  {
    hide LogInv, UsesInv, JobInv, RowInv, Extends;
    var r := Create(s, now, input, newId, sourceKnown, assetsBound);
    if r.Done? {
      if r.value.replay {
        ExtendsSame(s);
      } else {
        var d := r.store.drafts[newId];
        var e := Event(newId, d.status, input.source, now, "");
        LogStart(s, r.store, newId, d, e);
        if s.hasQueue { JobAbsent(s, newId); }
        JobStep(s, r.store, newId, d, e);
        UsesAppend(s, r.store, newId, d, e);
        RowStep(s, r.store, newId, d, e);
        ExtendsStep(s, r.store, newId, d, e);
      }
    }
  }

  lemma JobAbsent(s: Store, id: DraftId)
    requires JobInv(s) && s.hasQueue && id !in s.drafts
    ensures id !in s.jobs
  {
  }

  lemma LogStart(s: Store, s': Store, id: DraftId, d: Draft, e: Event)
    requires LogInv(s) && id !in s.drafts && Writes(s, s', id, d, e) && d.status.InReview()
    ensures LogInv(s')
  {
    hide EventsOf, Edge;
    forall x ensures
      EventsOf(s'.events, x) == EventsOf(s.events, x) + if e.draftId == x then [e] else []
    {
      EventsOfAppend(s.events, e, x);
    }
    assert EventsOf(s'.events, id) == [e] && IsPath([e]);
    hide IsPath;
    forall x | x != id ensures EventsOf(s'.events, x) == EventsOf(s.events, x) {
    }
  }

  lemma ClaimKeeps(s: Store, now: Time, id: DraftId)
    requires StoreInv(s)
    ensures var r := Claim(s, now, id); r.Done? ==> StoreInv(r.store) && Extends(s, r.store)
  {
    hide LogInv, UsesInv, JobInv, RowInv, Extends;
    var r := Claim(s, now, id);
    if r.Done? && r.value {
      ClaimJobs(s, now, id);
      LaunchWritten(s, r.store, id, s.drafts[id].(status := Sending), Event(id, Sending, MAIL_INTELLIGENCE, now, ""));
    } else {
      ExtendsSame(s);
    }
  }

  /** A claim writes the draft row and its event, and leaves it with a live job. */
  lemma ClaimJobs(s: Store, now: Time, id: DraftId)
    requires JobInv(s)
    ensures var r := Claim(s, now, id);
            r.Done? && r.value ==>
              && id in s.drafts && s.drafts[id].status.Approved?
              && Writes(s, r.store, id, s.drafts[id].(status := Sending), Event(id, Sending, MAIL_INTELLIGENCE, now, ""))
              && r.store.uses == s.uses && JobInv(r.store)
  {
    hide JobInv, FrozenAssetsIntact;
    var r := Claim(s, now, id);
    if r.Done? && r.value {
      if s.hasQueue { JobInvFits(s, id); }
      JobStep(s, r.store, id, s.drafts[id].(status := Sending), Event(id, Sending, MAIL_INTELLIGENCE, now, ""));
    }
  }

  /** The part of a claim that does not concern the queue. */
  lemma LaunchWritten(s: Store, s': Store, id: DraftId, d: Draft, e: Event)
    requires LogInv(s) && UsesInv(s) && RowInv(s) && id in s.drafts && s.drafts[id].status.Approved?
    requires Writes(s, s', id, d, e) && s'.uses == s.uses && d.status.Sending? && e.reason == ""
    requires d.approvedAt == s.drafts[id].approvedAt && d.approvedBy == s.drafts[id].approvedBy
    ensures LogInv(s') && UsesInv(s') && RowInv(s') && Extends(s, s')
  {
    hide LogInv, UsesInv, RowInv, Extends;
    LastEvent(s, id);
    LogStep(s, s', id, d, e);
    UsesAppend(s, s', id, d, e);
    RowOf(s, id);
    RowStep(s, s', id, d, e);
    ExtendsStep(s, s', id, d, e);
  }

  lemma ApproveKeeps(s: Store, now: Time, id: DraftId, a: Approval)
    requires StoreInv(s) && !a.receiptVerified
    ensures var r := Approve(s, now, id, a); r.Done? ==> StoreInv(r.store) && Extends(s, r.store)
  {
    hide LogInv, UsesInv, JobInv, RowInv, Extends;
    var r := Approve(s, now, id, a);
    if r.Done? {
      if r.store == s {
        ExtendsSame(s);
      } else {
        var e := Event(id, Approved, a.actor, now, "");
        ApprovalWritten(s, r.store, id, r.value, e);
        assert a.actor[0] == 's' && RECEIPT_PREFIX[0] == 'j';
        UsesAppend(s, r.store, id, r.value, e);
      }
    }
  }

  /** The part of an approval that does not depend on who approved. */
  lemma ApprovalWritten(s: Store, s': Store, id: DraftId, d: Draft, e: Event)
    requires LogInv(s) && JobInv(s) && RowInv(s) && id in s.drafts && s.drafts[id].status.NeedsApproval?
    requires Writes(s, s', id, d, e) && s'.jobs == s.jobs
    requires d.status.Approved? && d.approvedAt.Some? && d.approvedBy.Some?
    requires !BodyNeedsClarification(d.payload.bodyText)
    ensures LogInv(s') && JobInv(s') && RowInv(s') && Extends(s, s')
  {
    hide LogInv, JobInv, RowInv, Extends;
    LastEvent(s, id);
    LogStep(s, s', id, d, e);
    if s.hasQueue { JobInvFits(s, id); }
    JobStep(s, s', id, d, e);
    RowStep(s, s', id, d, e);
    ExtendsStep(s, s', id, d, e);
  }

  lemma CancelKeeps(s: Store, now: Time, id: DraftId, actor: string, reason: string)
    requires StoreInv(s)
    ensures var r := Cancel(s, now, id, actor, reason); r.Done? ==> StoreInv(r.store) && Extends(s, r.store)
  {
    hide LogInv, UsesInv, JobInv, RowInv, Extends;
    var r := Cancel(s, now, id, actor, reason);
    if r.Done? {
      if r.store == s {
        ExtendsSame(s);
      } else {
        LastEvent(s, id);
        var e := Event(id, Cancelled, actor, now, reason);
        LogStep(s, r.store, id, r.value, e);
        if s.hasQueue { JobInvFits(s, id); }
        JobStep(s, r.store, id, r.value, e);
        UsesAppend(s, r.store, id, r.value, e);
        RowStep(s, r.store, id, r.value, e);
        ExtendsStep(s, r.store, id, r.value, e);
      }
    }
  }

  /** A restore keeps everything and brings the draft back to the status it was created with. */
  lemma RestoreKeeps(s: Store, now: Time, id: DraftId, actor: string)
    requires StoreInv(s)
    ensures var r := Restore(s, now, id, actor);
            r.Done? ==>
              && StoreInv(r.store) && Extends(s, r.store)
              && EventsOf(s.events, id) != []
              && r.store.drafts[id].status == EventsOf(s.events, id)[0].status
  {
    hide LogInv, UsesInv, JobInv, RowInv, Extends;
    var r := Restore(s, now, id, actor);
    if r.Done? {
      LastEvent(s, id);
      FirstEvent(s, id);
      CancelledLast(s, id);
      PriorReviewIsCreation(s, id);
      var e := Event(id, r.value.status, actor, now, RESTORED_REASON);
      LogStep(s, r.store, id, r.value, e);
      if s.hasQueue { JobInvFits(s, id); }
      JobStep(s, r.store, id, r.value, e);
      UsesAppend(s, r.store, id, r.value, e);
      RowStep(s, r.store, id, r.value, e);
      ExtendsStep(s, r.store, id, r.value, e);
    }
  }

  lemma FirstEvent(s: Store, id: DraftId)
    requires LogInv(s) && id in s.drafts
    ensures var es := EventsOf(s.events, id); es != [] && es[0].status.InReview()
  {
  }

  lemma RecordOutcomeKeeps(s: Store, now: Time, id: DraftId, o: Outcome)
    requires StoreInv(s)
    ensures var r := RecordOutcome(s, now, id, o); r.Done? ==> StoreInv(r.store) && Extends(s, r.store)
  {
    hide LogInv, UsesInv, JobInv, RowInv, Extends;
    var r := RecordOutcome(s, now, id, o);
    if r.Done? {
      if s.drafts[id].status.Sent? {
        ExtendsSame(s);
      } else {
        var e := Event(id, r.value.status, MAIL_INTELLIGENCE, now, if o.Receipt() then "" else o.failureCode);
        RecordJobs(s, now, id, o);
        hide Enqueue, CompleteJob;
        OutcomeWritten(s, r.store, id, r.value, e);
      }
    }
  }

  /** The job of the draft fits what was recorded, and no other job is touched. */
  lemma RecordJobs(s: Store, now: Time, id: DraftId, o: Outcome)
    requires JobInv(s)
    ensures var r := RecordOutcome(s, now, id, o);
            r.Done? && s.drafts[id].status.Sending? ==>
              && Writes(s, r.store, id, r.value,
                        Event(id, r.value.status, MAIL_INTELLIGENCE, now, if o.Receipt() then "" else o.failureCode))
              && r.store.uses == s.uses && JobInv(r.store)
  {
    hide JobInv, JobFits, RecordOutcome, Enqueue, CompleteJob;
    var r := RecordOutcome(s, now, id, o);
    RecordShape(s, now, id, o);
    if r.Done? && s.drafts[id].status.Sending? {
      var reason := if o.Receipt() then "" else o.failureCode;
      var logged := Log(s, id, r.value, MAIL_INTELLIGENCE, now, reason);
      if s.hasQueue { JobInvFits(s, id); }
      if r.value.status.Sent? {
        CompleteFits(s, logged, id, r.value);
      } else if r.value.status.Sending? {
        EnqueueFits(s, logged, id, r.value, o.failureCode, now);
      } else {
        FailedFits(s, logged, id, r.value);
      }
      JobStep(s, r.store, id, r.value, Event(id, r.value.status, MAIL_INTELLIGENCE, now, reason));
    }
  }

  lemma RecordShape(s: Store, now: Time, id: DraftId, o: Outcome)
    ensures var r := RecordOutcome(s, now, id, o);
            r.Done? ==>
              && id in s.drafts
              && (s.drafts[id].status.Sending? ==>
                    && (r.value.status.Sent? || r.value.status.Sending? || r.value.status.Failed?)
                    && SameContent(s.drafts[id], r.value)
                    && var logged := Log(s, id, r.value, MAIL_INTELLIGENCE, now, if o.Receipt() then "" else o.failureCode);
                       r.store == if r.value.status.Sent? then CompleteJob(logged, id)
                                  else if r.value.status.Sending? then Enqueue(logged, id, o.failureCode, now)
                                  else logged)
  {
    hide ValidFailureCode, Requeued, Log, Enqueue, CompleteJob;
  }

  /** `logged` is `s` with the draft's row and event written, its job not yet. */
  predicate Logged(s: Store, logged: Store, id: DraftId, d: Draft)
  {
    id in s.drafts && s.drafts[id].status.Sending?
    && logged == s.(drafts := s.drafts[id := d], events := logged.events)
  }

  predicate OneJob(s: Store, s': Store, id: DraftId)
  {
    && s'.jobs.Keys <= s.jobs.Keys + {id}
    && forall x | x in s.jobs && x != id :: x in s'.jobs && s'.jobs[x] == s.jobs[x]
  }

  lemma CompleteFits(s: Store, logged: Store, id: DraftId, d: Draft)
    requires Logged(s, logged, id, d) && d.status.Sent? && (s.hasQueue ==> JobFits(s, id))
    ensures var s' := CompleteJob(logged, id);
            && s' == logged.(jobs := s'.jobs) && OneJob(s, s', id) && (s.hasQueue ==> JobFits(s', id))
  {
  }

  lemma EnqueueFits(s: Store, logged: Store, id: DraftId, d: Draft, failureCode: string, now: Time)
    requires Logged(s, logged, id, d) && d.status.Sending? && (s.hasQueue ==> JobFits(s, id))
    ensures var s' := Enqueue(logged, id, failureCode, now);
            && s' == logged.(jobs := s'.jobs) && OneJob(s, s', id) && (s.hasQueue ==> JobFits(s', id))
  {
    if id in s.jobs { RequeuedLease(s.jobs[id], failureCode, now); }
    hide Requeued;
  }

  lemma FailedFits(s: Store, logged: Store, id: DraftId, d: Draft)
    requires Logged(s, logged, id, d) && d.status.Failed? && (s.hasQueue ==> JobFits(s, id))
    ensures OneJob(s, logged, id) && (s.hasQueue ==> JobFits(logged, id))
  {
  }

  lemma RequeuedLease(j: Job, failureCode: string, now: Time)
    ensures var k := Requeued(j, failureCode, now);
            && k.state == j.state
            && (!j.state.Pending? ==> k.leaseOwner == j.leaseOwner && k.leaseExpiresAt == j.leaseExpiresAt)
            && (j.state.Pending? ==> k.leaseOwner == "" && k.leaseExpiresAt.None?)
  {
  }

  /** The part of a recording that does not concern the queue. */
  lemma OutcomeWritten(s: Store, s': Store, id: DraftId, d: Draft, e: Event)
    requires LogInv(s) && UsesInv(s) && RowInv(s) && id in s.drafts && s.drafts[id].status.Sending?
    requires Writes(s, s', id, d, e) && s'.uses == s.uses
    requires d.status.Sent? || d.status.Failed? || (d.status.Sending? && e.reason != "")
    requires d.status.Sent? ==> d.graphMessageId.Some?
    requires d.approvedAt == s.drafts[id].approvedAt && d.approvedBy == s.drafts[id].approvedBy
    ensures LogInv(s') && UsesInv(s') && RowInv(s') && Extends(s, s')
  {
    hide LogInv, UsesInv, RowInv, Extends;
    LastEvent(s, id);
    LogStep(s, s', id, d, e);
    UsesAppend(s, s', id, d, e);
    RowOf(s, id);
    RowStep(s, s', id, d, e);
    ExtendsStep(s, s', id, d, e);
  }

  /** Spending a fresh pair together with the approval it pays for keeps every pair spent once. */
  lemma UsesSpend(s: Store, s': Store, id: DraftId, d: Draft, e: Event)
    requires UsesInv(s) && id in s.drafts && Writes(s, s', id, d, e) && ReceiptApproval(e)
    requires (ReceiptIdOf(e), ItemDigest(d)) !in s.uses
    requires s'.uses == s.uses[(ReceiptIdOf(e), ItemDigest(d)) := id]
    ensures UsesInv(s')
  {
    forall i | 0 <= i < |s.events| && ReceiptApproval(s.events[i])
      ensures s.events[i].actor != e.actor || s.events[i].draftId != e.draftId
    {
      var x := s.events[i];
      assert (ReceiptIdOf(x), ItemDigest(s.drafts[x.draftId])) in s.uses;
    }
    forall i | 0 <= i < |s'.events| && ReceiptApproval(s'.events[i]) ensures
      var a := s'.events[i];
      && a.draftId in s'.drafts
      && var pair := (ReceiptIdOf(a), ItemDigest(s'.drafts[a.draftId]));
         pair in s'.uses && s'.uses[pair] == a.draftId
    {
      if i < |s.events| {
        assert s'.events[i] == s.events[i];
      }
    }
  }

  /** Spending a pair without an approval (the draft was approved before) keeps the receipts in order. */
  lemma UsesGrow(s: Store, s': Store, pair: (string, string), id: DraftId)
    requires UsesInv(s) && pair !in s.uses && s' == s.(uses := s.uses[pair := id])
    ensures UsesInv(s')
  {
  }

  lemma SameRows(s: Store, s': Store)
    requires s' == s.(uses := s'.uses)
    ensures LogInv(s) ==> LogInv(s')
    ensures JobInv(s) ==> JobInv(s')
    ensures RowInv(s) ==> RowInv(s')
    ensures Extends(s, s')
  {
  }

  /** The approve route keeps the invariants: an approval under a receipt spends a fresh pair with it. */
  lemma ApproveAndClaimKeeps(s: Store, now: Time, id: DraftId, gate: Gate, request: Approval)
    requires StoreInv(s)
    ensures var r := ApproveAndClaim(s, now, id, gate, request); r.Done? ==> StoreInv(r.store) && Extends(s, r.store)
  {
    hide LogInv, UsesInv, JobInv, RowInv, Extends;
    var r := ApproveAndClaim(s, now, id, gate, request);
    if r.Done? {
      var a := request.(actor := GateActor(gate, request.actor), receiptVerified := gate.Receipt?);
      var consumed :=
        if gate.Receipt? then ConsumeReceiptItem(s, gate.receiptId, ItemDigest(s.drafts[id]), id) else Done(s, ());
      var approved := Approve(consumed.store, now, id, a);
      if gate.NoReceipt? {
        ApproveKeeps(s, now, id, a);
      } else {
        ReceiptApproveKeeps(s, now, id, gate.receiptId, a);
      }
      ClaimKeeps(approved.store, now, id);
      ExtendsTransitive(s, approved.store, r.store);
    }
  }

  lemma ReceiptApproveKeeps(s: Store, now: Time, id: DraftId, receiptId: string, a: Approval)
    requires StoreInv(s) && id in s.drafts
    requires a.actor == RECEIPT_PREFIX + receiptId
    requires (receiptId, ItemDigest(s.drafts[id])) !in s.uses
    ensures var s1 := ConsumeReceiptItem(s, receiptId, ItemDigest(s.drafts[id]), id).store;
            var r := Approve(s1, now, id, a);
            r.Done? ==> StoreInv(r.store) && Extends(s, r.store)
  {
    hide LogInv, UsesInv, JobInv, RowInv, Extends;
    var pair := (receiptId, ItemDigest(s.drafts[id]));
    var s1 := ConsumeReceiptItem(s, receiptId, ItemDigest(s.drafts[id]), id).store;
    SameRows(s, s1);
    var r := Approve(s1, now, id, a);
    if r.Done? {
      if r.store == s1 {
        UsesGrow(s, s1, pair, id);
      } else {
        var e := Event(id, Approved, a.actor, now, "");
        ApprovalWritten(s1, r.store, id, r.value, e);
        assert ReceiptApproval(e) && ReceiptIdOf(e) == receiptId;
        UsesSpend(s, r.store, id, r.value, e);
        ExtendsTransitive(s, s1, r.store);
      }
    }
  }
}
