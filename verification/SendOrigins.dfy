/**
 Where rows and approvals come from: every draft is its input word for word, complete if it was ever approved; every
 approval in the log was warranted when it was given; and a request creates at most one draft.
 */
module SendOrigins {
  import opened SendStore
  import opened SendLifecycle
  import opened SendProtocol
  import opened SendReceipts
  import opened SendTheorems
  import opened SendAuthority

  // ---------- Drafts ----------

  lemma BornByCreate(w: World, step: Step, id: DraftId, to: Status)
    requires Moves(w, step, id, to) && id !in w.store.drafts
    ensures step.CreateDraft? && step.newId == id
    ensures CreatesRow(w.store, step.input, id, step.sourceKnown, step.assetsBound) && to == FirstStatus(step.input)
  {
    hide CreatesRow, FirstStatus, Warrant, Approver, AssetsReady, SystemCancelled;
  }

  lemma {:induction false} EventsGrow(events: seq<Event>, more: seq<Event>, id: DraftId)
    requires events <= more
    ensures EventsOf(events, id) <= EventsOf(more, id)
    decreases |more|
  {
    if |events| < |more| {
      EventsGrow(events, more[..|more| - 1], id);
    } else {
      assert events == more;
    }
  }

  /** The row and its first event are the input of the step that created them. */
  ghost predicate IsInput(s: Store, id: DraftId, input: NewDraft)
  {
    && id in s.drafts && EventsOf(s.events, id) != [] && EventsOf(s.events, id)[0].status == FirstStatus(input)
    && var d := s.drafts[id];
       && d.source == input.source && d.requestId == input.requestId && d.digest == input.digest
       && d.payload.to == input.to && d.payload.cc == input.cc && d.payload.subject == input.subject
       && d.payload.bodyText == input.userBody + input.appendix
       && d.payload.messageId == input.messageId && d.payload.attachments == input.attachments
  }

  lemma InputStays(s: Store, s': Store, id: DraftId, input: NewDraft)
    requires IsInput(s, id, input) && Extends(s, s')
    ensures IsInput(s', id, input)
  {
    EventsGrow(s.events, s'.events, id);
    hide FirstStatus, EventsOf;
  }

  lemma NewIsInput(s: Store, now: Time, input: NewDraft, id: DraftId, sourceKnown: bool, assetsBound: bool)
    requires LogInv(s) && CreatesRow(s, input, id, sourceKnown, assetsBound)
    ensures var r := Create(s, now, input, id, sourceKnown, assetsBound); r.Done? && IsInput(r.store, id, input)
  {
    CreateRow(s, now, input, id, sourceKnown, assetsBound);
    EventsOfAppend(s.events, Event(id, FirstStatus(input), input.source, now, ""), id);
    assert EventsOf(s.events, id) == [];
    hide Create, FirstStatus, EventsOf, LogInv;
  }

  /**
   In every run each draft is word for word the input of one step, which created it for a request that had no draft;
   it begins under review as one that a person may approve exactly when that input is complete.
   */
  lemma {:induction false} CreatedAs(lim: Limits, steps: seq<Step>, id: DraftId) returns (i: nat)
    requires id in Run(lim, INIT, steps).store.drafts
    ensures i < |steps| && steps[i].CreateDraft? && steps[i].newId == id
    ensures var step := steps[i];
            CreatesRow(Run(lim, INIT, steps[..i]).store, step.input, id, step.sourceKnown, step.assetsBound)
    ensures IsInput(Run(lim, INIT, steps).store, id, steps[i].input)
  {
    hide Apply, WorldInv, LogInv, Extends, IsInput, Moves, CreatesRow;
    var n := |steps| - 1;
    var before := Run(lim, INIT, steps[..n]);
    ReachableLog(lim, steps[..n]);
    ApplyKeeps(lim, before, steps[n]);
    if id in before.store.drafts {
      i := CreatedAs(lim, steps[..n], id);
      assert steps[..n][..i] == steps[..i];
      InputStays(before.store, Run(lim, INIT, steps).store, id, steps[i].input);
    } else {
      var to := Run(lim, INIT, steps).store.drafts[id].status;
      MovesIff(lim, before, steps[n], id, to);
      BornByCreate(before, steps[n], id, to);
      i := n;
      NewIsInput(before.store, before.now, steps[n].input, id, steps[n].sourceKnown, steps[n].assetsBound);
      CreateApplied(lim, before, steps[n]);
    }
  }

  lemma CreateApplied(lim: Limits, w: World, step: Step)
    requires step.CreateDraft?
    ensures var r := Create(w.store, w.now, step.input, step.newId, step.sourceKnown, step.assetsBound);
            r.Done? ==> Apply(lim, w, step).store == r.store
  {
    hide Create;
  }

  /**
   In every run a draft that is approved, sending, sent or failed has recipients, a subject and a body that is not
   blank and holds no open slot: what the sending side asks of it is never missing.
   */
  lemma ApprovedIsComplete(lim: Limits, steps: seq<Step>, id: DraftId)
    requires id in Run(lim, INIT, steps).store.drafts
    ensures var d := Run(lim, INIT, steps).store.drafts[id];
            d.status.Approved? || d.status.Launched() ==> Presentable(d.payload.to, d.payload.subject, d.payload.bodyText)
  {
    var s := Run(lim, INIT, steps).store;
    var i := CreatedAs(lim, steps, id);
    LogIsLifecycle(lim, steps, id);
    ReachableRow(lim, steps, id);
    SlotIff(s.drafts[id].payload.bodyText);
    hide Run, Presentable, IsPath, BodyNeedsClarification, HoldsSlot, CreatesRow;
    if s.drafts[id].status.Approved? || s.drafts[id].status.Launched() {
      MoreText(s.drafts[id].payload.to, s.drafts[id].payload.subject, steps[i].input.userBody, steps[i].input.appendix);
    }
  }

  lemma ReachableRow(lim: Limits, steps: seq<Step>, id: DraftId)
    requires id in Run(lim, INIT, steps).store.drafts
    ensures var d := Run(lim, INIT, steps).store.drafts[id];
            d.status.Approved? || d.status.Launched() ==> !BodyNeedsClarification(d.payload.bodyText)
  {
    ReachableLog(lim, steps);
    RowOf(Run(lim, INIT, steps).store, id);
    hide Run, LogInv, JobInv, UsesInv, RowInv, DueInv, PostsOk, LaunchesOk, MailboxOk, TasksOk, RecordedOk,
         BodyNeedsClarification;
  }

  lemma MoreText(to: seq<string>, subject: string, body: string, appendix: string)
    requires Presentable(to, subject, body) && !HoldsSlot(body + appendix)
    ensures Presentable(to, subject, body + appendix)
  {
    hide HoldsSlot, WHITE;
    var c :| c in body && c !in WHITE;
    assert c in body + appendix;
  }

  // ---------- Requests ----------

  /** The unique index on requests and the draft table agree. */
  ghost predicate RequestsAgree(s: Store)
  {
    && (forall key | key in s.requests ::
          s.requests[key] in s.drafts && (s.drafts[s.requests[key]].source, s.drafts[s.requests[key]].requestId) == key)
    && (forall id | id in s.drafts ::
          var key := (s.drafts[id].source, s.drafts[id].requestId); key in s.requests && s.requests[key] == id)
  }

  lemma AgreeStays(s: Store, s': Store)
    requires RequestsAgree(s) && s'.requests == s.requests && s'.drafts.Keys == s.drafts.Keys
    requires forall id | id in s.drafts :: SameContent(s.drafts[id], s'.drafts[id])
    ensures RequestsAgree(s')
  {
  }

  lemma AgreeGrows(s: Store, s': Store, input: NewDraft, id: DraftId, status: Status)
    requires RequestsAgree(s) && id !in s.drafts && (input.source, input.requestId) !in s.requests
    requires s'.drafts == s.drafts[id := NewRow(input, status)]
    requires s'.requests == s.requests[(input.source, input.requestId) := id]
    ensures RequestsAgree(s')
  {
  }

  /** A step of none of these kinds leaves all but jobs and assets as they are. */
  lemma JobsAside(lim: Limits, w: World, step: Step)
    requires !step.CreateDraft? && !step.ApproveDraft? && !step.CancelDraft? && !step.RestoreDraft?
    requires !step.ClaimDraft? && !step.ApproveRoute? && !step.Record? && !step.ClaimDue?
    ensures var s, s' := w.store, Apply(lim, w, step).store;
            s'.requests == s.requests && s'.drafts == s.drafts && s'.events == s.events && s'.uses == s.uses
  {
    hide Released, Possible, AfterRefusal, AfterAnswer;
  }

  lemma RequestsElse(lim: Limits, w: World, step: Step)
    requires !step.CreateDraft?
    ensures Apply(lim, w, step).store.requests == w.store.requests
    ensures Apply(lim, w, step).store.drafts.Keys == w.store.drafts.Keys
  {
    if step.ClaimDraft? || step.ApproveRoute? {
      RequestsOfClaims(w.store, w.now, step.id);
      if step.ApproveRoute? { RequestsOfRoute(w.store, w.now, step.id, step.gate, step.approval); }
      hide Claim, ApproveAndClaim;
    } else if step.Record? {
      RequestsOfRecord(lim, w, step.task);
      hide Apply;
    } else if step.ClaimDue? {
      RequestsOfLease(lim, w, step);
      hide Apply;
    } else if step.ApproveDraft? {
      RequestsOfApprove(w.store, w.now, step.id, step.approval.(receiptVerified := false));
      hide Approve;
    } else if step.CancelDraft? || step.RestoreDraft? {
      hide IsSystemCancelled, PriorReviewStatus, SystemReply, SessionActor;
    } else {
      JobsAside(lim, w, step);
      hide Apply;
    }
  }

  lemma RequestsOfApprove(s: Store, now: Time, id: DraftId, a: Approval)
    ensures var r := Approve(s, now, id, a);
            r.Done? ==> r.store.requests == s.requests && r.store.drafts.Keys == s.drafts.Keys
  {
    hide FrozenAssetsIntact, BodyNeedsClarification, ApproverAccepted;
  }

  lemma RequestsOfClaims(s: Store, now: Time, id: DraftId)
    ensures var r := Claim(s, now, id);
            r.Done? ==> r.store.requests == s.requests && r.store.drafts.Keys == s.drafts.Keys
  {
    hide FrozenAssetsIntact, Requeued;
  }

  lemma RequestsOfRoute(s: Store, now: Time, id: DraftId, gate: Gate, request: Approval)
    ensures var r := ApproveAndClaim(s, now, id, gate, request);
            r.Done? ==> r.store.requests == s.requests && r.store.drafts.Keys == s.drafts.Keys
  {
    RouteUnfolds(s, now, id, gate, request);
    if id in s.drafts {
      var approved := Approve(Consumed(s, id, gate), now, id, RouteApproval(gate, request));
      RequestsOfApprove(Consumed(s, id, gate), now, id, RouteApproval(gate, request));
      if approved.Done? { RequestsOfClaims(approved.store, now, id); }
    }
    hide Approve, Claim, ApproveAndClaim, RouteApproval, GatePasses;
  }

  lemma RequestsOfOutcome(s: Store, now: Time, id: DraftId, o: Outcome)
    ensures var r := RecordOutcome(s, now, id, o);
            r.Done? ==> r.store.requests == s.requests && r.store.drafts.Keys == s.drafts.Keys
  {
    RecordShape(s, now, id, o);
    RecordOnlySending(s, now, id, o);
    hide RecordOutcome, Requeued;
  }

  lemma RecordOnlySending(s: Store, now: Time, id: DraftId, o: Outcome)
    ensures var r := RecordOutcome(s, now, id, o); r.Done? && !s.drafts[id].status.Sending? ==> r.store == s
  {
    hide ValidFailureCode, Log, Enqueue, CompleteJob;
  }

  lemma RequestsOfRecord(lim: Limits, w: World, t: nat)
    ensures Apply(lim, w, Record(t)).store.requests == w.store.requests
    ensures Apply(lim, w, Record(t)).store.drafts.Keys == w.store.drafts.Keys
  {
    if t in w.tasks && w.tasks[t].phase.Holding? {
      RequestsOfOutcome(w.store, w.now, w.tasks[t].draftId, w.tasks[t].phase.outcome);
      RequestsOfOutcome(w.store, w.now, w.tasks[t].draftId, WorkerOutcome(w.tasks[t].phase.outcome));
    }
    hide RecordOutcome, WorkerOutcome;
  }

  lemma RequestsOfLease(lim: Limits, w: World, step: Step)
    requires step.ClaimDue?
    ensures Apply(lim, w, step).store.requests == w.store.requests
    ensures Apply(lim, w, step).store.drafts.Keys == w.store.drafts.Keys
  {
    LeaseLeavesRows(w.store, step.rows, step.config.workerId, w.now, w.now + step.config.leaseMs);
    hide CanClaimDue, WorkerTasks, LeaseRows;
  }

  lemma {:induction false} LeaseLeavesRows(s: Store, rows: seq<DraftId>, workerId: string, now: Time, until: Time)
    ensures var s' := LeaseRows(s, rows, workerId, now, until); s'.requests == s.requests && s'.drafts == s.drafts
  {
    if rows != [] { LeaseLeavesRows(s, rows[..|rows| - 1], workerId, now, until); }
  }

  /** In every run a request has at most one draft, which the index finds. */
  lemma {:induction false} OneDraftEach(lim: Limits, steps: seq<Step>)
    ensures RequestsAgree(Run(lim, INIT, steps).store)
  {
    hide Apply, WorldInv, LogInv, RequestsAgree, CreatesRow, FirstStatus;
    if steps == [] {
      NoRequests();
    } else {
      var n := |steps| - 1;
      var before, step := Run(lim, INIT, steps[..n]), steps[n];
      OneDraftEach(lim, steps[..n]);
      ReachableLog(lim, steps[..n]);
      ApplyKeeps(lim, before, step);
      if step.CreateDraft? {
        CreateRow(before.store, before.now, step.input, step.newId, step.sourceKnown, step.assetsBound);
        CreateEffect(lim, before, step);
        if CreatesRow(before.store, step.input, step.newId, step.sourceKnown, step.assetsBound) {
          RowIsFree(before.store, step.input, step.newId, step.sourceKnown, step.assetsBound);
          AgreeGrows(before.store, Apply(lim, before, step).store, step.input, step.newId, FirstStatus(step.input));
        }
      } else {
        RequestsElse(lim, before, step);
        AgreeStays(before.store, Apply(lim, before, step).store);
      }
    }
  }

  lemma NoRequests()
    ensures RequestsAgree(INIT.store)
  {
  }

  lemma RowIsFree(s: Store, input: NewDraft, id: DraftId, sourceKnown: bool, assetsBound: bool)
    requires CreatesRow(s, input, id, sourceKnown, assetsBound)
    ensures id !in s.drafts && (input.source, input.requestId) !in s.requests
  {
  }

  lemma CreateEffect(lim: Limits, w: World, step: Step)
    requires step.CreateDraft?
    ensures var r := Create(w.store, w.now, step.input, step.newId, step.sourceKnown, step.assetsBound);
            Apply(lim, w, step).store == if r.Done? then r.store else w.store
  {
    hide Create;
  }

  /**
   In every run, asking for a request that has a draft creates nothing: with the draft's digest it is answered with
   that draft, with any other it is refused.
   */
  lemma RepeatedRequest(lim: Limits, steps: seq<Step>, id: DraftId, input: NewDraft, newId: DraftId, sourceKnown: bool)
    requires id in Run(lim, INIT, steps).store.drafts
    requires var d := Run(lim, INIT, steps).store.drafts[id]; d.source == input.source && d.requestId == input.requestId
    requires input.messageId.None? || sourceKnown
    ensures var w := Run(lim, INIT, steps);
            Create(w.store, w.now, input, newId, sourceKnown, true)
            == if input.digest == w.store.drafts[id].digest then Done(w.store, Created(id, true))
               else Rejected(IdempotencyConflict)
  {
    OneDraftEach(lim, steps);
    hide Run, BodyNeedsClarification, Blank;
  }

  // ---------- Approvals ----------

  /** The step gives the approval that this event records, on a draft that waits for one. */
  ghost predicate Approves(w: World, step: Step, e: Event)
  {
    && e.draftId in w.store.drafts && w.store.drafts[e.draftId].status.NeedsApproval?
    && match step
       case ApproveDraft(x, a) =>
         x == e.draftId && e.actor == a.actor && Person(a.actor) && Warrant(w.store, w.store.drafts[x], a)
       case ApproveRoute(x, gate, a, t) =>
         && x == e.draftId && Warrant(w.store, w.store.drafts[e.draftId], a)
         && Approver(w.store, w.store.drafts[e.draftId], gate, a)
         && e.actor == if gate.Receipt? then "jarvis-receipt:" + gate.receiptId else a.actor
       case _ => false
  }

  /** No event from the j-th on is an approval. */
  predicate NoApprovals(events: seq<Event>, j: nat) { forall k | j <= k < |events| :: !events[k].status.Approved? }

  /** The approval, if it was one, is the next event. */
  lemma ApproveLogs(s: Store, now: Time, x: DraftId, a: Approval)
    ensures var r := Approve(s, now, x, a);
            r.Done? ==>
              && x in s.drafts
              && r.store.events == s.events
                 + if s.drafts[x].status.NeedsApproval? then [Event(x, Approved, a.actor, now, "")] else []
  {
    hide FrozenAssetsIntact, BodyNeedsClarification, ApproverAccepted;
  }

  lemma ClaimLogs(s: Store, now: Time, x: DraftId)
    ensures var r := Claim(s, now, x); r.Done? ==> s.events <= r.store.events && NoApprovals(r.store.events, |s.events|)
  {
    hide FrozenAssetsIntact, Requeued;
  }

  lemma RecordLogs(s: Store, now: Time, x: DraftId, o: Outcome)
    ensures var r := RecordOutcome(s, now, x, o); r.Done? ==> NoApprovals(r.store.events, |s.events|)
  {
    hide ValidFailureCode, Requeued;
  }

  lemma RestoreLogs(s: Store, now: Time, x: DraftId, actor: string)
    requires LogInv(s)
    ensures var r := Restore(s, now, x, actor); r.Done? ==> NoApprovals(r.store.events, |s.events|)
  {
    if x in s.drafts {
      PriorReviewIsCreation(s, x);
      FirstEvent(s, x);
    }
    hide LogInv, EventsOf, IsSystemCancelled, PriorReviewStatus, SessionActor;
  }

  lemma QuietLogs(lim: Limits, w: World, step: Step)
    requires LogInv(w.store) && !step.ApproveDraft? && !step.ApproveRoute?
    ensures NoApprovals(Apply(lim, w, step).store.events, |w.store.events|)
  {
    if step.CreateDraft? {
      CreateRow(w.store, w.now, step.input, step.newId, step.sourceKnown, step.assetsBound);
      CreateEffect(lim, w, step);
      hide Apply, Create, CreatesRow, Presentable;
    } else if step.RestoreDraft? {
      RestoreLogs(w.store, w.now, step.id, step.actor);
      hide Restore, LogInv;
    } else if step.ClaimDraft? {
      ClaimLogs(w.store, w.now, step.id);
      hide Claim, LogInv;
    } else if step.Record? {
      QuietRecord(lim, w, step.task);
      hide Apply;
    } else if step.ClaimDue? {
      QuietLease(lim, w, step);
      hide Apply;
    } else if step.CancelDraft? {
      hide LogInv, SystemReply, SessionActor;
    } else {
      JobsAside(lim, w, step);
      hide Apply, LogInv;
    }
  }

  lemma QuietRecord(lim: Limits, w: World, t: nat)
    ensures NoApprovals(Apply(lim, w, Record(t)).store.events, |w.store.events|)
  {
    if t in w.tasks && w.tasks[t].phase.Holding? {
      RecordLogs(w.store, w.now, w.tasks[t].draftId, w.tasks[t].phase.outcome);
      RecordLogs(w.store, w.now, w.tasks[t].draftId, WorkerOutcome(w.tasks[t].phase.outcome));
    }
    hide RecordOutcome, WorkerOutcome;
  }

  lemma QuietLease(lim: Limits, w: World, step: Step)
    requires step.ClaimDue?
    ensures Apply(lim, w, step).store.events == w.store.events
  {
    LeaseLeavesLog(w.store, step.rows, step.config.workerId, w.now, w.now + step.config.leaseMs);
    hide CanClaimDue, WorkerTasks, LeaseRows;
  }

  lemma {:induction false} LeaseLeavesLog(s: Store, rows: seq<DraftId>, workerId: string, now: Time, until: Time)
    ensures LeaseRows(s, rows, workerId, now, until).events == s.events
  {
    if rows != [] { LeaseLeavesLog(s, rows[..|rows| - 1], workerId, now, until); }
  }

  lemma PersonApproves(lim: Limits, w: World, x: DraftId, a: Approval, j: nat)
    requires var w' := Apply(lim, w, ApproveDraft(x, a)); |w.store.events| <= j < |w'.store.events|
    ensures Approves(w, ApproveDraft(x, a), Apply(lim, w, ApproveDraft(x, a)).store.events[j])
  {
    ApproveLogs(w.store, w.now, x, a.(receiptVerified := false));
    ApproveDone(w.store, w.now, x, a.(receiptVerified := false));
    if x in w.store.drafts { VerifiedAside(w.store, w.store.drafts[x], a); }
    hide Approve, Warrant, Person;
  }

  lemma RouteApprovesOne(lim: Limits, w: World, step: Step, j: nat)
    requires step.ApproveRoute?
    requires var w' := Apply(lim, w, step); |w.store.events| <= j < |w'.store.events| && w'.store.events[j].status.Approved?
    ensures Approves(w, step, Apply(lim, w, step).store.events[j])
  {
    var s, x, gate, a := w.store, step.id, step.gate, step.approval;
    RouteDone(s, w.now, x, gate, a);
    RouteLogs(s, w.now, x, gate, a);
    if x in s.drafts { StandsIff(s, x, gate, a); }
    hide ApproveAndClaim, Warrant, Approver, RouteStands, GateActor;
    RouteActorIs(gate, a);
  }

  lemma RouteActorIs(gate: Gate, a: Approval)
    ensures GateActor(gate, a.actor) == if gate.Receipt? then "jarvis-receipt:" + gate.receiptId else a.actor
  {
  }

  /** The approval, if the route gives one, is the only one it logs. */
  lemma RouteLogs(s: Store, now: Time, x: DraftId, gate: Gate, a: Approval)
    ensures var r := ApproveAndClaim(s, now, x, gate, a);
            r.Done? ==>
              && x in s.drafts && s.events <= r.store.events
              && forall j | |s.events| <= j < |r.store.events| && r.store.events[j].status.Approved? ::
                   && s.drafts[x].status.NeedsApproval?
                   && r.store.events[j] == Event(x, Approved, GateActor(gate, a.actor), now, "")
  {
    RouteUnfolds(s, now, x, gate, a);
    hide Approve, Claim, ApproveAndClaim, GateActor;
    if x in s.drafts && GatePasses(s, s.drafts[x], gate) {
      var s1 := Consumed(s, x, gate);
      ApproveLogs(s1, now, x, RouteApproval(gate, a));
      var approved := Approve(s1, now, x, RouteApproval(gate, a));
      if approved.Done? { ClaimLogs(approved.store, now, x); }
    }
  }

  lemma StandsPasses(s: Store, x: DraftId, gate: Gate, a: Approval)
    ensures RouteStands(s, x, gate, a) ==> x in s.drafts && GatePasses(s, s.drafts[x], gate)
  {
  }

  /** In every run each approval in the log was given by a step that had what an approval takes. */
  lemma {:induction false} ApprovalsWarranted(lim: Limits, steps: seq<Step>, j: nat) returns (i: nat)
    requires j < |Run(lim, INIT, steps).store.events| && Run(lim, INIT, steps).store.events[j].status.Approved?
    ensures i < |steps| && Approves(Run(lim, INIT, steps[..i]), steps[i], Run(lim, INIT, steps).store.events[j])
  {
    hide Apply, WorldInv, LogInv, Approves;
    var n := |steps| - 1;
    var before := Run(lim, INIT, steps[..n]);
    ReachableLog(lim, steps[..n]);
    ApplyKeeps(lim, before, steps[n]);
    if j < |before.store.events| {
      i := ApprovalsWarranted(lim, steps[..n], j);
      assert steps[..n][..i] == steps[..i];
    } else {
      i := n;
      if steps[n].ApproveDraft? {
        PersonApproves(lim, before, steps[n].id, steps[n].approval, j);
      } else if steps[n].ApproveRoute? {
        RouteApprovesOne(lim, before, steps[n], j);
      } else {
        QuietLogs(lim, before, steps[n]);
      }
    }
  }

  /**
   In every run each approval under a receipt comes from an approve route that presented that receipt, valid and
   unused for this draft; and so does every send task that such a route starts.
   */
  lemma ReceiptApprovalsValid(lim: Limits, steps: seq<Step>, j: nat) returns (i: nat)
    requires j < |Run(lim, INIT, steps).store.events| && ReceiptApproval(Run(lim, INIT, steps).store.events[j])
    ensures var e := Run(lim, INIT, steps).store.events[j];
            && i < |steps| && steps[i].ApproveRoute? && steps[i].id == e.draftId
            && steps[i].gate == Receipt(ReceiptIdOf(e), true)
            && Approves(Run(lim, INIT, steps[..i]), steps[i], e)
  {
    var e := Run(lim, INIT, steps).store.events[j];
    i := ApprovalsWarranted(lim, steps, j);
    ReceiptGate(Run(lim, INIT, steps[..i]), steps[i], e);
    hide Run, Approves;
  }

  lemma ReceiptGate(w: World, step: Step, e: Event)
    requires Approves(w, step, e) && ReceiptApproval(e)
    ensures step.ApproveRoute? && step.id == e.draftId && step.gate == Receipt(ReceiptIdOf(e), true)
  {
    NotBoth(e.actor);
    hide Warrant, Person;
    if step.ApproveRoute? && step.gate.Receipt? {
      assert e.actor == "jarvis-receipt:" + step.gate.receiptId;
      assert e.actor[|"jarvis-receipt:"|..] == step.gate.receiptId;
    }
  }

  /** A route that commits, and any task it starts, was shown a valid receipt or a person. */
  lemma RouteNeedsValid(lim: Limits, w: World, step: Step, item: Item, t: nat)
    requires step.ApproveRoute? && LogInv(w.store)
    ensures RouteCommits(w, step, item) ==> step.gate.valid
    ensures t !in w.tasks && t in Apply(lim, w, step).tasks ==>
      step.id in w.store.drafts && Approver(w.store, w.store.drafts[step.id], step.gate, step.approval)
  {
    RouteDone(w.store, w.now, step.id, step.gate, step.approval);
    RouteMoves(w.store, w.now, step.id, step.gate, step.approval, step.id, Sending);
    StandsPasses(w.store, step.id, step.gate, step.approval);
    hide ApproveAndClaim, RouteStands, LogInv, Warrant, Approver, Moved;
  }
}
