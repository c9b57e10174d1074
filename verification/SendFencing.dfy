/** Leases: nobody but the holder disturbs a running lease, and when at most one worker task holds one. */
module SendFencing {
  import opened SendStore
  import opened SendLifecycle
  import opened SendQueue
  import opened SendProtocol
  import opened SendSafety
  import opened SendTheorems

  // ---------- Fencing ----------

  predicate SameLease(a: Job, b: Job)
  {
    && a.state == b.state && a.leaseOwner == b.leaseOwner && a.leaseExpiresAt == b.leaseExpiresAt
    && a.nextAttemptAt == b.nextAttemptAt && a.attemptCount == b.attemptCount
  }

  /** The job of `id` is leased beyond the current time. */
  predicate Held(w: World, id: DraftId)
  {
    && id in w.store.jobs && w.store.jobs[id].state.Leased?
    && w.store.jobs[id].leaseExpiresAt.Some? && w.now < w.store.jobs[id].leaseExpiresAt.value
  }

  /** The step is the release of a task that carries the lease owner's own id. */
  predicate OwnerRelease(w: World, step: Step, id: DraftId)
    requires id in w.store.jobs
  {
    ReleaseBy(w, step, id, w.store.jobs[id].leaseOwner)
  }

  /** The job ended because its draft is sent, with a message in Sent Items to show for it. */
  ghost predicate Completed(w: World, id: DraftId)
  {
    && id in w.store.jobs && w.store.jobs[id].state.Complete?
    && id in w.store.drafts && w.store.drafts[id].status.Sent?
    && w.store.drafts[id].graphMessageId.Some? && HasMessage(w, id, w.store.drafts[id].graphMessageId.value)
  }

  lemma RecordLeased(s: Store, now: Time, x: DraftId, o: Outcome, id: DraftId)
    requires id in s.jobs && s.jobs[id].state.Leased? && s.hasQueue
    ensures var r := RecordOutcome(s, now, x, o);
            r.Done? ==> id in r.store.jobs
                        && (SameLease(s.jobs[id], r.store.jobs[id]) || (x == id && r.store.jobs[id].state.Complete?))
  {
  }

  lemma ClaimLeased(s: Store, now: Time, x: DraftId, id: DraftId)
    requires id in s.jobs && s.jobs[id].state.Leased?
    ensures var r := Claim(s, now, x); r.Done? ==> id in r.store.jobs && SameLease(s.jobs[id], r.store.jobs[id])
  {
  }

  lemma RouteLeased(s: Store, now: Time, x: DraftId, gate: Gate, request: Approval, id: DraftId)
    requires id in s.jobs && s.jobs[id].state.Leased?
    ensures var r := ApproveAndClaim(s, now, x, gate, request);
            r.Done? ==> id in r.store.jobs && SameLease(s.jobs[id], r.store.jobs[id])
  {
    hide Claim, Quiet;
    var r := ApproveAndClaim(s, now, x, gate, request);
    if r.Done? {
      var a := request.(actor := GateActor(gate, request.actor), receiptVerified := gate.Receipt?);
      var consumed :=
        if gate.Receipt? then ConsumeReceiptItem(s, gate.receiptId, ItemDigest(s.drafts[x]), x) else Done(s, ());
      ApproveQuiet(consumed.store, now, x, a);
      ClaimLeased(Approve(consumed.store, now, x, a).store, now, x, id);
    }
  }

  lemma ReviewOpsLeased(lim: Limits, w: World, step: Step)
    requires step.CreateDraft? || step.ApproveDraft? || step.CancelDraft? || step.RestoreDraft?
    ensures Apply(lim, w, step).store.jobs == w.store.jobs
  {
    hide Create, Approve, Cancel, Restore, Quiet;
    var s, now := w.store, w.now;
    match step
    case CreateDraft(input, newId, sourceKnown, assetsBound) =>
      CreateQuiet(s, now, input, newId, sourceKnown, assetsBound);
    case ApproveDraft(x, approval) => ApproveQuiet(s, now, x, approval.(receiptVerified := false));
    case CancelDraft(x, actor, reason) => CancelQuiet(s, now, x, actor, reason);
    case RestoreDraft(x, actor) => RestoreJobs(s, now, x, actor);
  }

  lemma ClaimOpsLeased(lim: Limits, w: World, step: Step, id: DraftId)
    requires id in w.store.jobs && w.store.jobs[id].state.Leased?
    requires step.ClaimDraft? || step.ApproveRoute?
    ensures var w' := Apply(lim, w, step); id in w'.store.jobs && SameLease(w.store.jobs[id], w'.store.jobs[id])
  {
    hide Claim, ApproveAndClaim, SameLease;
    SameLeaseSelf(w.store.jobs[id]);
    match step
    case ClaimDraft(x, t) => ClaimLeased(w.store, w.now, x, id);
    case ApproveRoute(x, gate, approval, t) => RouteLeased(w.store, w.now, x, gate, approval, id);
  }

  lemma RestoreJobs(s: Store, now: Time, id: DraftId, actor: string)
    ensures var r := Restore(s, now, id, actor); r.Done? ==> r.store.jobs == s.jobs
  {
    hide IsSystemCancelled, PriorReviewStatus;
  }

  lemma StoreOpsLeased(lim: Limits, w: World, step: Step, id: DraftId)
    requires id in w.store.jobs && w.store.jobs[id].state.Leased?
    requires !step.ClaimDue? && !step.Release? && !step.Record?
    ensures var w' := Apply(lim, w, step); id in w'.store.jobs && SameLease(w.store.jobs[id], w'.store.jobs[id])
  {
    if step.CreateDraft? || step.ApproveDraft? || step.CancelDraft? || step.RestoreDraft? {
      hide Apply;
      ReviewOpsLeased(lim, w, step);
    } else if step.ClaimDraft? || step.ApproveRoute? {
      hide Apply;
      ClaimOpsLeased(lim, w, step, id);
    } else {
      hide SameLease, AfterRefusal, AfterAnswer, Possible;
      SameLeaseSelf(w.store.jobs[id]);
    }
  }

  /**
   Fencing, one step: while a lease runs, whatever anybody does except the owner's own release leaves its
   state, owner, expiry, next attempt and attempt count as they are, or completes it with a genuine receipt.
   */
  lemma FencedStep(lim: Limits, w: World, step: Step, id: DraftId)
    requires WorldInv(lim, w) && Held(w, id) && !OwnerRelease(w, step, id)
    ensures var w' := Apply(lim, w, step);
            && id in w'.store.jobs
            && (SameLease(w.store.jobs[id], w'.store.jobs[id]) || Completed(w', id))
  {
    hide WorldInv, CanClaimDue, Apply, SameLease, Completed;
    SameLeaseSelf(w.store.jobs[id]);
    match step
    case ClaimDue(c, limit, rows, newTasks) =>
      if CanClaimDue(lim, w, c, limit, rows, newTasks) {
        LeaseOthers(lim, w, c, limit, rows, newTasks, id);
      } else {
        ApplyBlocked(lim, w, c, limit, rows, newTasks);
      }
    case Release(t) => ReleaseFenced(lim, w, t, id);
    case Record(t) => RecordFenced(lim, w, t, id);
    case _ => StoreOpsLeased(lim, w, step, id);
  }

  lemma HasQueue(lim: Limits, w: World)
    requires WorldInv(lim, w)
    ensures w.store.hasQueue
  {
  }

  lemma ReleaseFenced(lim: Limits, w: World, t: nat, id: DraftId)
    requires Held(w, id) && !OwnerRelease(w, Release(t), id)
    ensures var w' := Apply(lim, w, Release(t)); id in w'.store.jobs && w'.store.jobs[id] == w.store.jobs[id]
  {
    hide Released;
  }

  lemma RecordFenced(lim: Limits, w: World, t: nat, id: DraftId)
    requires WorldInv(lim, w) && Held(w, id)
    ensures var w' := Apply(lim, w, Record(t));
            && id in w'.store.jobs
            && (SameLease(w.store.jobs[id], w'.store.jobs[id]) || Completed(w', id))
  {
    hide WorldInv, Extends, Apply;
    HasQueue(lim, w);
    ApplyKeeps(lim, w, Record(t));
    RecordStepLeased(lim, w, t, id);
    var w' := Apply(lim, w, Record(t));
    if w'.store.jobs[id].state.Complete? { CompleteIsGenuine(lim, w', id); }
  }

  lemma RecordStepLeased(lim: Limits, w: World, t: nat, id: DraftId)
    requires id in w.store.jobs && w.store.jobs[id].state.Leased? && w.store.hasQueue
    ensures var w' := Apply(lim, w, Record(t));
            && id in w'.store.jobs
            && (SameLease(w.store.jobs[id], w'.store.jobs[id]) || w'.store.jobs[id].state.Complete?)
  {
    hide RecordOutcome, WorkerOutcome, SameLease;
    SameLeaseSelf(w.store.jobs[id]);
    if t in w.tasks && w.tasks[t].phase.Holding? {
      var o := w.tasks[t].phase.outcome;
      var o' := if w.tasks[t].role.Worker? then WorkerOutcome(o) else o;
      RecordLeased(w.store, w.now, w.tasks[t].draftId, o', id);
      assert Apply(lim, w, Record(t)) == RecordStep(w, t, o);
    }
  }

  lemma SameLeaseSelf(j: Job)
    ensures SameLease(j, j)
  {
  }

  lemma CompleteIsGenuine(lim: Limits, w: World, id: DraftId)
    requires WorldInv(lim, w) && id in w.store.jobs && w.store.jobs[id].state.Complete?
    ensures Completed(w, id)
  {
    hide LogInv, UsesInv, RowInv, DueInv, PostsOk, LaunchesOk, MailboxOk, TasksOk;
  }

  lemma ApplyBlocked(lim: Limits, w: World, c: WorkerConfig, limit: int, rows: seq<DraftId>, newTasks: map<nat, DraftId>)
    requires !CanClaimDue(lim, w, c, limit, rows, newTasks)
    ensures Apply(lim, w, ClaimDue(c, limit, rows, newTasks)) == w
  {
  }

  lemma LeaseOthers(lim: Limits, w: World, c: WorkerConfig, limit: int, rows: seq<DraftId>, newTasks: map<nat, DraftId>,
                    id: DraftId)
    requires CanClaimDue(lim, w, c, limit, rows, newTasks) && Held(w, id)
    ensures var w' := Apply(lim, w, ClaimDue(c, limit, rows, newTasks));
            id in w'.store.jobs && w'.store.jobs[id] == w.store.jobs[id]
  {
    LeaseRowsAt(w.store, rows, c.workerId, w.now, w.now + c.leaseMs, id);
    hide DueAnswer, WorkerTasks, LeaseRows, Lease;
  }

  /** The step releases the draft's job under the owner's id. */
  predicate ReleaseBy(w: World, step: Step, id: DraftId, owner: string)
  {
    && step.Release? && step.task in w.tasks && w.tasks[step.task].role.Worker?
    && w.tasks[step.task].draftId == id && w.tasks[step.task].role.config.workerId == owner
  }

  /** Nobody releases under the owner's id in the run from `w`. */
  ghost predicate NoOwnerRelease(lim: Limits, w: World, steps: seq<Step>, id: DraftId, owner: string)
  {
    steps != [] ==>
      var n := |steps| - 1;
      NoOwnerRelease(lim, w, steps[..n], id, owner) && !ReleaseBy(Run(lim, w, steps[..n]), steps[n], id, owner)
  }

  /**
   Fencing, whole runs: from the moment a lease is held until it runs out, the only way anybody but its owner
   ends it is to complete the job with a genuine receipt.
   */
  lemma {:induction false} FencedRun(lim: Limits, w: World, steps: seq<Step>, id: DraftId)
    requires WorldInv(lim, w) && Held(w, id)
    requires Run(lim, w, steps).now < w.store.jobs[id].leaseExpiresAt.value
    requires NoOwnerRelease(lim, w, steps, id, w.store.jobs[id].leaseOwner)
    ensures var w' := Run(lim, w, steps);
            && id in w'.store.jobs
            && (SameLease(w.store.jobs[id], w'.store.jobs[id]) || Completed(w', id))
  {
    hide WorldInv, Apply, HasMessage;
    if steps != [] {
      var n := |steps| - 1;
      var before := Run(lim, w, steps[..n]);
      ClockForward(lim, before, steps[n]);
      RunKeeps(lim, w, steps[..n]);
      FencedRun(lim, w, steps[..n], id);
      hide NoOwnerRelease, Run;
      LastStep(lim, w, steps);
      if SameLease(w.store.jobs[id], before.store.jobs[id]) {
        FencedStep(lim, before, steps[n], id);
      } else {
        ApplyKeeps(lim, before, steps[n]);
        CompletedStays(lim, before, steps[n], id);
      }
    }
  }

  lemma LastStep(lim: Limits, w: World, steps: seq<Step>)
    requires steps != []
    ensures Run(lim, w, steps) == Apply(lim, Run(lim, w, steps[..|steps| - 1]), steps[|steps| - 1])
  {
  }

  lemma ClockForward(lim: Limits, w: World, step: Step)
    ensures w.now <= Apply(lim, w, step).now
  {
    hide Claim, ApproveAndClaim, Create, Approve, Cancel, Restore, RecordOutcome, LeaseRows, ReleaseJob, CanClaimDue;
  }

  /** Complete is absorbing. */
  lemma CompletedStays(lim: Limits, w: World, step: Step, id: DraftId)
    requires WorldInv(lim, w) && Completed(w, id)
    ensures Completed(Apply(lim, w, step), id)
  {
    ApplyKeeps(lim, w, step);
    var w' := Apply(lim, w, step);
    hide Apply;
    SentHasCompleteJob(lim, w, w', id);
    CompleteIsGenuine(lim, w', id);
  }

  lemma SentHasCompleteJob(lim: Limits, w: World, w': World, id: DraftId)
    requires WorldInv(lim, w') && Extends(w.store, w'.store)
    requires id in w.store.drafts && w.store.drafts[id].status.Sent?
    ensures id in w'.store.jobs && w'.store.jobs[id].state.Complete?
  {
    hide LogInv, UsesInv, RowInv, DueInv, PostsOk, LaunchesOk, MailboxOk, TasksOk, RecordedOk;
  }
}
