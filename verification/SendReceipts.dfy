/** What a command receipt can authorise over a whole run: nothing twice. */
module SendReceipts {
  import opened SendStore
  import opened SendQueue
  import opened SendProtocol

  type Item = (string, string)

  /** The receipt item a step of the approve route presents, when its transaction commits. */
  predicate RouteCommits(w: World, step: Step, item: Item)
  {
    && step.ApproveRoute? && step.gate.Receipt? && step.task !in w.tasks && step.id in w.store.drafts
    && item == (step.gate.receiptId, ItemDigest(w.store.drafts[step.id]))
    && ApproveAndClaim(w.store, w.now, step.id, step.gate, step.approval).Done?
  }

  /** No use of a receipt item is ever forgotten or given to another draft. */
  ghost predicate UsesKept(s: Store, s': Store)
  {
    forall item | item in s.uses :: item in s'.uses && s'.uses[item] == s.uses[item]
  }

  lemma ApproveKeepsUses(s: Store, now: Time, id: DraftId, a: Approval)
    ensures var r := Approve(s, now, id, a); r.Done? ==> r.store.uses == s.uses
  {
    hide ApproverAccepted, FrozenAssetsIntact, BodyNeedsClarification;
  }

  lemma CancelKeepsUses(s: Store, now: Time, id: DraftId, actor: string, reason: string)
    ensures var r := Cancel(s, now, id, actor, reason); r.Done? ==> r.store.uses == s.uses
  {
    hide SessionActor, SystemReply;
  }

  lemma RestoreKeepsUses(s: Store, now: Time, id: DraftId, actor: string)
    ensures var r := Restore(s, now, id, actor); r.Done? ==> r.store.uses == s.uses
  {
    hide SessionActor, IsSystemCancelled, PriorReviewStatus;
  }

  lemma CreateKeepsUses(s: Store, now: Time, input: NewDraft, newId: DraftId, sourceKnown: bool, assetsBound: bool)
    ensures var r := Create(s, now, input, newId, sourceKnown, assetsBound); r.Done? ==> r.store.uses == s.uses
  {
    hide BodyNeedsClarification, Blank;
  }

  lemma ClaimKeepsUses(s: Store, now: Time, id: DraftId)
    ensures var r := Claim(s, now, id); r.Done? ==> r.store.uses == s.uses
  {
    hide FrozenAssetsIntact;
  }

  lemma RecordKeepsUses(s: Store, now: Time, id: DraftId, o: Outcome)
    ensures var r := RecordOutcome(s, now, id, o); r.Done? ==> r.store.uses == s.uses
  {
    hide ValidFailureCode;
  }

  /** The route presents its item only while it is unused, and using it is part of what it commits. */
  lemma RouteUses(s: Store, now: Time, id: DraftId, gate: Gate, request: Approval)
    ensures var r := ApproveAndClaim(s, now, id, gate, request);
      r.Done? ==>
        if gate.NoReceipt? then r.store.uses == s.uses
        else
          && id in s.drafts
          && var item := (gate.receiptId, ItemDigest(s.drafts[id]));
             item !in s.uses && r.store.uses == s.uses[item := id]
  {
    hide Approve, Claim;
    var r := ApproveAndClaim(s, now, id, gate, request);
    if r.Done? {
      var a := request.(actor := GateActor(gate, request.actor), receiptVerified := gate.Receipt?);
      var consumed :=
        if gate.Receipt? then ConsumeReceiptItem(s, gate.receiptId, ItemDigest(s.drafts[id]), id) else Done(s, ());
      ApproveKeepsUses(consumed.store, now, id, a);
      ClaimKeepsUses(Approve(consumed.store, now, id, a).store, now, id);
    }
  }

  lemma ClaimDueKeepsUses(lim: Limits, w: World, c: WorkerConfig, limit: int, rows: seq<DraftId>,
                          newTasks: map<nat, DraftId>)
    ensures Apply(lim, w, ClaimDue(c, limit, rows, newTasks)).store.uses == w.store.uses
  {
    hide WorkerTasks, LeaseRows, DueAnswer;
    if CanClaimDue(lim, w, c, limit, rows, newTasks) {
      LeaseRowsAt(w.store, rows, c.workerId, w.now, w.now + c.leaseMs, "");
    }
  }

  lemma RecordStepKeepsUses(lim: Limits, w: World, t: nat)
    ensures Apply(lim, w, Record(t)).store.uses == w.store.uses
  {
    hide RecordOutcome, WorkerOutcome;
    if t in w.tasks && w.tasks[t].phase.Holding? {
      RecordKeepsUses(w.store, w.now, w.tasks[t].draftId, w.tasks[t].phase.outcome);
      RecordKeepsUses(w.store, w.now, w.tasks[t].draftId, WorkerOutcome(w.tasks[t].phase.outcome));
    }
  }

  lemma RouteStepUses(lim: Limits, w: World, step: Step)
    requires step.ApproveRoute?
    ensures UsesKept(w.store, Apply(lim, w, step).store)
    ensures forall item | RouteCommits(w, step, item) :: item !in w.store.uses && item in Apply(lim, w, step).store.uses
  {
    hide ApproveAndClaim, ItemDigest;
    RouteUses(w.store, w.now, step.id, step.gate, step.approval);
  }

  lemma DraftStepKeepsUses(lim: Limits, w: World, step: Step)
    requires step.CreateDraft? || step.ApproveDraft? || step.CancelDraft? || step.RestoreDraft? || step.ClaimDraft?
    ensures Apply(lim, w, step).store.uses == w.store.uses
  {
    hide Create, Approve, Claim, Cancel, Restore;
    match step
    case CreateDraft(input, newId, sourceKnown, assetsBound) =>
      CreateKeepsUses(w.store, w.now, input, newId, sourceKnown, assetsBound);
    case ApproveDraft(id, approval) => ApproveKeepsUses(w.store, w.now, id, approval.(receiptVerified := false));
    case CancelDraft(id, actor, reason) => CancelKeepsUses(w.store, w.now, id, actor, reason);
    case RestoreDraft(id, actor) => RestoreKeepsUses(w.store, w.now, id, actor);
    case ClaimDraft(id, t) => ClaimKeepsUses(w.store, w.now, id);
  }

  /** Only the approve route touches the table of used items. */
  lemma OtherStepKeepsUses(lim: Limits, w: World, step: Step)
    requires !step.ApproveRoute?
    ensures Apply(lim, w, step).store.uses == w.store.uses
  {
    if step.CreateDraft? || step.ApproveDraft? || step.CancelDraft? || step.RestoreDraft? || step.ClaimDraft? {
      hide Apply;
      DraftStepKeepsUses(lim, w, step);
    } else if step.Record? {
      hide Apply;
      RecordStepKeepsUses(lim, w, step.task);
    } else if step.ClaimDue? {
      hide Apply;
      ClaimDueKeepsUses(lim, w, step.config, step.limit, step.rows, step.newTasks);
    } else {
      hide ReleaseJob, RecordStep, CanClaimDue, LeaseRows, WorkerTasks, Possible, AfterRefusal, AfterAnswer;
      if step.Release? { ReleaseKeepsUses(w, step.task); }
    }
  }

  lemma StepKeepsUses(lim: Limits, w: World, step: Step)
    ensures UsesKept(w.store, Apply(lim, w, step).store)
    ensures forall item | RouteCommits(w, step, item) :: item !in w.store.uses && item in Apply(lim, w, step).store.uses
  {
    hide Apply;
    if step.ApproveRoute? { RouteStepUses(lim, w, step); } else { OtherStepKeepsUses(lim, w, step); }
  }

  lemma ReleaseKeepsUses(w: World, t: nat)
    ensures t in w.tasks && w.tasks[t].phase.Releasing? && w.tasks[t].role.Worker? ==>
      var task := w.tasks[t];
      ReleaseJob(w.store, task.draftId, task.role.config, task.role.attemptCount, task.phase.outcome,
                 task.phase.startedAt).uses == w.store.uses
  {
    hide BackoffDelay, WorkerFailureCode;
  }

  lemma {:induction false} RunKeepsUses(lim: Limits, w: World, steps: seq<Step>, i: nat, j: nat)
    requires i <= j <= |steps|
    ensures UsesKept(Run(lim, w, steps[..i]).store, Run(lim, w, steps[..j]).store)
    decreases j
  {
    hide Apply;
    if i < j {
      RunKeepsUses(lim, w, steps, i, j - 1);
      assert steps[..j][..j - 1] == steps[..j - 1];
      StepKeepsUses(lim, Run(lim, w, steps[..j - 1]), steps[j - 1]);
    }
  }

  /**
   In any run at most one approve route commits under a given receipt and item digest, whether it approves the
   draft or finds it approved already: each pair authorises at most one claim.
   */
  lemma PairCommitsOnce(lim: Limits, steps: seq<Step>, item: Item, i: nat, j: nat)
    requires i < j < |steps|
    ensures !(RouteCommits(Run(lim, INIT, steps[..i]), steps[i], item)
              && RouteCommits(Run(lim, INIT, steps[..j]), steps[j], item))
  {
    hide Apply, RouteCommits;
    assert steps[..i + 1][..i] == steps[..i];
    StepKeepsUses(lim, Run(lim, INIT, steps[..i]), steps[i]);
    StepKeepsUses(lim, Run(lim, INIT, steps[..j]), steps[j]);
    RunKeepsUses(lim, INIT, steps, i + 1, j);
  }

  /** A failing approve route leaves the receipt item unspent, and a succeeding one spends it. */
  lemma FailedRouteSpendsNothing(lim: Limits, w: World, id: DraftId, gate: Gate, approval: Approval, t: nat)
    requires id in w.store.drafts && gate.Receipt? && t !in w.tasks
    ensures var item := (gate.receiptId, ItemDigest(w.store.drafts[id]));
            var w' := Apply(lim, w, ApproveRoute(id, gate, approval, t));
            && (ApproveAndClaim(w.store, w.now, id, gate, approval).Rejected? ==> w' == w)
            && (ApproveAndClaim(w.store, w.now, id, gate, approval).Done? ==>
                  item !in w.store.uses && w'.store.uses == w.store.uses[item := id])
  {
    hide ApproveAndClaim, ItemDigest;
    RouteUses(w.store, w.now, id, gate, approval);
  }
}
