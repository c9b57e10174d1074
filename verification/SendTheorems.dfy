/** What holds in every run of the send protocol, however its steps interleave. */
module SendTheorems {
  import opened Wrappers
  import opened SendStore
  import opened SendLifecycle
  import opened SendQueue
  import opened SendProtocol
  import opened SendSafety

  // ---------- Every step keeps the invariant ----------

  lemma StoreStepKeeps<T>(lim: Limits, w: World, e: Effect<T>)
    requires WorldInv(lim, w)
    requires e.Done? ==> StoreInv(e.store) && Extends(w.store, e.store) && Quiet(w.store, e.store)
    requires e.Done? ==> DueInv(e.store, w.now, lim.maxBackoff, lim.maxLease)
    ensures WorldInv(lim, Commit(w, e)) && Extends(w.store, Commit(w, e).store)
  {
    hide StoreInv, DueInv, PostsOk, LaunchesOk, MailboxOk, RecordedOk, TasksOk, Quiet;
    if e.Done? { HasQueueStays(w.store, e.store); StoreStep(lim, w, e.store); } else { ExtendsSame(w.store); }
  }

  lemma HasQueueStays(s: Store, s': Store)
    requires Extends(s, s')
    ensures s.hasQueue == s'.hasQueue
  {
  }

  lemma DueSame(s: Store, s': Store, now: Time, maxBackoff: int, maxLease: int)
    requires DueInv(s, now, maxBackoff, maxLease) && s'.jobs == s.jobs
    ensures DueInv(s', now, maxBackoff, maxLease)
  {
  }

  lemma DueLater(s: Store, now: Time, later: Time, maxBackoff: int, maxLease: int)
    requires DueInv(s, now, maxBackoff, maxLease) && now <= later
    ensures DueInv(s, later, maxBackoff, maxLease)
  {
  }

  lemma TickKeeps(lim: Limits, w: World, ms: nat)
    requires WorldInv(lim, w)
    ensures WorldInv(lim, w.(now := w.now + ms))
  {
    hide StoreInv, DueInv;
    var w' := w.(now := w.now + ms);
    DueLater(w.store, w.now, w'.now, lim.maxBackoff, lim.maxLease);
    ExtendsSame(w.store);
    TasksStay(lim, w, w');
    RecordedStays(w, w');
    assert forall t :: Launch(w', t) == Launch(w, t);
  }

  lemma AssetsKeep(lim: Limits, w: World, assets: map<string, Asset>)
    requires WorldInv(lim, w)
    ensures var s' := w.store.(assets := assets); WorldInv(lim, w.(store := s')) && Extends(w.store, s')
  {
    var s' := w.store.(assets := assets);
    AssetsRows(w.store, s');
    AssetsJobs(w.store, s', w.now, lim.maxBackoff, lim.maxLease);
    hide StoreInv, DueInv, PostsOk, LaunchesOk, MailboxOk, RecordedOk, TasksOk, Quiet, Extends;
    StoreStep(lim, w, s');
  }

  lemma AssetsRows(s: Store, s': Store)
    requires s' == s.(assets := s'.assets)
    ensures LogInv(s) ==> LogInv(s')
    ensures UsesInv(s) ==> UsesInv(s')
    ensures Extends(s, s') && Quiet(s, s')
  {
  }

  lemma AssetsJobs(s: Store, s': Store, now: Time, maxBackoff: int, maxLease: int)
    requires s' == s.(assets := s'.assets)
    ensures JobInv(s) ==> JobInv(s')
    ensures RowInv(s) ==> RowInv(s')
    ensures DueInv(s, now, maxBackoff, maxLease) ==> DueInv(s', now, maxBackoff, maxLease)
  {
  }

  lemma ReviewStepsKeep(lim: Limits, w: World, step: Step)
    requires WorldInv(lim, w)
    requires step.CreateDraft? || step.ApproveDraft? || step.CancelDraft? || step.RestoreDraft?
    ensures WorldInv(lim, Apply(lim, w, step)) && Extends(w.store, Apply(lim, w, step).store)
  {
    hide LogInv, JobInv, UsesInv, RowInv, DueInv, PostsOk, LaunchesOk, MailboxOk, RecordedOk, TasksOk, Quiet, Extends;
    var s, now := w.store, w.now;
    match step
    case CreateDraft(input, newId, sourceKnown, assetsBound) =>
      var e := Create(s, now, input, newId, sourceKnown, assetsBound);
      CreateKeeps(s, now, input, newId, sourceKnown, assetsBound);
      CreateQuiet(s, now, input, newId, sourceKnown, assetsBound);
      if e.Done? { DueSame(s, e.store, now, lim.maxBackoff, lim.maxLease); }
      StoreStepKeeps(lim, w, e);
    case ApproveDraft(id, approval) =>
      var a := approval.(receiptVerified := false);
      var e := Approve(s, now, id, a);
      ApproveKeeps(s, now, id, a);
      ApproveQuiet(s, now, id, a);
      if e.Done? { DueSame(s, e.store, now, lim.maxBackoff, lim.maxLease); }
      StoreStepKeeps(lim, w, e);
    case CancelDraft(id, actor, reason) =>
      var e := Cancel(s, now, id, actor, reason);
      CancelKeeps(s, now, id, actor, reason);
      CancelQuiet(s, now, id, actor, reason);
      if e.Done? { DueSame(s, e.store, now, lim.maxBackoff, lim.maxLease); }
      StoreStepKeeps(lim, w, e);
    case RestoreDraft(id, actor) =>
      var e := Restore(s, now, id, actor);
      RestoreKeeps(s, now, id, actor);
      RestoreQuiet(s, now, id, actor);
      if e.Done? { DueSame(s, e.store, now, lim.maxBackoff, lim.maxLease); }
      StoreStepKeeps(lim, w, e);
  }

  lemma ClaimDueInv(s: Store, now: Time, id: DraftId, maxBackoff: int, maxLease: int)
    requires DueInv(s, now, maxBackoff, maxLease) && 0 <= maxBackoff
    ensures var r := Claim(s, now, id); r.Done? ==> DueInv(r.store, now, maxBackoff, maxLease)
  {
    if id in s.jobs { RequeuedWaits(s.jobs[id], "", now, maxBackoff, maxLease); }
    hide FrozenAssetsIntact, Requeued;
  }

  lemma RouteDueInv(s: Store, now: Time, id: DraftId, gate: Gate, request: Approval, maxBackoff: int, maxLease: int)
    requires DueInv(s, now, maxBackoff, maxLease) && 0 <= maxBackoff
    ensures var r := ApproveAndClaim(s, now, id, gate, request); r.Done? ==> DueInv(r.store, now, maxBackoff, maxLease)
  {
    hide DueInv, Claim;
    var r := ApproveAndClaim(s, now, id, gate, request);
    if r.Done? {
      var a := request.(actor := GateActor(gate, request.actor), receiptVerified := gate.Receipt?);
      var consumed :=
        if gate.Receipt? then ConsumeReceiptItem(s, gate.receiptId, ItemDigest(s.drafts[id]), id) else Done(s, ());
      var approved := Approve(consumed.store, now, id, a);
      ApproveQuiet(consumed.store, now, id, a);
      DueSame(s, approved.store, now, maxBackoff, maxLease);
      ClaimDueInv(approved.store, now, id, maxBackoff, maxLease);
    }
  }

  lemma ClaimStepKeeps(lim: Limits, w: World, e: Effect<bool>, id: DraftId, t: nat)
    requires WorldInv(lim, w)
    requires e.Done? ==> StoreInv(e.store) && Extends(w.store, e.store) && Quiet(w.store, e.store)
    requires e.Done? ==> DueInv(e.store, w.now, lim.maxBackoff, lim.maxLease)
    requires e.Done? && e.value ==> LaunchedIn(e.store, id) && !LaunchedIn(w.store, id)
    ensures WorldInv(lim, CommitClaim(w, e, id, t)) && Extends(w.store, CommitClaim(w, e, id, t).store)
  {
    hide StoreInv, DueInv, PostsOk, LaunchesOk, MailboxOk, RecordedOk, TasksOk, Quiet;
    ExtendsSame(w.store);
    if e.Done? && t !in w.tasks {
      HasQueueStays(w.store, e.store);
      StoreStep(lim, w, e.store);
      if e.value {
        LaunchStep(lim, w, e.store, id, t);
      }
    }
  }

  lemma ClaimStepsKeep(lim: Limits, w: World, step: Step)
    requires WorldInv(lim, w) && (step.ClaimDraft? || step.ApproveRoute?)
    ensures WorldInv(lim, Apply(lim, w, step)) && Extends(w.store, Apply(lim, w, step).store)
  {
    hide LogInv, JobInv, UsesInv, RowInv, DueInv, PostsOk, LaunchesOk, MailboxOk, RecordedOk, TasksOk, Quiet, Extends;
    hide Claim, ApproveAndClaim;
    var s, now := w.store, w.now;
    match step
    case ClaimDraft(id, t) =>
      ClaimKeeps(s, now, id);
      ClaimQuiet(s, now, id);
      ClaimDueInv(s, now, id, lim.maxBackoff, lim.maxLease);
      ClaimStepKeeps(lim, w, Claim(s, now, id), id, t);
    case ApproveRoute(id, gate, approval, t) =>
      ApproveAndClaimKeeps(s, now, id, gate, approval);
      ApproveRouteQuiet(s, now, id, gate, approval);
      RouteDueInv(s, now, id, gate, approval, lim.maxBackoff, lim.maxLease);
      ClaimStepKeeps(lim, w, ApproveAndClaim(s, now, id, gate, approval), id, t);
  }

  lemma MessageAt(w: World, i: nat)
    requires i < |w.mailbox|
    ensures HasMessage(w, w.mailbox[i].header, w.mailbox[i].id)
  {
  }

  lemma TaskAt(lim: Limits, w: World, t: nat)
    requires TasksOk(lim, w) && t in w.tasks
    ensures TaskOk(lim, w, w.tasks[t])
  {
  }

  lemma SendStepsKeep(lim: Limits, w: World, step: Step)
    requires WorldInv(lim, w)
    requires step.FailLaunch? || step.IssuePost? || step.Deliver? || step.PostAnswered?
    ensures WorldInv(lim, Apply(lim, w, step)) && Extends(w.store, Apply(lim, w, step).store)
  {
    hide WorldInv, Extends, AfterRefusal, AfterAnswer, Possible;
    ExtendsSame(w.store);
    match step
    case FailLaunch(t) =>
      if t in w.tasks && w.tasks[t].phase.Launching? { UncertainKeeps(lim, w, t, UNKNOWN_ACCEPTANCE); }
    case IssuePost(t) => if Launch(w, t) { PostStep(lim, w, t); }
    case Deliver(k, messageId, sentAt) =>
      if k < |w.posts| && w.posts[k].state.Open? { DeliverStep(lim, w, k, messageId, sentAt); }
    case PostAnswered(t, status) =>
      if t in w.tasks && w.tasks[t].phase.Posted? && w.tasks[t].phase.post < |w.posts|
         && Possible(w.posts[w.tasks[t].phase.post], status) {
        AnswerKeeps(lim, w, t, status);
      }
  }

  /**
   What the sender makes of the answer to its POST: it looks for the message exactly after a 202, gives the draft up
   exactly for a 4xx status other than 408, and is uncertain otherwise, a lost answer included.
   */
  lemma AnswerMeans(status: Option<int>)
    ensures var p := AfterAnswer(status);
            && (p == Scanning <==> status == Some(202))
            && (p == Holding(Outcome("", Absent, "GRAPH_SEND_REJECTED", false)) <==>
                  status.Some? && 400 <= status.value <= 499 && status.value != 408)
            && (p == Holding(Outcome("", Absent, "GRAPH_ACCEPTANCE_UNKNOWN", true)) <==>
                  status.None? || (status.value != 202 && !(400 <= status.value <= 407) && !(409 <= status.value <= 499)))
  {
  }

  lemma AnswerKeeps(lim: Limits, w: World, t: nat, status: Option<int>)
    requires WorldInv(lim, w) && t in w.tasks && w.tasks[t].phase.Posted? && w.tasks[t].phase.post < |w.posts|
    requires Possible(w.posts[w.tasks[t].phase.post], status)
    ensures var w1 := w.(posts := AfterRefusal(w.posts, w.tasks[t].phase.post, status));
            WorldInv(lim, SetPhase(w1, t, AfterAnswer(status)))
  {
    hide StoreInv, DueInv, PostsOk, LaunchesOk, MailboxOk, RecordedOk, TasksOk, Extends;
    var k := w.tasks[t].phase.post;
    var w1 := w.(posts := AfterRefusal(w.posts, k, status));
    TaskAt(lim, w, t);
    if RefusingStatus(status) {
      RefuseStep(lim, w, k);
      assert w1.posts[k] == Post(w.tasks[t].draftId, Refused);
    }
    PhaseStep(lim, w1, t, AfterAnswer(status));
  }

  lemma FoundKeeps(lim: Limits, w: World, t: nat, i: nat)
    requires WorldInv(lim, w) && t in w.tasks && w.tasks[t].phase.Scanning? && i < |w.mailbox|
    requires w.mailbox[i].header == w.tasks[t].draftId && w.mailbox[i].id != ""
    ensures WorldInv(lim, SetPhase(w, t, Holding(Outcome(w.mailbox[i].id, At(w.mailbox[i].sentAt), "", false))))
  {
    TaskAt(lim, w, t);
    FoundGenuine(lim, w, w.tasks[t], i);
    hide WorldInv, TaskOk;
    PhaseStep(lim, w, t, Holding(Outcome(w.mailbox[i].id, At(w.mailbox[i].sentAt), "", false)));
  }

  lemma FoundGenuine(lim: Limits, w: World, task: Task, i: nat)
    requires TaskOk(lim, w, task) && i < |w.mailbox|
    requires w.mailbox[i].header == task.draftId && w.mailbox[i].id != ""
    ensures TaskOk(lim, w, task.(phase := Holding(Outcome(w.mailbox[i].id, At(w.mailbox[i].sentAt), "", false))))
  {
    MessageAt(w, i);
    hide HasMessage;
  }

  /** A task that found nothing holds an uncertain outcome, which is always genuine. */
  lemma UncertainKeeps(lim: Limits, w: World, t: nat, failureCode: string)
    requires WorldInv(lim, w) && t in w.tasks
    ensures WorldInv(lim, SetPhase(w, t, Holding(Uncertain(failureCode))))
  {
    TaskAt(lim, w, t);
    hide WorldInv;
    PhaseStep(lim, w, t, Holding(Uncertain(failureCode)));
  }

  lemma ReaderKeeps(lim: Limits, w: World, t: nat, id: DraftId)
    requires WorldInv(lim, w) && t !in w.tasks
    ensures WorldInv(lim, w.(tasks := w.tasks[t := Task(Reader, id, Scanning)]))
  {
    hide WorldInv;
    var added := map[t := Task(Reader, id, Scanning)];
    ScannersStep(lim, w, added);
    assert w.tasks + added == w.tasks[t := Task(Reader, id, Scanning)];
  }

  lemma ScanStepsKeep(lim: Limits, w: World, step: Step)
    requires WorldInv(lim, w) && (step.OpenReader? || step.ScanFound? || step.ScanFailed?)
    ensures WorldInv(lim, Apply(lim, w, step)) && Extends(w.store, Apply(lim, w, step).store)
  {
    hide WorldInv, Extends;
    ExtendsSame(w.store);
    match step
    case OpenReader(id, t) => if t !in w.tasks { ReaderKeeps(lim, w, t, id); }
    case ScanFound(t, i) =>
      if t in w.tasks && w.tasks[t].phase.Scanning? && i < |w.mailbox|
         && w.mailbox[i].header == w.tasks[t].draftId && w.mailbox[i].id != "" {
        FoundKeeps(lim, w, t, i);
      }
    case ScanFailed(t, failureCode) =>
      if t in w.tasks && w.tasks[t].phase.Scanning? { UncertainKeeps(lim, w, t, failureCode); }
  }

  lemma WorkerStepsKeep(lim: Limits, w: World, step: Step)
    requires WorldInv(lim, w) && (step.Record? || step.ClaimDue? || step.Release? || step.Abandon?)
    ensures WorldInv(lim, Apply(lim, w, step)) && Extends(w.store, Apply(lim, w, step).store)
  {
    hide WorldInv, Extends, RecordStep, ReleaseJob, LeaseRows, CanClaimDue, WorkerTasks;
    ExtendsSame(w.store);
    match step
    case Record(t) => if t in w.tasks && w.tasks[t].phase.Holding? { RecordTaskStep(lim, w, t); }
    case ClaimDue(c, limit, rows, newTasks) =>
      if CanClaimDue(lim, w, c, limit, rows, newTasks) { LeaseStep(lim, w, c, limit, rows, newTasks); }
    case Release(t) =>
      if t in w.tasks && w.tasks[t].phase.Releasing? && w.tasks[t].role.Worker? { ReleaseStep(lim, w, t); }
    case Abandon(t) => DropStep(lim, w, t);
  }

  /** One step of any kind keeps the invariant and only extends the store. */
  lemma ApplyKeeps(lim: Limits, w: World, step: Step)
    requires WorldInv(lim, w)
    ensures WorldInv(lim, Apply(lim, w, step)) && Extends(w.store, Apply(lim, w, step).store)
  {
    hide WorldInv, Extends;
    match step
    case Tick(ms) => TickKeeps(lim, w, ms); ExtendsSame(w.store);
    case ChangeAssets(assets) => AssetsKeep(lim, w, assets);
    case CreateDraft(_, _, _, _) => ReviewStepsKeep(lim, w, step);
    case ApproveDraft(_, _) => ReviewStepsKeep(lim, w, step);
    case CancelDraft(_, _, _) => ReviewStepsKeep(lim, w, step);
    case RestoreDraft(_, _) => ReviewStepsKeep(lim, w, step);
    case ClaimDraft(_, _) => ClaimStepsKeep(lim, w, step);
    case ApproveRoute(_, _, _, _) => ClaimStepsKeep(lim, w, step);
    case FailLaunch(_) => SendStepsKeep(lim, w, step);
    case IssuePost(_) => SendStepsKeep(lim, w, step);
    case Deliver(_, _, _) => SendStepsKeep(lim, w, step);
    case PostAnswered(_, _) => SendStepsKeep(lim, w, step);
    case OpenReader(_, _) => ScanStepsKeep(lim, w, step);
    case ScanFound(_, _) => ScanStepsKeep(lim, w, step);
    case ScanFailed(_, _) => ScanStepsKeep(lim, w, step);
    case _ => WorkerStepsKeep(lim, w, step);
  }

  lemma {:induction false} RunKeeps(lim: Limits, w: World, steps: seq<Step>)
    requires WorldInv(lim, w)
    ensures WorldInv(lim, Run(lim, w, steps)) && Extends(w.store, Run(lim, w, steps).store)
  {
    hide WorldInv, Extends;
    if steps == [] {
      ExtendsSame(w.store);
    } else {
      var before := Run(lim, w, steps[..|steps| - 1]);
      RunKeeps(lim, w, steps[..|steps| - 1]);
      ApplyKeeps(lim, before, steps[|steps| - 1]);
      ExtendsTransitive(w.store, before.store, Run(lim, w, steps).store);
    }
  }

  lemma InitInv(lim: Limits)
    ensures WorldInv(lim, INIT)
  {
  }

  lemma {:induction false} RunSplit(lim: Limits, w: World, a: seq<Step>, b: seq<Step>)
    ensures Run(lim, w, a + b) == Run(lim, Run(lim, w, a), b)
    decreases |b|
  {
    if b == [] {
      assert a + b == a;
    } else {
      var n := |b| - 1;
      assert (a + b)[..|a + b| - 1] == a + b[..n];
      RunSplit(lim, w, a, b[..n]);
    }
  }

  // ---------- Delivery ----------

  function PostsOf(posts: seq<Post>, id: DraftId): nat
  {
    if posts == [] then 0
    else PostsOf(posts[..|posts| - 1], id) + if posts[|posts| - 1].draftId == id then 1 else 0
  }

  function MessagesOf(mailbox: seq<Message>, id: DraftId): (ms: seq<Message>)
  {
    if mailbox == [] then []
    else
      var n := |mailbox| - 1;
      MessagesOf(mailbox[..n], id) + if mailbox[n].header == id then [mailbox[n]] else []
  }

  lemma {:induction false} PostsCounted(posts: seq<Post>, id: DraftId)
    requires forall i, j | 0 <= i < j < |posts| :: posts[i].draftId != posts[j].draftId
    ensures PostsOf(posts, id) <= 1
    ensures PostsOf(posts, id) == 1 <==> exists k :: 0 <= k < |posts| && posts[k].draftId == id
  {
    if posts != [] {
      var n := |posts| - 1;
      PostsCounted(posts[..n], id);
      if k :| 0 <= k < n && posts[k].draftId == id { assert posts[..n][k].draftId == id; }
    }
  }

  lemma {:induction false} MessagesCounted(mailbox: seq<Message>, id: DraftId)
    requires forall i, j | 0 <= i < j < |mailbox| :: mailbox[i].header != mailbox[j].header
    ensures |MessagesOf(mailbox, id)| <= 1
    ensures forall i | 0 <= i < |mailbox| && mailbox[i].header == id :: MessagesOf(mailbox, id) == [mailbox[i]]
    ensures MessagesOf(mailbox, id) != [] ==> exists i :: 0 <= i < |mailbox| && mailbox[i].header == id
  {
    if mailbox != [] {
      var n := |mailbox| - 1;
      MessagesCounted(mailbox[..n], id);
      if mailbox[n].header == id {
        assert forall i | 0 <= i < n :: mailbox[..n][i] == mailbox[i];
        assert MessagesOf(mailbox[..n], id) == [];
      } else {
        forall i | 0 <= i < |mailbox| && mailbox[i].header == id
          ensures MessagesOf(mailbox, id) == [mailbox[i]]
        {
          assert mailbox[..n][i] == mailbox[i];
        }
      }
    }
  }

  /** The status a draft shows tells the truth about Sent Items. */
  ghost predicate Truthful(w: World, id: DraftId)
    requires id in w.store.drafts
  {
    var d := w.store.drafts[id];
    var mail := MessagesOf(w.mailbox, id);
    && PostsOf(w.posts, id) <= 1
    && |mail| <= PostsOf(w.posts, id)
    && (d.status.Sent? ==> |mail| == 1 && d.graphMessageId == Some(mail[0].id))
    && (d.status.Failed? ==> mail == [])
    && (!d.status.Launched() ==> PostsOf(w.posts, id) == 0)
  }

  lemma InvTruthful(lim: Limits, w: World, id: DraftId)
    requires WorldInv(lim, w) && id in w.store.drafts
    ensures Truthful(w, id)
  {
    hide StoreInv, DueInv, TasksOk, LaunchesOk;
    PostsCounted(w.posts, id);
    MessagesCounted(w.mailbox, id);
    if Post(id, Refused) in w.posts {
      RefusedLeavesNothing(w, id);
    } else if MessagesOf(w.mailbox, id) != [] {
      var i :| 0 <= i < |w.mailbox| && w.mailbox[i].header == id;
      var k :| 0 <= k < |w.posts| && w.posts[k] == Post(id, Delivered);
    }
  }

  lemma RefusedLeavesNothing(w: World, id: DraftId)
    requires PostsOk(w) && MailboxOk(w) && Post(id, Refused) in w.posts
    ensures forall i | 0 <= i < |w.mailbox| :: w.mailbox[i].header != id
  {
    var j :| 0 <= j < |w.posts| && w.posts[j] == Post(id, Refused);
    forall i | 0 <= i < |w.mailbox| ensures w.mailbox[i].header != id {
      var k :| 0 <= k < |w.posts| && w.posts[k] == Post(w.mailbox[i].header, Delivered);
      assert k != j;
    }
  }

  /**
   Delivery safety.  In every run, whatever interleaves: a draft is posted at most once, a sent draft names
   the one message that carries its id, a failed draft left no message, a draft in flight left at most one.
   */
  lemma DeliverySafety(lim: Limits, steps: seq<Step>, id: DraftId)
    requires id in Run(lim, INIT, steps).store.drafts
    ensures Truthful(Run(lim, INIT, steps), id)
  {
    hide WorldInv, Run, Extends;
    InitInv(lim);
    RunKeeps(lim, INIT, steps);
    InvTruthful(lim, Run(lim, INIT, steps), id);
  }

  /** Payloads never change, and a draft that is sent or failed keeps its row, receipt included, for good. */
  lemma SettledForever(lim: Limits, steps: seq<Step>, more: seq<Step>, id: DraftId)
    requires id in Run(lim, INIT, steps).store.drafts
    ensures var d := Run(lim, INIT, steps).store.drafts[id];
            && id in Run(lim, INIT, steps + more).store.drafts
            && var d' := Run(lim, INIT, steps + more).store.drafts[id];
               SameContent(d, d') && (d.status.Sent? || d.status.Failed? ==> d' == d)
  {
    hide WorldInv, Run;
    InitInv(lim);
    RunKeeps(lim, INIT, steps);
    RunKeeps(lim, Run(lim, INIT, steps), more);
    RunSplit(lim, INIT, steps, more);
  }

  // ---------- Logs, receipts and waiting, over whole runs ----------

  lemma LogOf(s: Store, id: DraftId)
    requires LogInv(s) && id in s.drafts
    ensures var es := EventsOf(s.events, id);
            && IsPath(es) && es[|es| - 1].status == s.drafts[id].status
            && (forall i | 0 <= i < |es| && es[i].status.InReview() :: es[i].status == es[0].status)
            && (forall i, j | 0 <= i < j < |es| :: !(ClaimEvent(es[i]) && ClaimEvent(es[j])))
            && (es[0].status.NeedsClarification? ==> !s.drafts[id].status.Approved? && !s.drafts[id].status.Launched())
  {
    var es := EventsOf(s.events, id);
    assert IsPath(es);
    hide IsPath;
    forall i | 0 <= i < |es| && es[i].status.InReview() ensures es[i].status == es[0].status {
      ReviewStatusIsCreation(es, i);
    }
    forall i, j | 0 <= i < j < |es| ensures !(ClaimEvent(es[i]) && ClaimEvent(es[j])) {
      if ClaimEvent(es[i]) { LaunchedStays(es, i, j); }
    }
    if es[0].status.NeedsClarification? { ClarificationNeverLaunched(es, |es| - 1); }
  }

  /**
   In every run the log of a draft is a path of the automaton that ends in the draft's status; it returns to
   no review status but the one it was created with, holds at most one claim, and a draft created for
   clarification is never approved or sent.
   */
  lemma LogIsLifecycle(lim: Limits, steps: seq<Step>, id: DraftId)
    requires id in Run(lim, INIT, steps).store.drafts
    ensures var s := Run(lim, INIT, steps).store;
            var es := EventsOf(s.events, id);
            && IsPath(es) && es[|es| - 1].status == s.drafts[id].status
            && (forall i | 0 <= i < |es| && es[i].status.InReview() :: es[i].status == es[0].status)
            && (forall i, j | 0 <= i < j < |es| :: !(ClaimEvent(es[i]) && ClaimEvent(es[j])))
            && (es[0].status.NeedsClarification? ==> !s.drafts[id].status.Approved? && !s.drafts[id].status.Launched())
  {
    hide Run, Extends, IsPath, LogInv;
    InitInv(lim);
    RunKeeps(lim, INIT, steps);
    LogOf(Run(lim, INIT, steps).store, id);
  }

  /** In every run one receipt item approves at most once, and every approval under a receipt has spent its item. */
  lemma ReceiptsSpentOnce(lim: Limits, steps: seq<Step>)
    ensures var s := Run(lim, INIT, steps).store;
            && (forall i | 0 <= i < |s.events| && ReceiptApproval(s.events[i]) ::
                  var e := s.events[i];
                  && e.draftId in s.drafts
                  && var item := (ReceiptIdOf(e), ItemDigest(s.drafts[e.draftId]));
                     item in s.uses && s.uses[item] == e.draftId)
            && (forall i, j | 0 <= i < j < |s.events| && ReceiptApproval(s.events[i]) && ReceiptApproval(s.events[j]) ::
                  && s.events[i].draftId in s.drafts && s.events[j].draftId in s.drafts
                  && (|| ReceiptIdOf(s.events[i]) != ReceiptIdOf(s.events[j])
                      || ItemDigest(s.drafts[s.events[i].draftId]) != ItemDigest(s.drafts[s.events[j].draftId])))
  {
    hide Run, Extends;
    InitInv(lim);
    RunKeeps(lim, INIT, steps);
    hide LogInv, JobInv, RowInv, DueInv, PostsOk, LaunchesOk, MailboxOk, RecordedOk, TasksOk;
    var s := Run(lim, INIT, steps).store;
    assert UsesInv(s);
    forall i, j | 0 <= i < j < |s.events| && ReceiptApproval(s.events[i]) && ReceiptApproval(s.events[j]) ensures
      && s.events[i].draftId in s.drafts && s.events[j].draftId in s.drafts
      && (|| ReceiptIdOf(s.events[i]) != ReceiptIdOf(s.events[j])
          || ItemDigest(s.drafts[s.events[i].draftId]) != ItemDigest(s.drafts[s.events[j].draftId]))
    {
      ReceiptItemApprovesOnce(s, i, j);
    }
  }

  /**
   No reconciliation is lost: in every run a draft in flight has a live job that falls due within the longest
   backoff or lease, a job is complete exactly when its draft is sent, and owner and expiry are set exactly
   while it is leased.
   */
  lemma NothingLost(lim: Limits, steps: seq<Step>, id: DraftId)
    ensures var w := Run(lim, INIT, steps);
            var s := w.store;
            && (id in s.drafts && s.drafts[id].status.Sending? ==>
                  && id in s.jobs && !s.jobs[id].state.Complete?
                  && Due(s, id, w.now + if lim.maxBackoff < lim.maxLease then lim.maxLease else lim.maxBackoff))
            && (id in s.drafts ==> (s.drafts[id].status.Sent? <==> id in s.jobs && s.jobs[id].state.Complete?))
            && (id in s.jobs ==>
                  && id in s.drafts
                  && (s.jobs[id].leaseOwner != "" <==> s.jobs[id].state.Leased?)
                  && (s.jobs[id].leaseExpiresAt.Some? <==> s.jobs[id].state.Leased?))
  {
    hide Run, Extends, LogInv, UsesInv, RowInv, PostsOk, LaunchesOk, MailboxOk, RecordedOk, TasksOk, DueInv, JobInv, Due;
    InitInv(lim);
    RunKeeps(lim, INIT, steps);
    var w := Run(lim, INIT, steps);
    JobRow(w.store, id);
    if id in w.store.drafts && w.store.drafts[id].status.Sending? {
      WaitBounded(w.store, w.now, lim.maxBackoff, lim.maxLease, id);
    }
  }

  lemma JobRow(s: Store, id: DraftId)
    requires JobInv(s) && s.hasQueue
    ensures id in s.drafts && s.drafts[id].status.Sending? ==> id in s.jobs && !s.jobs[id].state.Complete?
    ensures id in s.drafts ==> (s.drafts[id].status.Sent? <==> id in s.jobs && s.jobs[id].state.Complete?)
    ensures id in s.jobs ==>
      && id in s.drafts
      && (s.jobs[id].leaseOwner != "" <==> s.jobs[id].state.Leased?)
      && (s.jobs[id].leaseExpiresAt.Some? <==> s.jobs[id].state.Leased?)
  {
  }
}
