/**
 The send protocol as a step system.  One database transaction is one step; everything between two
 awaits of an API call or of a worker iteration is a task that any other task may overtake, and any
 task may be abandoned at any point.  Sent Items is an append-only environment.
 */
module SendProtocol {
  import opened Wrappers
  import opened SendStore
  import opened SendLifecycle

  /** A sendMail POST, and what Graph has done with it so far. */
  datatype PostState = Open | Delivered | Refused
  datatype Post = Post(draftId: DraftId, state: PostState)

  /** A Sent Items message; `header` is the draft id in its correlation header. */
  datatype Message = Message(id: string, header: DraftId, sentAt: Time)

  datatype Role = Sender | Reader | Worker(config: WorkerConfig, attemptCount: nat, leaseUntil: Time)

  datatype Phase =
    | Launching                                       // the claim succeeded, nothing was posted yet
    | Posted(post: nat)                               // waiting for the answer to sendMail
    | Scanning                                        // reading Sent Items
    | Holding(outcome: Outcome)                       // the outcome is known but not recorded
    | Releasing(outcome: Outcome, startedAt: Time)    // recorded, the worker's own job update is left

  datatype Task = Task(role: Role, draftId: DraftId, phase: Phase)

  datatype World = World(store: Store, now: Time, posts: seq<Post>, mailbox: seq<Message>, tasks: map<nat, Task>)

  /** Upper bounds of the backoff and lease configured for any worker. */
  datatype Limits = Limits(maxBackoff: nat, maxLease: nat)

  datatype Step =
    | Tick(ms: nat)
    | CreateDraft(input: NewDraft, newId: DraftId, sourceKnown: bool, assetsBound: bool)
    | ChangeAssets(assets: map<string, Asset>)
    | ApproveDraft(id: DraftId, approval: Approval)
    | ClaimDraft(id: DraftId, task: nat)
    | ApproveRoute(id: DraftId, gate: Gate, approval: Approval, task: nat)
    | CancelDraft(id: DraftId, actor: string, reason: string)
    | RestoreDraft(id: DraftId, actor: string)
    | FailLaunch(task: nat)
    | IssuePost(task: nat)
    | Deliver(post: nat, messageId: string, sentAt: Time)
    | PostAnswered(task: nat, status: Option<int>)
    | OpenReader(id: DraftId, task: nat)
    | ScanFound(task: nat, index: nat)
    | ScanFailed(task: nat, failureCode: string)
    | Record(task: nat)
    | ClaimDue(config: WorkerConfig, limit: int, rows: seq<DraftId>, newTasks: map<nat, DraftId>)
    | Release(task: nat)
    | Abandon(task: nat)

  const INIT := World(EMPTY_STORE, 0, [], [], map[])

  const UNKNOWN_ACCEPTANCE := "GRAPH_ACCEPTANCE_UNKNOWN"
  const SEND_REJECTED := "GRAPH_SEND_REJECTED"

  /** The statuses with which Graph says for certain that it did not take a message. */
  predicate RefusingStatus(status: Option<int>)
  {
    status.Some? && 400 <= status.value < 500 && status.value != 408
  }

  /** Graph never says so of a message it delivers. */
  predicate Possible(post: Post, status: Option<int>) { RefusingStatus(status) ==> post.state.Open? }

  function AfterRefusal(posts: seq<Post>, k: nat, status: Option<int>): seq<Post>
    requires k < |posts|
  {
    if RefusingStatus(status) then posts[k := posts[k].(state := Refused)] else posts
  }

  /** What `sendOnce` makes of the answer to its POST; no status means that the request failed. */
  function AfterAnswer(status: Option<int>): Phase
  {
    if status.None? then Holding(Uncertain(UNKNOWN_ACCEPTANCE))
    else if status.value != 202 then
      var uncertain := status.value < 400 || status.value >= 500 || status.value == 408;
      Holding(Outcome("", Absent, if uncertain then UNKNOWN_ACCEPTANCE else SEND_REJECTED, uncertain))
    else Scanning
  }

  predicate InPhase(w: World, t: nat, p: Phase -> bool) { t in w.tasks && p(w.tasks[t].phase) }

  function SetPhase(w: World, t: nat, p: Phase): World
    requires t in w.tasks
  {
    w.(tasks := w.tasks[t := w.tasks[t].(phase := p)])
  }

  function Commit<T>(w: World, e: Effect<T>): World
  {
    if e.Done? then w.(store := e.store) else w
  }

  /** A transaction that answers whether it claimed the draft; a claim starts the send task. */
  function CommitClaim(w: World, e: Effect<bool>, id: DraftId, t: nat): World
  {
    if t in w.tasks || e.Rejected? then w
    else
      var w' := w.(store := e.store);
      if e.value then w'.(tasks := w'.tasks[t := Task(Sender, id, Launching)]) else w'
  }

  function RecordStep(w: World, t: nat, o: Outcome): World
    requires t in w.tasks
  {
    var task := w.tasks[t];
    if task.role.Worker? then
      var r := RecordOutcome(w.store, w.now, task.draftId, WorkerOutcome(o));
      if r.Done? then SetPhase(w.(store := r.store), t, Releasing(o, w.now)) else w.(tasks := w.tasks - {t})
    else
      var r := RecordOutcome(w.store, w.now, task.draftId, o);
      Commit(w, r).(tasks := w.tasks - {t})
  }

  ghost predicate CanClaimDue(lim: Limits, w: World, c: WorkerConfig, limit: int, rows: seq<DraftId>,
                              newTasks: map<nat, DraftId>)
  {
    && c.Clamped() && c.workerId != "" && c.maxBackoffMs <= lim.maxBackoff && c.leaseMs <= lim.maxLease
    && DueAnswer(w.store, w.now, limit, rows)
    && newTasks.Keys !! w.tasks.Keys
    && (forall t | t in newTasks :: newTasks[t] in rows)
    && (forall t, u | t in newTasks && u in newTasks && t != u :: newTasks[t] != newTasks[u])
  }

  function WorkerTasks(w: World, c: WorkerConfig, newTasks: map<nat, DraftId>): map<nat, Task>
  {
    map t | t in newTasks && newTasks[t] in w.store.jobs ::
      Task(Worker(c, w.store.jobs[newTasks[t]].attemptCount, w.now + c.leaseMs), newTasks[t], Scanning)
  }

  /** One step; a step that is not possible leaves the world as it is. */
  ghost function Apply(lim: Limits, w: World, step: Step): World
  {
    match step
    case Tick(ms) => w.(now := w.now + ms)
    case CreateDraft(input, newId, sourceKnown, assetsBound) =>
      Commit(w, Create(w.store, w.now, input, newId, sourceKnown, assetsBound))
    case ChangeAssets(assets) => w.(store := w.store.(assets := assets))
    case ApproveDraft(id, approval) => Commit(w, Approve(w.store, w.now, id, approval.(receiptVerified := false)))
    case ClaimDraft(id, t) => CommitClaim(w, Claim(w.store, w.now, id), id, t)
    case ApproveRoute(id, gate, approval, t) =>
      CommitClaim(w, ApproveAndClaim(w.store, w.now, id, gate, approval), id, t)
    case CancelDraft(id, actor, reason) => Commit(w, Cancel(w.store, w.now, id, actor, reason))
    case RestoreDraft(id, actor) => Commit(w, Restore(w.store, w.now, id, actor))
    case FailLaunch(t) =>
      if InPhase(w, t, (p: Phase) => p.Launching?) then SetPhase(w, t, Holding(Uncertain(UNKNOWN_ACCEPTANCE))) else w
    case IssuePost(t) =>
      if InPhase(w, t, (p: Phase) => p.Launching?)
      then SetPhase(w.(posts := w.posts + [Post(w.tasks[t].draftId, Open)]), t, Posted(|w.posts|))
      else w
    case Deliver(k, messageId, sentAt) =>
      if k < |w.posts| && w.posts[k].state.Open?
      then w.(posts := w.posts[k := w.posts[k].(state := Delivered)],
              mailbox := w.mailbox + [Message(messageId, w.posts[k].draftId, sentAt)])
      else w
    case PostAnswered(t, status) =>
      if InPhase(w, t, (p: Phase) => p.Posted? && p.post < |w.posts| && Possible(w.posts[p.post], status))
      then SetPhase(w.(posts := AfterRefusal(w.posts, w.tasks[t].phase.post, status)), t, AfterAnswer(status))
      else w
    case OpenReader(id, t) => if t in w.tasks then w else w.(tasks := w.tasks[t := Task(Reader, id, Scanning)])
    case ScanFound(t, i) =>
      if InPhase(w, t, (p: Phase) => p.Scanning?) && i < |w.mailbox|
         && w.mailbox[i].header == w.tasks[t].draftId && w.mailbox[i].id != ""
      then SetPhase(w, t, Holding(Outcome(w.mailbox[i].id, At(w.mailbox[i].sentAt), "", false)))
      else w
    case ScanFailed(t, failureCode) =>
      if InPhase(w, t, (p: Phase) => p.Scanning?) then SetPhase(w, t, Holding(Uncertain(failureCode))) else w
    case Record(t) =>
      if InPhase(w, t, (p: Phase) => p.Holding?) then RecordStep(w, t, w.tasks[t].phase.outcome) else w
    case ClaimDue(c, limit, rows, newTasks) =>
      if CanClaimDue(lim, w, c, limit, rows, newTasks)
      then w.(store := LeaseRows(w.store, rows, c.workerId, w.now, w.now + c.leaseMs),
              tasks := w.tasks + WorkerTasks(w, c, newTasks))
      else w
    case Release(t) =>
      if InPhase(w, t, (p: Phase) => p.Releasing?) && w.tasks[t].role.Worker?
      then var task := w.tasks[t];
           w.(store := ReleaseJob(w.store, task.draftId, task.role.config, task.role.attemptCount,
                                  task.phase.outcome, task.phase.startedAt),
              tasks := w.tasks - {t})
      else w
    case Abandon(t) => w.(tasks := w.tasks - {t})
  }

  /** The world after a run, oldest step first. */
  ghost function Run(lim: Limits, w: World, steps: seq<Step>): World
  {
    if steps == [] then w else Apply(lim, Run(lim, w, steps[..|steps| - 1]), steps[|steps| - 1])
  }

  // ---------- Invariants of a world ----------

  predicate LaunchedIn(s: Store, id: DraftId) { id in s.drafts && s.drafts[id].status.Launched() }

  /** No draft is posted twice, and only claimed drafts are posted. */
  ghost predicate PostsOk(w: World)
  {
    && (forall i, j | 0 <= i < j < |w.posts| :: w.posts[i].draftId != w.posts[j].draftId)
    && (forall k | 0 <= k < |w.posts| :: LaunchedIn(w.store, w.posts[k].draftId))
  }

  predicate Launch(w: World, t: nat) { t in w.tasks && w.tasks[t].phase.Launching? }

  /** A task about to post is the only one for its draft, and its draft was not posted before. */
  ghost predicate LaunchesOk(w: World)
  {
    && (forall t | Launch(w, t) :: LaunchedIn(w.store, w.tasks[t].draftId))
    && (forall t, k | Launch(w, t) && 0 <= k < |w.posts| :: w.posts[k].draftId != w.tasks[t].draftId)
    && (forall t, u | Launch(w, t) && Launch(w, u) && t != u :: w.tasks[t].draftId != w.tasks[u].draftId)
  }

  /** Sent Items holds one message for each delivered post and no other. */
  ghost predicate MailboxOk(w: World)
  {
    && (forall i, j | 0 <= i < j < |w.mailbox| :: w.mailbox[i].header != w.mailbox[j].header)
    && (forall i | 0 <= i < |w.mailbox| :: Post(w.mailbox[i].header, Delivered) in w.posts)
  }

  ghost predicate HasMessage(w: World, id: DraftId, messageId: string)
  {
    exists i :: 0 <= i < |w.mailbox| && w.mailbox[i].header == id && w.mailbox[i].id == messageId
  }

  /** An outcome is genuine: a receipt names a real message, a definite failure comes from a refused post. */
  ghost predicate Genuine(w: World, id: DraftId, o: Outcome)
  {
    && (o.Receipt() ==> HasMessage(w, id, o.graphMessageId) && o.sentAt.At?)
    && (!o.Receipt() && !o.uncertain ==> Post(id, Refused) in w.posts)
  }

  ghost predicate TaskOk(lim: Limits, w: World, task: Task)
  {
    && (task.role.Worker? ==>
          var c := task.role.config; c.Clamped() && c.workerId != "" && c.maxBackoffMs <= lim.maxBackoff)
    && match task.phase
       case Posted(k) => k < |w.posts| && w.posts[k].draftId == task.draftId
       case Holding(o) => Genuine(w, task.draftId, o)
       case Releasing(o, startedAt) =>
         && startedAt <= w.now
         && (o.Receipt() ==> task.draftId in w.store.drafts && w.store.drafts[task.draftId].status.Sent?)
       case _ => true
  }

  ghost predicate TasksOk(lim: Limits, w: World) { forall t | t in w.tasks :: TaskOk(lim, w, w.tasks[t]) }

  /** What a recorded outcome says about Sent Items. */
  ghost predicate RecordedOk(w: World)
  {
    forall id | id in w.store.drafts ::
      && (w.store.drafts[id].status.Sent? ==>
            w.store.drafts[id].graphMessageId.Some? && HasMessage(w, id, w.store.drafts[id].graphMessageId.value))
      && (w.store.drafts[id].status.Failed? ==> Post(id, Refused) in w.posts)
  }

  ghost predicate WorldInv(lim: Limits, w: World)
  {
    && StoreInv(w.store) && w.store.hasQueue
    && DueInv(w.store, w.now, lim.maxBackoff, lim.maxLease)
    && PostsOk(w) && LaunchesOk(w) && MailboxOk(w) && TasksOk(lim, w) && RecordedOk(w)
  }
}
