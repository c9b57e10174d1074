/**
 The server starts a run of its one worker on every timer tick, whether or not the previous run has ended.
 This run, with the delays the worker has by default and ticks as close as they may be configured, shows what that
 costs: two of its tasks rely on running leases of the same draft.
 */
module SendOverlap {
  import opened Wrappers
  import opened SendStore
  import opened SendQueue
  import opened SendProtocol
  import opened SendExclusion

  const DRAFT: DraftId := "d"
  const WORKER := WorkerConfig("a", 30000, 5000, 900000)
  const LIMITS := Limits(900000, 30000)
  const INPUT := NewDraft("ui", "r", ["x"], [], "s", "b", "", None, [], "g")
  const APPROVAL := Approval("session:o", "g", true, true, false, true)

  const STEPS: seq<Step> := [
    CreateDraft(INPUT, DRAFT, true, true),
    ApproveRoute(DRAFT, NoReceipt, APPROVAL, 0),
    ClaimDue(WORKER, 20, [DRAFT], map[1 := DRAFT]),
    Tick(30000),
    ClaimDue(WORKER, 20, [DRAFT], map[2 := DRAFT]),
    ScanFailed(1, PENDING),
    Record(1),
    Release(1),
    Tick(5000),
    ClaimDue(WORKER, 20, [DRAFT], map[3 := DRAFT])]

  /** The draft is the only one, in flight, with this job. */
  predicate InFlight(w: World, now: Time, job: Job)
  {
    && w.now == now && w.store.hasQueue && w.store.drafts.Keys == {DRAFT} && w.store.drafts[DRAFT].status.Sending?
    && w.store.jobs == map[DRAFT := job]
  }

  const NEW_DRAFT :=
    Draft("ui", "r", Payload(["x"], [], "s", "b", None, []), "g", NeedsApproval, None, None, None, None, None)

  lemma DraftCreated()
    ensures var r := Create(EMPTY_STORE, 0, INPUT, DRAFT, true, true);
            && r.Done? && r.store.drafts == map[DRAFT := NEW_DRAFT] && r.store.hasQueue
            && r.store.jobs == map[] && r.store.assets == map[]
  {
    assert !BodyNeedsClarification("b") by {
      assert UNFILLED_SLOT[0] == '{';
      assert !Contains("b"[1..], UNFILLED_SLOT);
    }
    assert "b" + "" == "b";
    assert !IsSpace('b') && 'b' in "b";
  }

  lemma DraftApproved(s: Store)
    requires s.drafts == map[DRAFT := NEW_DRAFT]
    ensures var r := Approve(s, 0, DRAFT, APPROVAL);
            && r.Done? && r.store.drafts.Keys == {DRAFT} && r.store.drafts[DRAFT].status.Approved?
            && r.store.drafts[DRAFT].payload.attachments == []
            && r.store.hasQueue == s.hasQueue && r.store.jobs == s.jobs
  {
    assert SessionActor("session:o");
    assert !BodyNeedsClarification("b") by {
      assert UNFILLED_SLOT[0] == '{';
      assert !Contains("b"[1..], UNFILLED_SLOT);
    }
  }

  lemma DraftClaimed(s: Store)
    requires s.drafts.Keys == {DRAFT} && s.drafts[DRAFT].status.Approved? && s.drafts[DRAFT].payload.attachments == []
    requires s.hasQueue && s.jobs == map[]
    ensures var r := Claim(s, 0, DRAFT);
            && r.Done? && r.value && r.store.drafts.Keys == {DRAFT} && r.store.drafts[DRAFT].status.Sending?
            && r.store.hasQueue && r.store.jobs == map[DRAFT := Job(Pending, 0, 0, "", None, "", 0)]
  {
  }

  lemma Launched(w0: World, w: World)
    requires w0 == INIT
    requires w == Apply(LIMITS, Apply(LIMITS, w0, STEPS[0]), STEPS[1])
    ensures InFlight(w, 0, Job(Pending, 0, 0, "", None, "", 0)) && w.tasks.Keys == {0}
  {
    hide Create, Approve, Claim;
    DraftCreated();
    var w1 := Apply(LIMITS, w0, STEPS[0]);
    assert APPROVAL.(actor := GateActor(NoReceipt, APPROVAL.actor), receiptVerified := false) == APPROVAL;
    DraftApproved(w1.store);
    DraftClaimed(Approve(w1.store, 0, DRAFT, APPROVAL).store);
  }

  lemma OneDue(w: World, now: Time, job: Job, c: WorkerConfig, t: nat)
    requires InFlight(w, now, job) && Leasable(job, now) && (job.state.Pending? ==> job.nextAttemptAt <= now)
    requires c == WORKER && t !in w.tasks
    ensures CanClaimDue(LIMITS, w, c, 20, [DRAFT], map[t := DRAFT])
  {
    assert Due(w.store, DRAFT, now);
    assert DueAnswer(w.store, now, 20, [DRAFT]);
  }

  lemma OneLeased(s: Store, workerId: string, now: Time, until: Time)
    requires DRAFT in s.jobs && Leasable(s.jobs[DRAFT], now)
    ensures LeaseRows(s, [DRAFT], workerId, now, until)
         == s.(jobs := s.jobs[DRAFT := Lease(s.jobs[DRAFT], workerId, until)])
  {
    assert [DRAFT][..0] == [];
    assert LeaseRows(s, [DRAFT][..0], workerId, now, until) == s;
  }

  /** A worker leases the one job that is due. */
  lemma Leased(w: World, now: Time, job: Job, c: WorkerConfig, t: nat)
    requires InFlight(w, now, job) && Leasable(job, now) && (job.state.Pending? ==> job.nextAttemptAt <= now)
    requires c == WORKER && t !in w.tasks
    ensures var w' := Apply(LIMITS, w, ClaimDue(c, 20, [DRAFT], map[t := DRAFT]));
            && InFlight(w', now, Lease(job, c.workerId, now + 30000))
            && w'.tasks == w.tasks[t := Task(Worker(c, job.attemptCount, now + 30000), DRAFT, Scanning)]
  {
    hide CanClaimDue, LeaseRows;
    OneDue(w, now, job, c, t);
    OneLeased(w.store, c.workerId, now, now + 30000);
    ClaimDone(w, c, map[t := DRAFT], Task(Worker(c, job.attemptCount, now + 30000), DRAFT, Scanning), t);
    assert w.store.jobs[DRAFT := Lease(job, c.workerId, now + 30000)]
        == map[DRAFT := Lease(job, c.workerId, now + 30000)];
  }

  lemma ClaimDone(w: World, c: WorkerConfig, newTasks: map<nat, DraftId>, task: Task, t: nat)
    requires CanClaimDue(LIMITS, w, c, 20, [DRAFT], newTasks) && newTasks == map[t := DRAFT]
    requires DRAFT in w.store.jobs
    requires task == Task(Worker(c, w.store.jobs[DRAFT].attemptCount, w.now + c.leaseMs), DRAFT, Scanning)
    ensures Apply(LIMITS, w, ClaimDue(c, 20, [DRAFT], newTasks))
         == w.(store := LeaseRows(w.store, [DRAFT], c.workerId, w.now, w.now + c.leaseMs),
               tasks := w.tasks[t := task])
  {
    hide CanClaimDue, LeaseRows;
    assert WorkerTasks(w, c, newTasks) == map[t := task];
    assert w.tasks + map[t := task] == w.tasks[t := task];
  }

  const PENDING := "GRAPH_RECEIPT_PENDING"

  lemma PendingRecorded(w: World, job: Job, t: nat)
    requires InFlight(w, 30000, job) && job.state.Leased?
    requires t in w.tasks && w.tasks[t] == Task(Worker(WORKER, 0, 30000), DRAFT, Holding(Uncertain(PENDING)))
    ensures var w' := Apply(LIMITS, w, Record(t));
            && InFlight(w', 30000, job.(lastFailureCode := PENDING))
            && w'.tasks == w.tasks[t := Task(Worker(WORKER, 0, 30000), DRAFT, Releasing(Uncertain(PENDING), 30000))]
  {
    PendingReported();
    OutcomePending(w.store, job);
    hide RecordOutcome, WorkerOutcome;
    assert Apply(LIMITS, w, Record(t)) == RecordStep(w, t, Uncertain(PENDING));
  }

  lemma PendingReported()
    ensures WorkerOutcome(Uncertain(PENDING)) == Uncertain(PENDING) && ValidFailureCode(PENDING)
  {
    assert forall c | c in PENDING :: 'A' <= c <= 'Z' || c == '_';
  }

  lemma OutcomePending(s: Store, job: Job)
    requires s.hasQueue && s.drafts.Keys == {DRAFT} && s.drafts[DRAFT].status.Sending?
    requires s.jobs == map[DRAFT := job] && job.state.Leased?
    ensures var r := RecordOutcome(s, 30000, DRAFT, Uncertain(PENDING));
            && r.Done? && r.store.hasQueue && r.store.drafts.Keys == {DRAFT} && r.store.drafts[DRAFT].status.Sending?
            && r.store.jobs == map[DRAFT := job.(lastFailureCode := PENDING)]
  {
    PendingReported();
    assert Requeued(job, PENDING, 30000) == job.(lastFailureCode := PENDING);
    assert map[DRAFT := job][DRAFT := job.(lastFailureCode := PENDING)]
        == map[DRAFT := job.(lastFailureCode := PENDING)];
    hide ValidFailureCode, Requeued;
  }

  lemma PendingReleased(w: World, job: Job, t: nat)
    requires InFlight(w, 30000, job) && job.leaseOwner == "a"
    requires t in w.tasks && w.tasks[t] == Task(Worker(WORKER, 0, 30000), DRAFT, Releasing(Uncertain(PENDING), 30000))
    ensures var w' := Apply(LIMITS, w, Release(t));
            && InFlight(w', 30000, job.(state := Pending, leaseOwner := "", leaseExpiresAt := None,
                                       nextAttemptAt := 35000, lastFailureCode := PENDING))
            && w'.tasks == w.tasks - {t}
  {
    ReleasedPending(job);
    var job' := job.(state := Pending, leaseOwner := "", leaseExpiresAt := None,
                     nextAttemptAt := 35000, lastFailureCode := PENDING);
    assert w.store.jobs[DRAFT := job'] == map[DRAFT := job'];
    hide Released;
  }

  lemma ReleasedPending(job: Job)
    ensures Released(job, WORKER, 0, Uncertain(PENDING), 30000)
         == job.(state := Pending, leaseOwner := "", leaseExpiresAt := None,
                 nextAttemptAt := 35000, lastFailureCode := PENDING)
  {
    PendingReported();
    FirstWaits(WORKER);
    hide BackoffDelay, ValidFailureCode;
  }

  /** A stale task of the owner reports a pending receipt and gives the newer lease away. */
  lemma GivenAway(w: World, job: Job, t: nat)
    requires InFlight(w, 30000, job) && job.state.Leased? && job.leaseOwner == "a"
    requires t in w.tasks && w.tasks[t] == Task(Worker(WORKER, 0, 30000), DRAFT, Scanning)
    ensures var w1 := Apply(LIMITS, w, ScanFailed(t, PENDING));
            var w2 := Apply(LIMITS, w1, Record(t));
            var w3 := Apply(LIMITS, w2, Release(t));
            && InFlight(w3, 30000, job.(state := Pending, leaseOwner := "", leaseExpiresAt := None,
                                       nextAttemptAt := 35000, lastFailureCode := PENDING))
            && w3.tasks == w.tasks - {t}
  {
    var w1 := Apply(LIMITS, w, ScanFailed(t, PENDING));
    assert w1 == SetPhase(w, t, Holding(Uncertain(PENDING)));
    hide Apply;
    PendingRecorded(w1, job, t);
    PendingReleased(Apply(LIMITS, w1, Record(t)), job.(lastFailureCode := PENDING), t);
  }

  lemma Ticked(w: World, now: Time, job: Job, ms: nat)
    requires InFlight(w, now, job)
    ensures InFlight(Apply(LIMITS, w, Tick(ms)), now + ms, job) && Apply(LIMITS, w, Tick(ms)).tasks == w.tasks
  {
  }

  /** The run, world by world, from the claimed draft to two running leases. */
  lemma TwoLeases(w2: World)
    requires InFlight(w2, 0, Job(Pending, 0, 0, "", None, "", 0)) && w2.tasks.Keys == {0}
    ensures !Exclusive(FromClaim(w2))
  {
    hide Apply, Exclusive;
    var j0 := Job(Pending, 0, 0, "", None, "", 0);
    Leased(w2, 0, j0, WORKER, 1);
    var w3 := Apply(LIMITS, w2, STEPS[2]);
    var j1 := Lease(j0, "a", 30000);
    Ticked(w3, 0, j1, 30000);
    var w4 := Apply(LIMITS, w3, STEPS[3]);
    Leased(w4, 30000, j1, WORKER, 2);
    var w5 := Apply(LIMITS, w4, STEPS[4]);
    var j2 := Lease(j1, "a", 60000);
    GivenAway(w5, j2, 1);
    var w8 := Apply(LIMITS, Apply(LIMITS, Apply(LIMITS, w5, STEPS[5]), STEPS[6]), STEPS[7]);
    var j3 := j2.(state := Pending, leaseOwner := "", leaseExpiresAt := None,
                  nextAttemptAt := 35000, lastFailureCode := PENDING);
    Ticked(w8, 30000, j3, 5000);
    var w9 := Apply(LIMITS, w8, STEPS[8]);
    Leased(w9, 35000, j3, WORKER, 3);
    BothRunning(FromClaim(w2));
  }

  lemma BothRunning(w: World)
    requires Running(w, 2) && Running(w, 3) && w.tasks[2].draftId == w.tasks[3].draftId
    ensures !Exclusive(w)
  {
  }

  /** The last eight steps. */
  ghost function FromClaim(w2: World): World
  {
    var w3 := Apply(LIMITS, w2, STEPS[2]);
    var w4 := Apply(LIMITS, w3, STEPS[3]);
    var w5 := Apply(LIMITS, w4, STEPS[4]);
    var w6 := Apply(LIMITS, w5, STEPS[5]);
    var w7 := Apply(LIMITS, w6, STEPS[6]);
    var w8 := Apply(LIMITS, w7, STEPS[7]);
    var w9 := Apply(LIMITS, w8, STEPS[8]);
    Apply(LIMITS, w9, STEPS[9])
  }

  /** With overlapping runs of the one worker, exclusion fails: tasks 2 and 3 both rely on a lease at time 35000. */
  lemma OverlapBreaksExclusion()
    ensures !Exclusive(Run(LIMITS, INIT, STEPS))
  {
    hide Apply, Exclusive;
    FromClaimIsRun();
    Launched(INIT, Apply(LIMITS, Apply(LIMITS, INIT, STEPS[0]), STEPS[1]));
    TwoLeases(Apply(LIMITS, Apply(LIMITS, INIT, STEPS[0]), STEPS[1]));
  }

  lemma {:induction false} RunUnroll(w: World, steps: seq<Step>, step: Step)
    ensures Run(LIMITS, w, steps + [step]) == Apply(LIMITS, Run(LIMITS, w, steps), step)
  {
    assert (steps + [step])[..|steps|] == steps;
  }

  /** The world after the first `n` steps. */
  ghost function After(n: nat): World
    requires n <= |STEPS|
  {
    if n == 0 then INIT else Apply(LIMITS, After(n - 1), STEPS[n - 1])
  }

  lemma {:induction false} AfterIsRun(n: nat)
    requires n <= |STEPS|
    ensures After(n) == Run(LIMITS, INIT, STEPS[..n])
  {
    hide Apply;
    if n > 0 {
      AfterIsRun(n - 1);
      assert STEPS[..n] == STEPS[..n - 1] + [STEPS[n - 1]];
      RunUnroll(INIT, STEPS[..n - 1], STEPS[n - 1]);
    }
  }

  lemma FromClaimIsRun()
    ensures FromClaim(Apply(LIMITS, Apply(LIMITS, INIT, STEPS[0]), STEPS[1])) == Run(LIMITS, INIT, STEPS)
  {
    hide Apply;
    AfterIsRun(10);
    assert STEPS[..10] == STEPS;
    assert After(2) == Apply(LIMITS, Apply(LIMITS, INIT, STEPS[0]), STEPS[1]);
    assert After(10) == FromClaim(After(2)) by { assert After(6) == Apply(LIMITS, After(5), STEPS[5]); }
  }
}
