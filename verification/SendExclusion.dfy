/**
 Mutual exclusion of worker tasks.  The lease row is exclusive by itself; whether two *tasks* can both
 believe in a running lease on one draft depends on whether runs of one worker id overlap.
 */
module SendExclusion {
  import opened Wrappers
  import opened SendStore
  import opened SendLifecycle
  import opened SendQueue
  import opened SendProtocol
  import opened SendTheorems
  import opened SendFencing

  predicate WorkerTask(w: World, t: nat) { t in w.tasks && w.tasks[t].role.Worker? }

  /** A worker task that may still rely on the lease it took. */
  predicate Running(w: World, t: nat) { WorkerTask(w, t) && w.now < w.tasks[t].role.leaseUntil }

  /** No two tasks rely on a lease of the same draft. */
  ghost predicate Exclusive(w: World)
  {
    forall t, u | Running(w, t) && Running(w, u) && t != u :: w.tasks[t].draftId != w.tasks[u].draftId
  }

  predicate Backed(w: World, t: nat)
    requires WorkerTask(w, t)
  {
    var task := w.tasks[t];
    && task.draftId in w.store.jobs
    && var j := w.store.jobs[task.draftId];
       || j.state.Complete?
       || (j.state.Leased? && j.leaseOwner == task.role.config.workerId
           && j.leaseExpiresAt == Some(task.role.leaseUntil))
  }

  /** Every task that may rely on a lease is backed by the lease row, and no two share a draft. */
  ghost predicate ExclusionInv(w: World)
  {
    (forall t | Running(w, t) :: Backed(w, t)) && Exclusive(w)
  }

  /** The step releases a row that a newer running task of the same worker id leased again. */
  ghost predicate GivesAway(w: World, step: Step)
  {
    && step.Release? && WorkerTask(w, step.task) && w.tasks[step.task].phase.Releasing?
    && exists t :: t != step.task && Running(w, t) && SameClaim(w, t, step.task)
  }

  /** Two tasks of one worker id on one draft, whose job is still leased. */
  predicate SameClaim(w: World, t: nat, u: nat)
    requires WorkerTask(w, t) && WorkerTask(w, u)
  {
    && w.tasks[t].draftId == w.tasks[u].draftId
    && w.tasks[t].role.config.workerId == w.tasks[u].role.config.workerId
    && w.tasks[t].draftId in w.store.jobs && w.store.jobs[w.tasks[t].draftId].state.Leased?
  }

  /** A run in which no worker id gives away its own newer lease. */
  ghost predicate CleanRun(lim: Limits, w: World, steps: seq<Step>)
  {
    steps != [] ==>
      && CleanRun(lim, w, steps[..|steps| - 1])
      && !GivesAway(Run(lim, w, steps[..|steps| - 1]), steps[|steps| - 1])
  }

  /** A worker id asks for jobs only when none of its earlier tasks is left. */
  predicate SoloStep(w: World, step: Step)
  {
    step.ClaimDue? ==>
      forall t | t in w.tasks && w.tasks[t].role.Worker? :: w.tasks[t].role.config.workerId != step.config.workerId
  }

  ghost predicate SoloRun(lim: Limits, w: World, steps: seq<Step>)
  {
    steps != [] ==>
      && SoloRun(lim, w, steps[..|steps| - 1])
      && SoloStep(Run(lim, w, steps[..|steps| - 1]), steps[|steps| - 1])
  }

  lemma NoNewWorkers(lim: Limits, w: World, step: Step, t: nat)
    requires !step.ClaimDue? && WorkerTask(Apply(lim, w, step), t)
    ensures WorkerTask(w, t)
    ensures w.tasks[t].role == Apply(lim, w, step).tasks[t].role
    ensures w.tasks[t].draftId == Apply(lim, w, step).tasks[t].draftId
    ensures !(step.Release? && step.task == t && w.tasks[t].phase.Releasing?)
  {
    hide Claim, ApproveAndClaim, Create, Approve, Cancel, Restore, RecordOutcome, ReleaseJob, AfterRefusal,
         AfterAnswer, Possible;
  }

  lemma OtherStepExclusive(lim: Limits, w: World, step: Step)
    requires WorldInv(lim, w) && ExclusionInv(w) && !step.ClaimDue? && !GivesAway(w, step)
    ensures ExclusionInv(Apply(lim, w, step))
  {
    var w' := Apply(lim, w, step);
    ClockForward(lim, w, step);
    hide Apply, WorldInv;
    forall t | WorkerTask(w', t) ensures
      && WorkerTask(w, t) && w.tasks[t].role == w'.tasks[t].role && w.tasks[t].draftId == w'.tasks[t].draftId
      && (Running(w', t) ==> Running(w, t))
    {
      NoNewWorkers(lim, w, step, t);
    }
    forall t | Running(w', t) ensures Backed(w', t) {
      NoNewWorkers(lim, w, step, t);
      assert Backed(w, t);
      BackedStays(lim, w, step, t);
    }
  }

  lemma BackedStays(lim: Limits, w: World, step: Step, t: nat)
    requires WorldInv(lim, w) && ExclusionInv(w) && !step.ClaimDue? && !GivesAway(w, step)
    requires Running(w, t) && Backed(w, t) && WorkerTask(Apply(lim, w, step), t)
    ensures Backed(Apply(lim, w, step), t)
  {
    var w' := Apply(lim, w, step);
    NoNewWorkers(lim, w, step, t);
    var id := w.tasks[t].draftId;
    if w.store.jobs[id].state.Complete? {
      hide Apply;
      CompleteIsGenuine(lim, w, id);
      CompletedStays(lim, w, step, id);
    } else if OwnerRelease(w, step, id) {
      if step.task != t { assert SameClaim(w, t, step.task); }
      ReleaseTooEarly(lim, w, step.task, id);
    } else {
      hide Apply;
      FencedStep(lim, w, step, id);
    }
  }

  /** A release that comes before its outcome is recorded does nothing. */
  lemma ReleaseTooEarly(lim: Limits, w: World, t: nat, id: DraftId)
    requires t in w.tasks && !w.tasks[t].phase.Releasing?
    ensures Apply(lim, w, Release(t)) == w
  {
  }

  /** What a claim of due jobs does to tasks and job rows. */
  ghost predicate ClaimEffect(w: World, w': World, c: WorkerConfig, rows: seq<DraftId>, newTasks: map<nat, DraftId>)
  {
    && w'.now == w.now
    && (forall t, u | t in newTasks && u in newTasks && t != u :: newTasks[t] != newTasks[u])
    && TasksTaken(w, w', c, rows, newTasks) && RowsTaken(w, w', c, rows)
  }

  ghost predicate TasksTaken(w: World, w': World, c: WorkerConfig, rows: seq<DraftId>, newTasks: map<nat, DraftId>)
  {
    && (forall t | t in w'.tasks && t !in newTasks :: t in w.tasks && w'.tasks[t] == w.tasks[t])
    && (forall t | t in w'.tasks && t in newTasks ::
          && t !in w.tasks && newTasks[t] in rows && w'.tasks[t].draftId == newTasks[t]
          && w'.tasks[t].role.Worker? && w'.tasks[t].role.config == c
          && w'.tasks[t].role.leaseUntil == w.now + c.leaseMs)
  }

  ghost predicate RowsTaken(w: World, w': World, c: WorkerConfig, rows: seq<DraftId>)
  {
    && w'.store.jobs.Keys == w.store.jobs.Keys
    && (forall id | id in rows ::
          && id in w.store.jobs && w'.store.jobs[id].state.Leased? && w'.store.jobs[id].leaseOwner == c.workerId
          && w'.store.jobs[id].leaseExpiresAt == Some(w.now + c.leaseMs))
    && (forall id | id in w.store.jobs && id !in rows :: w'.store.jobs[id] == w.store.jobs[id])
  }

  lemma ClaimHasEffect(lim: Limits, w: World, step: Step)
    requires step.ClaimDue? && CanClaimDue(lim, w, step.config, step.limit, step.rows, step.newTasks)
    ensures ClaimEffect(w, Apply(lim, w, step), step.config, step.rows, step.newTasks)
  {
    var w' := Apply(lim, w, step);
    ClaimApplies(lim, w, step.config, step.limit, step.rows, step.newTasks);
    hide Apply;
    ClaimTakesRows(lim, w, w', step.config, step.limit, step.rows, step.newTasks);
    ClaimTakesTasks(lim, w, w', step.config, step.limit, step.rows, step.newTasks);
    hide LeaseRows, DueAnswer, RowsTaken, TasksTaken;
  }

  lemma ClaimApplies(lim: Limits, w: World, c: WorkerConfig, limit: int, rows: seq<DraftId>, newTasks: map<nat, DraftId>)
    requires CanClaimDue(lim, w, c, limit, rows, newTasks)
    ensures Apply(lim, w, ClaimDue(c, limit, rows, newTasks))
            == w.(store := LeaseRows(w.store, rows, c.workerId, w.now, w.now + c.leaseMs),
                  tasks := w.tasks + WorkerTasks(w, c, newTasks))
  {
    hide CanClaimDue, LeaseRows;
  }

  lemma ClaimTakesTasks(lim: Limits, w: World, w': World, c: WorkerConfig, limit: int, rows: seq<DraftId>,
                        newTasks: map<nat, DraftId>)
    requires CanClaimDue(lim, w, c, limit, rows, newTasks)
    requires w'.tasks == w.tasks + WorkerTasks(w, c, newTasks)
    ensures TasksTaken(w, w', c, rows, newTasks)
  {
    hide DueAnswer;
  }

  lemma ClaimTakesRows(lim: Limits, w: World, w': World, c: WorkerConfig, limit: int, rows: seq<DraftId>,
                       newTasks: map<nat, DraftId>)
    requires CanClaimDue(lim, w, c, limit, rows, newTasks)
    requires w'.store == LeaseRows(w.store, rows, c.workerId, w.now, w.now + c.leaseMs)
    ensures RowsTaken(w, w', c, rows)
  {
    hide LeaseRows, DueAnswer;
    LeaseTakes(w.store, rows, c, w.now, limit);
  }

  lemma ClaimStepExclusive(lim: Limits, w: World, step: Step)
    requires WorldInv(lim, w) && ExclusionInv(w) && step.ClaimDue?
    ensures ExclusionInv(Apply(lim, w, step))
  {
    hide WorldInv, ExclusionInv, Apply, ClaimEffect, DueAnswer;
    if CanClaimDue(lim, w, step.config, step.limit, step.rows, step.newTasks) {
      ClaimHasEffect(lim, w, step);
      forall t | Running(w, t) ensures w.tasks[t].draftId !in step.rows {
        RunningNotSelected(lim, w, step, t);
      }
      ClaimKeepsExclusion(w, Apply(lim, w, step), step);
    } else {
      ApplyBlocked(lim, w, step.config, step.limit, step.rows, step.newTasks);
    }
  }

  lemma RunningNotSelected(lim: Limits, w: World, step: Step, t: nat)
    requires WorldInv(lim, w) && ExclusionInv(w) && Running(w, t)
    requires step.ClaimDue? && CanClaimDue(lim, w, step.config, step.limit, step.rows, step.newTasks)
    ensures w.tasks[t].draftId !in step.rows
  {
    hide WorldInv;
    assert Backed(w, t);
    var id := w.tasks[t].draftId;
    if w.store.jobs[id].state.Complete? { CompleteNotDue(lim, w, id); }
    assert !Due(w.store, id, w.now);
  }

  lemma ClaimKeepsExclusion(w: World, w': World, step: Step)
    requires ExclusionInv(w) && step.ClaimDue?
    requires ClaimEffect(w, w', step.config, step.rows, step.newTasks)
    requires forall t | Running(w, t) :: w.tasks[t].draftId !in step.rows
    ensures ExclusionInv(w')
  {
    forall t | Running(w', t) ensures Backed(w', t) {
      if t !in step.newTasks { assert Running(w, t) && Backed(w, t); }
    }
    forall t, u | Running(w', t) && Running(w', u) && t != u ensures w'.tasks[t].draftId != w'.tasks[u].draftId {
      assert t !in step.newTasks ==> Running(w, t);
      assert u !in step.newTasks ==> Running(w, u);
    }
  }

  lemma CompleteNotDue(lim: Limits, w: World, id: DraftId)
    requires WorldInv(lim, w) && id in w.store.jobs && w.store.jobs[id].state.Complete?
    ensures !Due(w.store, id, w.now)
  {
  }

  /** Giving a lease away strips the task that relied on it of its backing. */
  lemma GivenAwayUnbacked(lim: Limits, w: World, step: Step)
    requires WorldInv(lim, w) && ExclusionInv(w) && GivesAway(w, step)
    ensures !ExclusionInv(Apply(lim, w, step))
  {
    hide WorldInv, Apply;
    var u := step.task;
    var t :| t != u && Running(w, t) && SameClaim(w, t, u);
    assert Backed(w, t);
    NoReceiptHeld(lim, w, u, w.tasks[t].draftId);
    GivenRow(lim, w, u);
    assert !Backed(Apply(lim, w, step), t);
    assert Running(Apply(lim, w, step), t);
  }

  /** A task about to release a leased job has no receipt: recording one would have completed the job. */
  lemma NoReceiptHeld(lim: Limits, w: World, u: nat, id: DraftId)
    requires WorldInv(lim, w) && u in w.tasks && w.tasks[u].phase.Releasing? && w.tasks[u].draftId == id
    requires id in w.store.jobs && w.store.jobs[id].state.Leased?
    ensures !w.tasks[u].phase.outcome.Receipt()
  {
    TaskAt(lim, w, u);
    ExtendsSame(w.store);
    hide WorldInv;
    if w.tasks[u].phase.outcome.Receipt() { SentHasCompleteJob(lim, w, w, id); }
  }

  lemma GivenRow(lim: Limits, w: World, u: nat)
    requires WorkerTask(w, u) && w.tasks[u].phase.Releasing? && !w.tasks[u].phase.outcome.Receipt()
    requires w.tasks[u].draftId in w.store.jobs
    requires w.store.jobs[w.tasks[u].draftId].leaseOwner == w.tasks[u].role.config.workerId
    ensures var w' := Apply(lim, w, Release(u));
            && w'.now == w.now && w'.tasks == w.tasks - {u}
            && w.tasks[u].draftId in w'.store.jobs && w'.store.jobs[w.tasks[u].draftId].state.Pending?
  {
    hide BackoffDelay, WorkerFailureCode;
  }

  /**
   Exactly one thing breaks lease exclusion: a release that matches, by worker id alone, a lease its own
   worker took again later.  Every other step of anybody keeps it.
   */
  lemma ExclusionKeptIff(lim: Limits, w: World, step: Step)
    requires WorldInv(lim, w) && ExclusionInv(w)
    ensures ExclusionInv(Apply(lim, w, step)) <==> !GivesAway(w, step)
  {
    hide WorldInv, ExclusionInv, Apply;
    if step.ClaimDue? {
      ClaimStepExclusive(lim, w, step);
    } else if GivesAway(w, step) {
      GivenAwayUnbacked(lim, w, step);
    } else {
      OtherStepExclusive(lim, w, step);
    }
  }

  /** In every run without such a release, at most one task at a time relies on a running lease of a draft. */
  lemma {:induction false} LeasesExclusive(lim: Limits, steps: seq<Step>)
    requires CleanRun(lim, INIT, steps)
    ensures ExclusionInv(Run(lim, INIT, steps)) && Exclusive(Run(lim, INIT, steps))
  {
    if steps != [] {
      var before := Run(lim, INIT, steps[..|steps| - 1]);
      LeasesExclusive(lim, steps[..|steps| - 1]);
      InitInv(lim);
      RunKeeps(lim, INIT, steps[..|steps| - 1]);
      LastStep(lim, INIT, steps);
      ExclusionKeptIff(lim, before, steps[|steps| - 1]);
    }
  }

  ghost predicate OneEach(w: World)
  {
    forall t, u | WorkerTask(w, t) && WorkerTask(w, u) && t != u
      && w.tasks[t].role.config.workerId == w.tasks[u].role.config.workerId :: w.tasks[t].draftId != w.tasks[u].draftId
  }

  lemma SoloKeeps(lim: Limits, w: World, step: Step)
    requires OneEach(w) && SoloStep(w, step)
    ensures OneEach(Apply(lim, w, step)) && !GivesAway(w, step)
  {
    var w' := Apply(lim, w, step);
    hide Apply;
    if step.ClaimDue? {
      if CanClaimDue(lim, w, step.config, step.limit, step.rows, step.newTasks) {
        ClaimHasEffect(lim, w, step);
        forall t | WorkerTask(w', t) ensures t !in step.newTasks ==> WorkerTask(w, t) && w'.tasks[t] == w.tasks[t] {
        }
      } else {
        ApplyBlocked(lim, w, step.config, step.limit, step.rows, step.newTasks);
      }
    } else {
      forall t | WorkerTask(w', t) ensures
        WorkerTask(w, t) && w.tasks[t].role == w'.tasks[t].role && w.tasks[t].draftId == w'.tasks[t].draftId
      {
        NoNewWorkers(lim, w, step, t);
      }
    }
  }

  /** Runs of one worker id that never overlap are clean. */
  lemma {:induction false} SoloIsClean(lim: Limits, steps: seq<Step>)
    requires SoloRun(lim, INIT, steps)
    ensures CleanRun(lim, INIT, steps) && OneEach(Run(lim, INIT, steps))
  {
    if steps != [] {
      SoloIsClean(lim, steps[..|steps| - 1]);
      LastStep(lim, INIT, steps);
      SoloKeeps(lim, Run(lim, INIT, steps[..|steps| - 1]), steps[|steps| - 1]);
    }
  }
}
