/** The reconciliation worker: it leases due jobs, and reports what it read in Sent Items; it never sends. */
module SendWorker {
  import opened Wrappers
  import opened SendStore
  import opened SendQueue
  import opened SendDatabase

  /** A claimed row as the worker read it, before its own lease was written. */
  datatype ClaimedJob = ClaimedJob(draftId: DraftId, attemptCount: nat)

  function Max(a: int, b: int): int { if a >= b then a else b }

  /** A numeric option: absent, unreadable and zero all fall back to the default. */
  function OrDefault(value: int, default: int): int { if value == 0 then default else value }

  /** What `finish` does: record the outcome, then update the job if it still carries this worker's id. */
  function FinishJob(s: Store, now: Time, job: ClaimedJob, o: Outcome, c: WorkerConfig): Effect<Draft>
  {
    var e := RecordOutcome(s, now, job.draftId, WorkerOutcome(o));
    match e
    case Done(s', d) => Done(ReleaseJob(s', job.draftId, c, job.attemptCount, o, now), d)
    case Rejected(code) => Rejected(code)
  }

  datatype Report = Report(jobs: seq<ClaimedJob>, finished: nat)

  /** The jobs are finished in order until one of them is rejected; the rest keep their leases. */
  function FinishAll(s: Store, jobs: seq<ClaimedJob>, outcomes: seq<Outcome>, times: seq<Time>, c: WorkerConfig):
      (Store, nat)
    requires |outcomes| == |times| == |jobs|
  {
    if jobs == [] then (s, 0)
    else
      var n := |jobs| - 1;
      var before := FinishAll(s, jobs[..n], outcomes[..n], times[..n], c);
      if before.1 < n then before
      else
        var e := FinishJob(before.0, times[n], jobs[n], outcomes[n], c);
        if e.Done? then (e.store, n + 1) else before
  }

  /** Finishing one job leaves the job rows of all other drafts alone. */
  lemma FinishLocal(s: Store, now: Time, job: ClaimedJob, o: Outcome, c: WorkerConfig, id: DraftId)
    requires id in s.jobs && id != job.draftId
    ensures var e := FinishJob(s, now, job, o, c); e.Done? ==> id in e.store.jobs && e.store.jobs[id] == s.jobs[id]
  {
    RecordLocal(s, now, job.draftId, WorkerOutcome(o), id);
    hide RecordOutcome;
  }

  lemma RecordLocal(s: Store, now: Time, x: DraftId, o: Outcome, id: DraftId)
    requires id in s.jobs && id != x
    ensures var r := RecordOutcome(s, now, x, o); r.Done? ==> id in r.store.jobs && r.store.jobs[id] == s.jobs[id]
  {
  }

  /** A rejected job and every job after it stay exactly as they were leased. */
  lemma {:induction false} UnfinishedStayLeased(s: Store, jobs: seq<ClaimedJob>, outcomes: seq<Outcome>,
                                                times: seq<Time>, c: WorkerConfig, k: nat)
    requires |outcomes| == |times| == |jobs|
    requires forall i, j | 0 <= i < j < |jobs| :: jobs[i].draftId != jobs[j].draftId
    requires k < |jobs| && jobs[k].draftId in s.jobs
    ensures var r := FinishAll(s, jobs, outcomes, times, c);
            && r.1 <= |jobs|
            && (r.1 <= k ==> jobs[k].draftId in r.0.jobs && r.0.jobs[jobs[k].draftId] == s.jobs[jobs[k].draftId])
    decreases |jobs|
  {
    hide FinishJob;
    var n := |jobs| - 1;
    if n > 0 {
      StaysUntil(s, jobs[..n], outcomes[..n], times[..n], c, jobs[k].draftId, k);
    }
    if k < n {
      UnfinishedStayLeased(s, jobs[..n], outcomes[..n], times[..n], c, k);
    }
  }

  lemma {:induction false} StaysUntil(s: Store, jobs: seq<ClaimedJob>, outcomes: seq<Outcome>, times: seq<Time>,
                                      c: WorkerConfig, id: DraftId, k: nat)
    requires |outcomes| == |times| == |jobs| && id in s.jobs
    requires forall i | 0 <= i < |jobs| && i < k :: jobs[i].draftId != id
    ensures var r := FinishAll(s, jobs, outcomes, times, c);
            r.1 <= |jobs| && (r.1 <= k ==> id in r.0.jobs && r.0.jobs[id] == s.jobs[id])
    decreases |jobs|
  {
    hide FinishJob;
    if jobs != [] {
      var n := |jobs| - 1;
      StaysUntil(s, jobs[..n], outcomes[..n], times[..n], c, id, k);
      var before := FinishAll(s, jobs[..n], outcomes[..n], times[..n], c);
      if before.1 == n && n < k {
        FinishLocal(before.0, times[n], jobs[n], outcomes[n], c, id);
      }
    }
  }

  lemma NothingLeased(s: Store, w: string, now: Time, until: Time)
    ensures LeaseRows(s, [], w, now, until) == s
  {
  }

  /** Every row of a due answer is still leasable when its turn comes, with the attempt count it had at first. */
  lemma OneMoreLeased(s: Store, rows: seq<DraftId>, i: nat, w: string, now: Time, limit: int, until: Time)
    requires i < |rows| && DueAnswer(s, now, limit, rows) && now < until
    ensures var before := LeaseRows(s, rows[..i], w, now, until);
            var id := rows[i];
            && id in s.jobs && id in before.jobs && before.jobs[id] == s.jobs[id] && Leasable(s.jobs[id], now)
            && LeaseRows(s, rows[..i + 1], w, now, until)
               == before.(jobs := before.jobs[id := Lease(s.jobs[id], w, until)])
  {
    assert Due(s, rows[i], now);
    assert rows[i] !in rows[..i];
    hide DueAnswer;
    assert rows[..i + 1][..i] == rows[..i];
    LeaseRowsAt(s, rows[..i], w, now, until, rows[i]);
  }

  class SendReconciliationWorker {
    const db: Connection
    const drafts: MailSendDrafts
    const config: WorkerConfig

    /** Options are clamped so that a lease lasts a second and a wait a tenth of one at the least. */
    constructor (drafts: MailSendDrafts, workerId: string, leaseMs: int, baseBackoffMs: int, maxBackoffMs: int)
      ensures this.drafts == drafts && db == drafts.db && config.workerId == workerId && config.Clamped()
      ensures config.leaseMs == if leaseMs == 0 then 30_000 else if leaseMs < 1000 then 1000 else leaseMs
      ensures config.baseBackoffMs
              == if baseBackoffMs == 0 then 5_000 else if baseBackoffMs < 100 then 100 else baseBackoffMs
      ensures var max := if maxBackoffMs == 0 then 900_000 else maxBackoffMs;
              config.maxBackoffMs == if max < config.baseBackoffMs then config.baseBackoffMs else max
    {
      this.drafts := drafts;
      db := drafts.db;
      var base := Max(100, OrDefault(baseBackoffMs, 5000));
      config := WorkerConfig(workerId, Max(1000, OrDefault(leaseMs, 30000)), base,
                             Max(base, OrDefault(maxBackoffMs, 900000)));
    }

    /** The store of a claim that leased the first `i` of the rows it selected in `before`. */
    ghost function LeasedSoFar(before: Store, rows: seq<DraftId>, i: nat, now: Time): Store
      requires i <= |rows|
    {
      LeaseRows(before, rows[..i], config.workerId, now, now + config.leaseMs)
    }

    /** The update that leases the next selected row, which nobody can have leased since it was selected. */
    method LeaseRow(now: Time, ghost limit: int, rows: seq<DraftId>, i: nat, ghost before: Store)
        returns (ok: bool, changed: bool, job: ClaimedJob)
      requires config.Clamped() && i < |rows| && DueAnswer(before, now, limit, rows)
      requires db.store == LeasedSoFar(before, rows, i, now)
      modifies db
      ensures db.frames == old(db.frames) && db.refused == old(db.refused) + if ok then 0 else 1
      ensures ok ==> changed && db.store == LeasedSoFar(before, rows, i + 1, now)
      ensures rows[i] in before.jobs && job == ClaimedJob(rows[i], before.jobs[rows[i]].attemptCount)
    {
      hide DueAnswer, LeaseRows, Lease, Leasable;
      OneMoreLeased(before, rows, i, config.workerId, now, limit, now + config.leaseMs);
      var j := db.store.jobs[rows[i]];
      job := ClaimedJob(rows[i], j.attemptCount);
      changed := Leasable(j, now);
      if changed { j := Lease(j, config.workerId, now + config.leaseMs); }
      ok := db.Execute(db.store.(jobs := db.store.jobs[rows[i] := j]));
    }

    /** The updates of `ClaimDue`, one selected row after another until one is refused. */
    method LeaseEach(now: Time, limit: int, rows: seq<DraftId>) returns (ok: bool, jobs: seq<ClaimedJob>)
      requires config.Clamped() && DueAnswer(db.store, now, limit, rows)
      modifies db
      ensures db.frames == old(db.frames) && db.refused == old(db.refused) + if ok then 0 else 1
      ensures ok ==> db.store == LeaseRows(old(db.store), rows, config.workerId, now, now + config.leaseMs)
      ensures ok ==> ClaimedFrom(old(db.store), rows, jobs)
    {
      ghost var before := db.store;
      NothingLeased(before, config.workerId, now, now + config.leaseMs);
      hide DueAnswer, LeaseRows, ClaimedFrom;
      NoneClaimed(before, rows);
      jobs := [];
      var i := 0;
      while i < |rows|
        invariant 0 <= i <= |rows| && db.frames == old(db.frames) && db.refused == old(db.refused)
        invariant db.store == LeasedSoFar(before, rows, i, now) && ClaimedFrom(before, rows[..i], jobs)
      {
        var changed, job;
        ok, changed, job := LeaseRow(now, limit, rows, i, before);
        if !ok { return; }
        OneMoreClaimed(before, rows, i, jobs);
        if changed { jobs := jobs + [job]; }
        i := i + 1;
      }
      assert rows[..i] == rows;
      ok := true;
    }

    /**
     `rows` is the answer to the due query.  Either every selected row is claimed, with the attempt count it had
     before, or a statement was refused and no row is.
     */
    method ClaimDue(now: Time, limit: int, rows: seq<DraftId>) returns (r: Result<seq<ClaimedJob>, Code>)
      requires config.Clamped() && db.frames == [] && DueAnswer(db.store, now, limit, rows)
      modifies db
      ensures db.frames == [] && db.refused >= old(db.refused)
      ensures r.Ok? <==> db.refused == old(db.refused)
      ensures r.Ok? ==>
        && db.store == LeaseRows(old(db.store), rows, config.workerId, now, now + config.leaseMs)
        && ClaimedFrom(old(db.store), rows, r.value)
      ensures r.Err? ==> db.store == old(db.store) && r.error == StatementFailed
    {
      hide DueAnswer, LeaseRows, ClaimedFrom;
      var ok := db.Begin();
      if !ok { return Err(StatementFailed); }
      var jobs;
      ok, jobs := LeaseEach(now, limit, rows);
      if ok {
        ok := db.Commit();
        if ok { return Ok(jobs); }
      }
      db.Rollback();
      r := Err(StatementFailed);
    }

    /** The worker's own job update, fenced by its id. */
    method UpdateJob(now: Time, job: ClaimedJob, o: Outcome) returns (ok: bool)
      modifies db
      ensures db.frames == old(db.frames) && db.refusedCommits == old(db.refusedCommits)
      ensures db.refused == old(db.refused) + if ok then 0 else 1
      ensures db.store == if ok then ReleaseJob(old(db.store), job.draftId, config, job.attemptCount, o, now)
                          else old(db.store)
    {
      var next := db.store;
      if job.draftId in next.jobs && next.jobs[job.draftId].leaseOwner == config.workerId {
        var j := next.jobs[job.draftId].(leaseOwner := "", leaseExpiresAt := None);
        if o.Receipt() {
          j := j.(state := Complete);
        } else {
          var attempt := if job.attemptCount == 0 then 1 else job.attemptCount;
          var delay := Min(config.maxBackoffMs, config.baseBackoffMs * Pow2(Min(attempt - 1, 10)));
          j := j.(state := Pending, nextAttemptAt := now + delay, lastFailureCode := WorkerFailureCode(o));
        }
        next := next.(jobs := next.jobs[job.draftId := j]);
      }
      ok := db.Execute(next);
    }

    /**
     Record first, in a transaction of its own; then the job update, outside of it.  When a statement is refused
     either nothing changed, or the outcome is recorded and the job keeps its lease.
     */
    method Finish(now: Time, job: ClaimedJob, o: Outcome) returns (r: Result<Draft, Code>)
      requires drafts.db == db
      modifies drafts, db
      ensures drafts.Balance() == old(drafts.Balance())
      ensures db.frames == old(db.frames) && db.refused >= old(db.refused)
      ensures db.refused == old(db.refused) ==>
        Agrees(FinishJob(old(db.store), now, job, o, config), old(db.store), db.store, r)
      ensures db.refused > old(db.refused) ==>
        r == Err(StatementFailed) && HalfFinished(old(db.store), now, job, o, db.store)
    {
      hide RecordOutcome, ReleaseJob, WorkerFailureCode;
      r := drafts.RecordOutcome(now, job.draftId, WorkerOutcome(o));
      if r.Ok? {
        var ok := UpdateJob(now, job, o);
        if !ok { r := Err(StatementFailed); }
      }
    }

    /**
     One run without interference: `outcomes` is what reconciling each claimed draft answered and `times` the
     clock when it did.  A rejected recording or a refused statement ends the run.
     */
    method RunOnce(now: Time, limit: int, rows: seq<DraftId>, outcomes: seq<Outcome>, times: seq<Time>)
        returns (r: Result<Report, Code>)
      requires config.Clamped() && drafts.db == db && db.frames == [] && DueAnswer(db.store, now, limit, rows)
      requires |outcomes| == |times| == |rows|
      modifies drafts, db
      ensures db.frames == []
      ensures r.Err? ==> db.store == old(db.store) && db.refused > old(db.refused)
      ensures r.Ok? ==>
        var leased := LeaseRows(old(db.store), rows, config.workerId, now, now + config.leaseMs);
        && ClaimedFrom(old(db.store), rows, r.value.jobs) && |r.value.jobs| == |rows|
        && RunEnded(leased, r.value, outcomes, times, config, db.refused == old(db.refused), db.store)
    {
      hide DueAnswer, LeaseRows, FinishAll, FinishJob, HalfFinished;
      var claimed := ClaimDue(now, limit, rows);
      if claimed.Err? { return Err(claimed.error); }
      var jobs := claimed.value;
      ghost var leased := db.store;
      NoneFinished(leased, config);
      var i := 0;
      while i < |jobs|
        invariant 0 <= i <= |jobs| == |rows| && db.frames == [] && db.refused == old(db.refused)
        invariant (db.store, i) == FinishAll(leased, jobs[..i], outcomes[..i], times[..i], config)
      {
        var finished := Finish(times[i], jobs[i], outcomes[i]);
        FinishesNext(leased, jobs, outcomes, times, config, i);
        if finished.Err? {
          if db.refused == old(db.refused) { FinishStops(leased, jobs, outcomes, times, config, i); }
          return Ok(Report(jobs, i));
        }
        i := i + 1;
      }
      assert jobs[..i] == jobs && outcomes[..i] == outcomes && times[..i] == times;
      r := Ok(Report(jobs, i));
    }
  }

  /** The claimed jobs are the selected rows as they were read. */
  predicate ClaimedFrom(s: Store, rows: seq<DraftId>, jobs: seq<ClaimedJob>)
  {
    && |jobs| == |rows|
    && forall i | 0 <= i < |rows| :: rows[i] in s.jobs && jobs[i] == ClaimedJob(rows[i], s.jobs[rows[i]].attemptCount)
  }

  lemma NoneClaimed(s: Store, rows: seq<DraftId>)
    ensures ClaimedFrom(s, rows[..0], [])
  {
  }

  lemma OneMoreClaimed(s: Store, rows: seq<DraftId>, i: nat, jobs: seq<ClaimedJob>)
    requires i < |rows| && rows[i] in s.jobs && ClaimedFrom(s, rows[..i], jobs)
    ensures ClaimedFrom(s, rows[..i + 1], jobs + [ClaimedJob(rows[i], s.jobs[rows[i]].attemptCount)])
  {
  }

  /** What a refused statement leaves of `Finish`: nothing, or a recorded outcome with the lease kept. */
  predicate HalfFinished(s: Store, now: Time, job: ClaimedJob, o: Outcome, s': Store)
  {
    var e := RecordOutcome(s, now, job.draftId, WorkerOutcome(o));
    s' == s || (e.Done? && s' == e.store)
  }

  /** How a run ends: all it could finish is finished, or a refused statement stopped it inside one job. */
  predicate RunEnded(leased: Store, report: Report, outcomes: seq<Outcome>, times: seq<Time>, c: WorkerConfig,
                     ran: bool, s': Store)
    requires |outcomes| == |times| == |report.jobs|
  {
    var k := report.finished;
    if ran then (s', k) == FinishAll(leased, report.jobs, outcomes, times, c)
    else
      && k < |report.jobs|
      && var before := FinishAll(leased, report.jobs[..k], outcomes[..k], times[..k], c);
         before.1 == k && HalfFinished(before.0, times[k], report.jobs[k], outcomes[k], s')
  }

  lemma NoneFinished(s: Store, c: WorkerConfig)
    ensures FinishAll(s, [], [], [], c) == (s, 0)
  {
  }

  lemma FinishesNext(s: Store, jobs: seq<ClaimedJob>, outcomes: seq<Outcome>, times: seq<Time>, c: WorkerConfig, i: nat)
    requires |outcomes| == |times| == |jobs| && i < |jobs|
    requires FinishAll(s, jobs[..i], outcomes[..i], times[..i], c).1 == i
    ensures var before := FinishAll(s, jobs[..i], outcomes[..i], times[..i], c);
            var e := FinishJob(before.0, times[i], jobs[i], outcomes[i], c);
            e.Done? ==> FinishAll(s, jobs[..i + 1], outcomes[..i + 1], times[..i + 1], c) == (e.store, i + 1)
  {
    hide FinishJob;
    assert jobs[..i + 1][..i] == jobs[..i] && outcomes[..i + 1][..i] == outcomes[..i]
        && times[..i + 1][..i] == times[..i];
  }

  /** After the first rejection nothing more is finished. */
  lemma {:induction false} FinishStops(s: Store, jobs: seq<ClaimedJob>, outcomes: seq<Outcome>, times: seq<Time>,
                                       c: WorkerConfig, k: nat)
    requires |outcomes| == |times| == |jobs| && k < |jobs|
    requires FinishAll(s, jobs[..k], outcomes[..k], times[..k], c).1 == k
    requires FinishJob(FinishAll(s, jobs[..k], outcomes[..k], times[..k], c).0, times[k], jobs[k], outcomes[k], c).Rejected?
    ensures FinishAll(s, jobs, outcomes, times, c) == FinishAll(s, jobs[..k], outcomes[..k], times[..k], c)
    decreases |jobs|
  {
    hide FinishJob;
    var n := |jobs| - 1;
    if k < n {
      assert jobs[..n][..k] == jobs[..k] && outcomes[..n][..k] == outcomes[..k] && times[..n][..k] == times[..k];
      FinishStops(s, jobs[..n], outcomes[..n], times[..n], c, k);
    }
  }
}
