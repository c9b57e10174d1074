/**
 The leased reconciliation queue: backoff arithmetic, what leasing and releasing keep, and how long
 a draft in flight can wait.
 */
module SendQueue {
  import opened SendStore
  import opened SendLifecycle

  // ---------- Backoff ----------

  lemma {:induction false} Pow2Grows(m: nat, n: nat)
    requires m <= n
    ensures 1 <= Pow2(m) <= Pow2(n)
    decreases n
  {
    if n > 0 {
      Pow2Grows(if m == n then m - 1 else m, n - 1);
    }
  }

  /** A wait lies between the base and the maximum, and never shrinks as attempts accumulate. */
  lemma BackoffBounded(c: WorkerConfig, m: nat, n: nat)
    requires c.Clamped() && m <= n
    ensures c.baseBackoffMs <= BackoffDelay(c, m) <= BackoffDelay(c, n) <= c.maxBackoffMs
  {
    var i := Min((if m == 0 then 1 else m) - 1, 10);
    var j := Min((if n == 0 then 1 else n) - 1, 10);
    Pow2Grows(0, i);
    Pow2Grows(i, j);
    ScaleGrows(c.baseBackoffMs, 1, Pow2(i));
    ScaleGrows(c.baseBackoffMs, Pow2(i), Pow2(j));
  }

  lemma ScaleGrows(k: int, a: int, b: int)
    requires 0 <= k && a <= b
    ensures k * a <= k * b
  {
  }

  /** The first two attempts wait the base delay: the worker reads the count before it increments it. */
  lemma FirstWaits(c: WorkerConfig)
    requires c.Clamped()
    ensures BackoffDelay(c, 0) == BackoffDelay(c, 1) == c.baseBackoffMs
    ensures BackoffDelay(c, 2) == Min(c.maxBackoffMs, 2 * c.baseBackoffMs)
  {
    assert Pow2(1) == 2;
  }

  /** From the first attempt on every wait is twice the one before, until the eleventh, or the maximum. */
  lemma BackoffDoubles(c: WorkerConfig, n: nat)
    requires c.Clamped() && n >= 1
    ensures BackoffDelay(c, n + 1) == if n <= 10 then Min(c.maxBackoffMs, 2 * BackoffDelay(c, n)) else BackoffDelay(c, n)
  {
    if n <= 10 { TwiceAsMuch(c.baseBackoffMs, Pow2(n - 1)); }
  }

  lemma TwiceAsMuch(base: int, factor: int)
    ensures base * (2 * factor) == 2 * (base * factor)
  {
  }

  // ---------- Leasing ----------

  function LeasedIf(j: Job, selected: bool, w: string, now: Time, until: Time): Job
  {
    if selected && Leasable(j, now) then Lease(j, w, until) else j
  }

  /** A fresh lease is not leasable. */
  lemma LeasedOnce(j: Job, a: bool, b: bool, w: string, now: Time, until: Time)
    requires now < until
    ensures LeasedIf(LeasedIf(j, a, w, now, until), b, w, now, until) == LeasedIf(j, a || b, w, now, until)
  {
  }

  lemma LeaseRowAt(s: Store, x: DraftId, w: string, now: Time, until: Time, id: DraftId)
    ensures var s' := LeaseRow(s, x, w, now, until);
            && s' == s.(jobs := s'.jobs) && s'.jobs.Keys == s.jobs.Keys
            && (id in s.jobs ==> s'.jobs[id] == LeasedIf(s.jobs[id], id == x, w, now, until))
  {
    hide Lease, Leasable;
  }

  /** Leasing changes only job rows, and each of them only from leasable to leased. */
  lemma {:induction false} LeaseRowsAt(s: Store, rows: seq<DraftId>, w: string, now: Time, until: Time, id: DraftId)
    requires now < until
    ensures var s' := LeaseRows(s, rows, w, now, until);
            && s' == s.(jobs := s'.jobs) && s'.jobs.Keys == s.jobs.Keys
            && (id in s.jobs ==> s'.jobs[id] == LeasedIf(s.jobs[id], id in rows, w, now, until))
  {
    if rows != [] {
      var n := |rows| - 1;
      LeaseRowsAt(s, rows[..n], w, now, until, id);
      LeaseRowAt(LeaseRows(s, rows[..n], w, now, until), rows[n], w, now, until, id);
      if id in s.jobs { LeasedOnce(s.jobs[id], id in rows[..n], id == rows[n], w, now, until); }
      assert id in rows <==> id in rows[..n] || id == rows[n];
      hide LeaseRow, LeasedIf;
    } else {
      hide Lease;
    }
  }

  lemma LeaseRowsAll(s: Store, rows: seq<DraftId>, w: string, now: Time, until: Time)
    requires now < until
    ensures var s' := LeaseRows(s, rows, w, now, until);
            && s' == s.(jobs := s'.jobs) && s'.jobs.Keys == s.jobs.Keys
            && (forall id | id in s.jobs :: s'.jobs[id] == LeasedIf(s.jobs[id], id in rows, w, now, until))
  {
    LeaseRowsAt(s, rows, w, now, until, "");
    forall id | id in s.jobs ensures
      LeaseRows(s, rows, w, now, until).jobs[id] == LeasedIf(s.jobs[id], id in rows, w, now, until)
    {
      LeaseRowsAt(s, rows, w, now, until, id);
    }
  }

  lemma LeaseJobInv(s: Store, s': Store, rows: seq<DraftId>, w: string, now: Time, until: Time)
    requires JobInv(s) && w != "" && s' == s.(jobs := s'.jobs) && s'.jobs.Keys == s.jobs.Keys
    requires forall id | id in s.jobs :: s'.jobs[id] == LeasedIf(s.jobs[id], id in rows, w, now, until)
    ensures JobInv(s')
  {
  }

  /** Leasing keeps every invariant. */
  lemma LeaseKeeps(s: Store, rows: seq<DraftId>, c: WorkerConfig, now: Time)
    requires StoreInv(s) && c.Clamped() && c.workerId != ""
    ensures var s' := LeaseRows(s, rows, c.workerId, now, now + c.leaseMs); StoreInv(s') && Extends(s, s')
  {
    hide LogInv, UsesInv, RowInv, JobInv, Extends;
    LeaseRowsAll(s, rows, c.workerId, now, now + c.leaseMs);
    var s' := LeaseRows(s, rows, c.workerId, now, now + c.leaseMs);
    SameButJobs(s, s');
    LeaseJobInv(s, s', rows, c.workerId, now, now + c.leaseMs);
  }

  /** A claim takes every row it selected, only rows nobody holds, and leaves all other rows alone. */
  lemma LeaseTakes(s: Store, rows: seq<DraftId>, c: WorkerConfig, now: Time, limit: int)
    requires c.Clamped() && DueAnswer(s, now, limit, rows)
    ensures var s' := LeaseRows(s, rows, c.workerId, now, now + c.leaseMs);
            && s'.jobs.Keys == s.jobs.Keys
            && (forall id | id in rows ::
                  id in s.jobs && s'.jobs[id] == Lease(s.jobs[id], c.workerId, now + c.leaseMs))
            && (forall id | id in s.jobs && id !in rows :: s'.jobs[id] == s.jobs[id])
            && (forall id | id in rows && s.jobs[id].state.Leased? :: s.jobs[id].leaseExpiresAt.value <= now)
  {
    LeaseRowsAll(s, rows, c.workerId, now, now + c.leaseMs);
    hide LeaseRows, Lease;
    forall id | id in rows ensures Due(s, id, now) {
    }
    hide DueAnswer;
  }

  lemma SameButJobs(s: Store, s': Store)
    requires s' == s.(jobs := s'.jobs)
    ensures LogInv(s) ==> LogInv(s')
    ensures UsesInv(s) ==> UsesInv(s')
    ensures RowInv(s) ==> RowInv(s')
    ensures Extends(s, s')
  {
  }

  /** A due draft is leased by whichever worker asks next, unless older jobs fill its batch. */
  lemma DueIsLeased(s: Store, rows: seq<DraftId>, c: WorkerConfig, now: Time, limit: int, id: DraftId)
    requires c.Clamped() && DueAnswer(s, now, limit, rows) && Due(s, id, now)
    ensures var s' := LeaseRows(s, rows, c.workerId, now, now + c.leaseMs);
            || (id in s'.jobs && s'.jobs[id] == Lease(s.jobs[id], c.workerId, now + c.leaseMs))
            || (|rows| == ClampLimit(limit) && forall x | x in rows :: Before(s.jobs[x], s.jobs[id]))
  {
    LeaseTakes(s, rows, c, now, limit);
  }

  // ---------- Enqueueing ----------

  /**
   Enqueueing a draft in flight again and again is safe: a leased or complete job keeps everything but its failure
   code, a waiting or new one is due at once, no other job is touched, and doing it twice changes nothing more.
   */
  lemma EnqueueDisturbsNobody(s: Store, id: DraftId, failureCode: string, now: Time)
    requires JobInv(s) && s.hasQueue && id in s.drafts && s.drafts[id].status.Sending?
    ensures var s' := Enqueue(s, id, failureCode, now);
            && JobInv(s') && s'.drafts == s.drafts && s'.jobs.Keys == s.jobs.Keys + {id}
            && (forall x | x in s.jobs && x != id :: s'.jobs[x] == s.jobs[x])
            && (id in s.jobs && !s.jobs[id].state.Pending? ==>
                  exists code :: s'.jobs[id] == s.jobs[id].(lastFailureCode := code))
            && (id !in s.jobs || s.jobs[id].state.Pending? ==> Due(s', id, now))
            && (id in s.jobs ==>
                  s'.jobs[id].attemptCount == s.jobs[id].attemptCount && s'.jobs[id].createdAt == s.jobs[id].createdAt)
            && (failureCode != "" ==> s'.jobs[id].lastFailureCode == failureCode)
            && (failureCode == "" && id in s.jobs ==> s'.jobs[id].lastFailureCode == s.jobs[id].lastFailureCode)
            && Enqueue(s', id, failureCode, now) == s'
  {
    EnqueueKeepsJobs(s, id, failureCode, now);
    hide JobInv;
    if id in s.jobs { RequeuedTwice(s.jobs[id], failureCode, now); }
    var s' := Enqueue(s, id, failureCode, now);
    assert s'.jobs[id := s'.jobs[id]] == s'.jobs;
  }

  lemma EnqueueKeepsJobs(s: Store, id: DraftId, failureCode: string, now: Time)
    requires JobInv(s) && s.hasQueue && id in s.drafts && s.drafts[id].status.Sending?
    ensures JobInv(Enqueue(s, id, failureCode, now))
  {
    if id in s.jobs { RequeuedLease(s.jobs[id], failureCode, now); }
    hide Requeued;
  }

  lemma RequeuedTwice(j: Job, failureCode: string, now: Time)
    ensures var k := Requeued(j, failureCode, now);
            && Requeued(k, failureCode, now) == k && k.state == j.state
            && k.attemptCount == j.attemptCount && k.createdAt == j.createdAt
            && k.lastFailureCode == (if failureCode != "" then failureCode else j.lastFailureCode)
            && (!j.state.Pending? ==> k == j.(lastFailureCode := k.lastFailureCode))
            && (j.state.Pending? ==> k.nextAttemptAt == now)
  {
  }

  // ---------- Releasing ----------

  lemma ReleaseKeeps(s: Store, id: DraftId, c: WorkerConfig, attemptCount: nat, o: Outcome, now: Time)
    requires StoreInv(s) && c.workerId != "" && s.hasQueue
    requires o.Receipt() ==> id in s.drafts && s.drafts[id].status.Sent?
    ensures var s' := ReleaseJob(s, id, c, attemptCount, o, now); StoreInv(s') && Extends(s, s')
  {
    SameButJobs(s, ReleaseJob(s, id, c, attemptCount, o, now));
    ReleaseJobInv(s, id, c, attemptCount, o, now);
    hide LogInv, UsesInv, RowInv, JobInv, Extends, BackoffDelay, WorkerFailureCode;
  }

  lemma ReleaseJobInv(s: Store, id: DraftId, c: WorkerConfig, attemptCount: nat, o: Outcome, now: Time)
    requires JobInv(s) && c.workerId != "" && s.hasQueue
    requires o.Receipt() ==> id in s.drafts && s.drafts[id].status.Sent?
    ensures JobInv(ReleaseJob(s, id, c, attemptCount, o, now))
  {
    hide BackoffDelay, WorkerFailureCode;
  }

  /**
   Whether a release without a receipt can reopen a complete job depends on the worker's id alone:
   complete jobs carry the empty owner, so exactly the empty id matches them.
   */
  lemma ReleaseReopensIffNameless(s: Store, id: DraftId, c: WorkerConfig, attemptCount: nat, o: Outcome, now: Time)
    requires JobInv(s) && s.hasQueue && id in s.jobs && s.jobs[id].state.Complete? && !o.Receipt()
    ensures ReleaseJob(s, id, c, attemptCount, o, now).jobs[id].state.Complete? <==> c.workerId != ""
  {
  }

  // ---------- How long a draft can wait ----------

  /** An upsert, an outcome or a release never schedules a job beyond the longest backoff. */
  lemma LeaseDue(s: Store, rows: seq<DraftId>, c: WorkerConfig, now: Time, maxBackoff: int, maxLease: int)
    requires DueInv(s, now, maxBackoff, maxLease) && c.Clamped() && c.leaseMs <= maxLease
    ensures DueInv(LeaseRows(s, rows, c.workerId, now, now + c.leaseMs), now, maxBackoff, maxLease)
  {
    LeaseRowsAll(s, rows, c.workerId, now, now + c.leaseMs);
  }

  lemma ReleaseDue(s: Store, id: DraftId, c: WorkerConfig, attemptCount: nat, o: Outcome, started: Time, now: Time,
                   maxBackoff: int, maxLease: int)
    requires DueInv(s, now, maxBackoff, maxLease) && c.Clamped() && c.maxBackoffMs <= maxBackoff && started <= now
    ensures DueInv(ReleaseJob(s, id, c, attemptCount, o, started), now, maxBackoff, maxLease)
  {
    if id in s.jobs {
      ReleasedWaits(s.jobs[id], c, attemptCount, o, started, now, maxBackoff, maxLease);
      hide Released, WaitsWithin, WorkerConfig.Clamped;
    }
  }

  lemma ReleasedWaits(j: Job, c: WorkerConfig, attemptCount: nat, o: Outcome, started: Time, now: Time,
                      maxBackoff: int, maxLease: int)
    requires c.Clamped() && c.maxBackoffMs <= maxBackoff && started <= now
    ensures WaitsWithin(Released(j, c, attemptCount, o, started), now, maxBackoff, maxLease)
  {
    BackoffBounded(c, attemptCount, attemptCount);
    hide BackoffDelay, WorkerFailureCode, WorkerConfig.Clamped, Outcome.Receipt;
  }

  lemma OneJobDue(s: Store, s': Store, id: DraftId, now: Time, maxBackoff: int, maxLease: int)
    requires DueInv(s, now, maxBackoff, maxLease) && id in s'.jobs && s'.jobs == s.jobs[id := s'.jobs[id]]
    requires WaitsWithin(s'.jobs[id], now, maxBackoff, maxLease)
    ensures DueInv(s', now, maxBackoff, maxLease)
  {
  }

  lemma RecordDue(s: Store, now: Time, id: DraftId, o: Outcome, maxBackoff: int, maxLease: int)
    requires DueInv(s, now, maxBackoff, maxLease) && 0 <= maxBackoff
    ensures var r := RecordOutcome(s, now, id, o); r.Done? ==> DueInv(r.store, now, maxBackoff, maxLease)
  {
    RecordedWaits(s, now, id, o, maxBackoff, maxLease);
    hide RecordOutcome, WaitsWithin;
    var r := RecordOutcome(s, now, id, o);
    if r.Done? && r.store.jobs != s.jobs { OneJobDue(s, r.store, id, now, maxBackoff, maxLease); }
  }

  lemma RecordedWaits(s: Store, now: Time, id: DraftId, o: Outcome, maxBackoff: int, maxLease: int)
    requires DueInv(s, now, maxBackoff, maxLease) && 0 <= maxBackoff
    ensures var r := RecordOutcome(s, now, id, o);
      r.Done? ==>
        || r.store.jobs == s.jobs
        || (&& id in r.store.jobs && r.store.jobs == s.jobs[id := r.store.jobs[id]]
            && WaitsWithin(r.store.jobs[id], now, maxBackoff, maxLease))
  {
    if id in s.jobs { RequeuedWaits(s.jobs[id], o.failureCode, now, maxBackoff, maxLease); }
    hide ValidFailureCode, Requeued;
  }

  lemma RequeuedWaits(j: Job, failureCode: string, now: Time, maxBackoff: int, maxLease: int)
    requires WaitsWithin(j, now, maxBackoff, maxLease) && 0 <= maxBackoff
    ensures WaitsWithin(Requeued(j, failureCode, now), now, maxBackoff, maxLease)
  {
  }

  /** A draft in flight always has a job that is due within the longest backoff or lease from now. */
  lemma WaitBounded(s: Store, now: Time, maxBackoff: int, maxLease: int, id: DraftId)
    requires JobInv(s) && s.hasQueue && DueInv(s, now, maxBackoff, maxLease)
    requires id in s.drafts && s.drafts[id].status.Sending? && 0 <= maxBackoff && 0 <= maxLease
    ensures Due(s, id, now + if maxBackoff < maxLease then maxLease else maxBackoff)
  {
  }
}
