/** Progress: a draft in flight whose message is in Sent Items can always be recorded as sent by the worker. */
module SendProgress {
  import opened Wrappers
  import opened SendStore
  import opened SendQueue
  import opened SendProtocol
  import opened SendTheorems
  import opened SendExclusion

  function Longest(lim: Limits): nat { if lim.maxBackoff < lim.maxLease then lim.maxLease else lim.maxBackoff }

  /** A worker that may ask for due jobs under these limits. */
  predicate MayClaim(lim: Limits, c: WorkerConfig)
  {
    c.Clamped() && c.workerId != "" && c.maxBackoffMs <= lim.maxBackoff && c.leaseMs <= lim.maxLease
  }

  /** The draft's own message, with an id that can be recorded. */
  predicate Findable(w: World, id: DraftId, i: nat)
  {
    i < |w.mailbox| && w.mailbox[i].header == id && 1 <= |w.mailbox[i].id| <= 2048
  }

  predicate InFlight(s: Store, id: DraftId) { id in s.drafts && s.drafts[id].status.Sending? }

  lemma Claimed(lim: Limits, w: World, id: DraftId, c: WorkerConfig, limit: int, rows: seq<DraftId>, t: nat)
    requires MayClaim(lim, c) && DueAnswer(w.store, w.now, limit, rows) && id in rows && t !in w.tasks
    ensures var w' := Apply(lim, w, ClaimDue(c, limit, rows, map[t := id]));
            && w'.store.drafts == w.store.drafts && w'.mailbox == w.mailbox
            && t in w'.tasks && w'.tasks[t].draftId == id && w'.tasks[t].role.Worker? && w'.tasks[t].phase.Scanning?
  {
    var newTasks := map[t := id];
    MayClaimOne(lim, w, id, c, limit, rows, t);
    hide MayClaim, DueAnswer, LeaseRows, CanClaimDue, Apply, WorkerTasks;
    ClaimApplies(lim, w, c, limit, rows, newTasks);
    NewTask(w, c, id, t);
    DraftsStay(w.store, rows, c.workerId, w.now, w.now + c.leaseMs);
    AddTasks(w.tasks, WorkerTasks(w, c, newTasks), t);
  }

  lemma DraftsStay(s: Store, rows: seq<DraftId>, workerId: string, now: Time, until: Time)
    requires now < until
    ensures LeaseRows(s, rows, workerId, now, until).drafts == s.drafts
  {
    LeaseRowsAt(s, rows, workerId, now, until, "");
    hide LeaseRows;
  }

  lemma AddTasks(tasks: map<nat, Task>, added: map<nat, Task>, t: nat)
    requires t in added
    ensures t in tasks + added && (tasks + added)[t] == added[t]
  {
  }

  lemma MayClaimOne(lim: Limits, w: World, id: DraftId, c: WorkerConfig, limit: int, rows: seq<DraftId>, t: nat)
    requires MayClaim(lim, c) && DueAnswer(w.store, w.now, limit, rows) && id in rows && t !in w.tasks
    ensures CanClaimDue(lim, w, c, limit, rows, map[t := id]) && id in w.store.jobs && c.leaseMs > 0
  {
    assert Due(w.store, id, w.now);
    hide DueAnswer, Due;
  }

  lemma NewTask(w: World, c: WorkerConfig, id: DraftId, t: nat)
    requires id in w.store.jobs
    ensures var added := WorkerTasks(w, c, map[t := id]);
            t in added && added[t] == Task(Worker(c, w.store.jobs[id].attemptCount, w.now + c.leaseMs), id, Scanning)
  {
  }

  lemma FoundHeld(lim: Limits, w: World, id: DraftId, t: nat, i: nat)
    requires t in w.tasks && w.tasks[t].draftId == id && w.tasks[t].phase.Scanning? && Findable(w, id, i)
    ensures Apply(lim, w, ScanFound(t, i))
         == SetPhase(w, t, Holding(Outcome(w.mailbox[i].id, At(w.mailbox[i].sentAt), "", false)))
  {
  }

  lemma HeldRecorded(lim: Limits, w: World, id: DraftId, t: nat, o: Outcome)
    requires t in w.tasks && w.tasks[t].draftId == id && w.tasks[t].role.Worker? && w.tasks[t].phase == Holding(o)
    requires InFlight(w.store, id) && 1 <= |o.graphMessageId| <= 2048 && o.sentAt.At?
    ensures var w' := Apply(lim, w, Record(t));
            && id in w'.store.drafts && w'.store.drafts[id].status.Sent?
            && w'.store.drafts[id].graphMessageId == Some(o.graphMessageId)
  {
    assert o.Receipt() && WorkerOutcome(o) == o;
    ReceiptRecorded(w.store, w.now, id, o);
    hide RecordOutcome, WorkerOutcome;
    assert Apply(lim, w, Record(t)) == RecordStep(w, t, o);
  }

  lemma ReceiptRecorded(s: Store, now: Time, id: DraftId, o: Outcome)
    requires InFlight(s, id) && o.Receipt() && |o.graphMessageId| <= 2048 && o.sentAt.At?
    ensures var r := RecordOutcome(s, now, id, o);
            && r.Done? && id in r.store.drafts && r.store.drafts[id].status.Sent?
            && r.store.drafts[id].graphMessageId == Some(o.graphMessageId)
  {
  }

  /** The worker's way from a due job to a recorded receipt. */
  function Finding(c: WorkerConfig, limit: int, rows: seq<DraftId>, id: DraftId, t: nat, i: nat): seq<Step>
  {
    [ClaimDue(c, limit, rows, map[t := id]), ScanFound(t, i), Record(t)]
  }

  lemma RunThree(lim: Limits, w: World, a: Step, b: Step, c: Step)
    ensures Run(lim, w, [a, b, c]) == Apply(lim, Apply(lim, Apply(lim, w, a), b), c)
  {
    hide Apply;
    OneMore(lim, w, [], a);
    OneMore(lim, w, [a], b);
    OneMore(lim, w, [a, b], c);
    assert [] + [a] == [a] && [a] + [b] == [a, b] && [a, b] + [c] == [a, b, c];
  }

  lemma OneMore(lim: Limits, w: World, steps: seq<Step>, step: Step)
    ensures Run(lim, w, steps + [step]) == Apply(lim, Run(lim, w, steps), step)
  {
    hide Apply;
    assert (steps + [step])[..|steps|] == steps;
  }

  lemma FindingSends(lim: Limits, w: World, id: DraftId, i: nat, c: WorkerConfig, limit: int, rows: seq<DraftId>, t: nat)
    requires MayClaim(lim, c) && DueAnswer(w.store, w.now, limit, rows) && id in rows && t !in w.tasks
    requires InFlight(w.store, id) && Findable(w, id, i)
    ensures var w' := Run(lim, w, Finding(c, limit, rows, id, t, i));
            && id in w'.store.drafts && w'.store.drafts[id].status.Sent?
            && w'.store.drafts[id].graphMessageId == Some(w.mailbox[i].id)
  {
    hide Apply, DueAnswer;
    var w1 := Apply(lim, w, ClaimDue(c, limit, rows, map[t := id]));
    Claimed(lim, w, id, c, limit, rows, t);
    FoundHeld(lim, w1, id, t, i);
    HeldRecorded(lim, Apply(lim, w1, ScanFound(t, i)), id, t,
                 Outcome(w.mailbox[i].id, At(w.mailbox[i].sentAt), "", false));
    RunThree(lim, w, ClaimDue(c, limit, rows, map[t := id]), ScanFound(t, i), Record(t));
  }

  lemma DueLater(lim: Limits, steps: seq<Step>, id: DraftId)
    requires InFlight(Run(lim, INIT, steps).store, id)
    ensures var w, later := Run(lim, INIT, steps), Run(lim, INIT, steps + [Tick(Longest(lim))]);
            later == w.(now := w.now + Longest(lim)) && Due(later.store, id, later.now)
  {
    OneMore(lim, INIT, steps, Tick(Longest(lim)));
    NothingLost(lim, steps, id);
    hide Run;
  }

  /**
   From every reachable world: once the longest backoff and lease have passed, a draft in flight is due.  Any worker
   whose due query then returns it finds its message, if that is in Sent Items, and records it as sent; a query can
   only miss it by returning a full batch of rows that were due before it.
   */
  lemma FoundBecomesSent(lim: Limits, steps: seq<Step>, id: DraftId, i: nat, c: WorkerConfig, limit: int,
                         rows: seq<DraftId>, t: nat)
    requires MayClaim(lim, c) && InFlight(Run(lim, INIT, steps).store, id) && Findable(Run(lim, INIT, steps), id, i)
    requires var later := Run(lim, INIT, steps + [Tick(Longest(lim))]);
             DueAnswer(later.store, later.now, limit, rows) && t !in later.tasks
    ensures var later := Run(lim, INIT, steps + [Tick(Longest(lim))]);
            && Due(later.store, id, later.now)
            && (id !in rows ==>
                  |rows| == ClampLimit(limit)
                  && forall k | 0 <= k < |rows| :: Before(later.store.jobs[rows[k]], later.store.jobs[id]))
            && (id in rows ==>
                  var w' := Run(lim, INIT, steps + [Tick(Longest(lim))] + Finding(c, limit, rows, id, t, i));
                  && id in w'.store.drafts && w'.store.drafts[id].status.Sent?
                  && w'.store.drafts[id].graphMessageId == Some(Run(lim, INIT, steps).mailbox[i].id))
  {
    var w := Run(lim, INIT, steps);
    var later := Run(lim, INIT, steps + [Tick(Longest(lim))]);
    DueLater(lim, steps, id);
    hide Run, DueAnswer, Due, Longest, Before;
    BatchFull(later.store, later.now, limit, rows, id);
    if id in rows {
      FindingSends(lim, later, id, i, c, limit, rows, t);
      RunSplit(lim, INIT, steps + [Tick(Longest(lim))], Finding(c, limit, rows, id, t, i));
    }
  }

  lemma BatchFull(s: Store, now: Time, limit: int, rows: seq<DraftId>, id: DraftId)
    requires DueAnswer(s, now, limit, rows) && Due(s, id, now)
    ensures forall k | 0 <= k < |rows| :: rows[k] in s.jobs
    ensures id !in rows ==>
      |rows| == ClampLimit(limit) && forall k | 0 <= k < |rows| :: Before(s.jobs[rows[k]], s.jobs[id])
  {
    assert forall k | 0 <= k < |rows| :: Due(s, rows[k], now);
  }
}
