/**
 The classes of the send protocol: one SQLite connection with its open frames, and the services that
 run their transactions on it.  SQLite may refuse any statement but a rollback.  Each method is tied to
 the transaction function of `SendStore`, whichever of its statements is refused.
 */
module SendDatabase {
  import opened Wrappers
  import opened SendStore

  /** An open transaction or savepoint and the store it would roll back to. BEGIN opens a nameless one. */
  datatype Frame = Frame(name: string, saved: Store)

  /** The index of the most recent frame with this name, or -1. */
  function LastNamed(frames: seq<Frame>, name: string): (k: int)
    ensures -1 <= k < |frames|
    ensures k >= 0 ==> frames[k].name == name
    ensures forall i | k < i < |frames| :: frames[i].name != name
  {
    if frames == [] then -1
    else if frames[|frames| - 1].name == name then |frames| - 1
    else LastNamed(frames[..|frames| - 1], name)
  }

  class Connection {
    var store: Store
    var frames: seq<Frame>

    /** Whether SQLite carries out the n-th statement; how many were issued and refused, and how many commits were. */
    const answers: nat -> bool
    var statements: nat
    var refused: nat
    var refusedCommits: nat

    constructor (store: Store, answers: nat -> bool)
      ensures this.store == store && this.answers == answers && frames == []
      ensures statements == refused == refusedCommits == 0
    {
      this.store, this.answers := store, answers;
      frames := [];
      statements, refused, refusedCommits := 0, 0, 0;
    }

    /** The statement issued last was the n-th, and `ok` is its answer. */
    predicate Answered(ok: bool, n: nat)
      reads this
    {
      ok == answers(n) && statements == n + 1
    }

    /** One statement: it leaves the store it is meant to leave, or throws and leaves the one it found. */
    method Execute(next: Store) returns (ok: bool)
      modifies this
      ensures Answered(ok, old(statements))
      ensures refused == old(refused) + (if ok then 0 else 1) && refusedCommits == old(refusedCommits)
      ensures store == (if ok then next else old(store)) && frames == old(frames)
    {
      ok := answers(statements);
      statements := statements + 1;
      if ok { store := next; } else { refused := refused + 1; }
    }

    method Begin() returns (ok: bool)
      requires frames == []
      modifies this
      ensures Answered(ok, old(statements))
      ensures store == old(store) && frames == if ok then [Frame("", store)] else []
      ensures refused == old(refused) + (if ok then 0 else 1) && refusedCommits == old(refusedCommits)
    {
      ok := Execute(store);
      if ok { frames := [Frame("", store)]; }
    }

    /** A refused COMMIT leaves the transaction open. */
    method Commit() returns (ok: bool)
      requires frames != []
      modifies this
      ensures Answered(ok, old(statements))
      ensures store == old(store) && frames == if ok then [] else old(frames)
      ensures refused == old(refused) + if ok then 0 else 1
      ensures refusedCommits == old(refusedCommits) + if ok then 0 else 1
    {
      ok := Execute(store);
      if ok { frames := []; } else { refusedCommits := refusedCommits + 1; }
    }

    method Rollback()
      requires frames != []
      modifies this`store, this`frames
      ensures store == old(frames[0].saved) && frames == []
    {
      store, frames := frames[0].saved, [];
    }

    method Savepoint(name: string) returns (ok: bool)
      modifies this
      ensures Answered(ok, old(statements))
      ensures store == old(store) && frames == if ok then old(frames) + [Frame(name, store)] else old(frames)
      ensures refused == old(refused) + (if ok then 0 else 1) && refusedCommits == old(refusedCommits)
    {
      ok := Execute(store);
      if ok { frames := frames + [Frame(name, store)]; }
    }

    method Release(name: string) returns (ok: bool)
      requires LastNamed(frames, name) >= 0
      modifies this
      ensures Answered(ok, old(statements))
      ensures store == old(store) && frames == if ok then old(frames[..LastNamed(frames, name)]) else old(frames)
      ensures refused == old(refused) + if ok then 0 else 1
      ensures refusedCommits == old(refusedCommits) + if ok then 0 else 1
    {
      ok := Execute(store);
      if ok { frames := frames[..LastNamed(frames, name)]; } else { refusedCommits := refusedCommits + 1; }
    }

    /** ROLLBACK TO keeps the savepoint it goes back to; the RELEASE in the same string drops it. */
    method RollbackToAndRelease(name: string)
      requires LastNamed(frames, name) >= 0
      modifies this`store, this`frames
      ensures store == old(frames[LastNamed(frames, name)].saved)
      ensures frames == old(frames[..LastNamed(frames, name)])
    {
      var k := LastNamed(frames, name);
      store, frames := frames[k].saved, frames[..k + 1];
      frames := frames[..k];
    }
  }

  function Digits(n: nat): string
  {
    var last := [('0' as int + n % 10) as char];
    if n < 10 then last else Digits(n / 10) + last
  }

  function Decimal(n: int): string { if n < 0 then "-" + Digits(-n) else Digits(n) }

  /** The number a text of digits stands for. */
  function Numeral(s: string): int
  {
    if s == "" then 0 else 10 * Numeral(s[..|s| - 1]) + (s[|s| - 1] as int - '0' as int)
  }

  /** A savepoint's name says its depth, so savepoints of different depths have different names. */
  lemma {:induction false} DigitsRead(n: nat)
    ensures Numeral(Digits(n)) == n
  {
    var last := [('0' as int + n % 10) as char];
    if n >= 10 {
      DigitsRead(n / 10);
      assert Digits(n) == Digits(n / 10) + last;
    } else {
      assert last[..0] == "";
    }
  }

  /** Code that runs inside transactions: writes, failures, sequences, handlers and nested transactions. */
  datatype Script =
    | Write(update: Store -> Store)
    | Throw
    | Then(first: Script, second: Script)
    | Catch(body: Script, handler: Script)
    | Transaction(operation: Script)

  /** The store a script leaves, whether it ended without an exception, statements issued, and commits refused. */
  datatype Ran = Ran(store: Store, ok: bool, statements: nat, refusedCommits: int)
  {
    function After(earlier: Ran): Ran { this.(refusedCommits := earlier.refusedCommits + refusedCommits) }
  }

  /**
   What a script does from the n-th statement on.  A transaction whose code fails, or whose COMMIT is refused,
   leaves the store it found, whatever ran inside it.
   */
  function Eval(script: Script, s: Store, n: nat, answers: nat -> bool): Ran
  {
    match script
    case Write(update) => Ran(if answers(n) then update(s) else s, answers(n), n + 1, 0)
    case Throw => Ran(s, false, n, 0)
    case Then(first, second) =>
      var r := Eval(first, s, n, answers);
      if r.ok then Eval(second, r.store, r.statements, answers).After(r) else r
    case Catch(body, handler) =>
      var r := Eval(body, s, n, answers);
      if r.ok then r else Eval(handler, r.store, r.statements, answers).After(r)
    case Transaction(operation) =>
      if !answers(n) then Ran(s, false, n + 1, 0)
      else
        var r := Eval(operation, s, n + 1, answers);
        if !r.ok then r.(store := s)
        else if answers(r.statements) then r.(statements := r.statements + 1)
        else Ran(s, false, r.statements + 1, r.refusedCommits + 1)
  }

  /** A refused COMMIT undoes the write and leaves the depth one too low. */
  lemma RefusedCommitDrifts(update: Store -> Store, s: Store)
    ensures Eval(Transaction(Write(update)), s, 0, (n: nat) => n != 2) == Ran(s, false, 3, 1)
  {
    assert Eval(Write(update), s, 1, (n: nat) => n != 2) == Ran(update(s), true, 2, 0);
  }

  /** The result a caller sees agrees with a transaction function: its value and store, or its error and no change. */
  predicate Agrees<T(==)>(e: Effect<T>, before: Store, after: Store, r: Result<T, Code>)
  {
    match e
    case Done(store, value) => after == store && r == Ok(value)
    case Rejected(code) => after == before && r == Err(code)
  }

  /** All or nothing: what the transaction function says when every statement ran, and no change when one was refused. */
  predicate Atomic<T(==)>(ran: bool, e: Effect<T>, before: Store, after: Store, r: Result<T, Code>)
  {
    if ran then Agrees(e, before, after, r) else after == before && r == Err(StatementFailed)
  }

  class MailSendDrafts {
    const db: Connection
    var transactionDepth: int

    constructor (db: Connection)
      ensures this.db == db && transactionDepth == 0
    {
      this.db := db;
      transactionDepth := 0;
    }

    /**
     What the depth counter and the refused commits add up to.  Every call keeps the sum: `transaction` counts a
     refused COMMIT or RELEASE down twice, so the depth is kept exactly when none was refused.
     */
    function Balance(): int
      reads this, db
    {
      transactionDepth + db.refusedCommits
    }

    /** The opening half of `transaction`: BEGIN outside any transaction, a savepoint inside one. */
    method Enter() returns (ok: bool, nested: bool, savepoint: string)
      modifies this, db
      ensures db.store == old(db.store) && db.Answered(ok, old(db.statements))
      ensures Balance() == old(Balance()) + (if ok then 1 else 0) && db.refusedCommits == old(db.refusedCommits)
      ensures db.refused == old(db.refused) + if ok then 0 else 1
      ensures db.frames == old(db.frames) + if ok then [Frame(if nested then savepoint else "", db.store)] else []
      ensures nested == (old(transactionDepth) > 0 || old(db.frames) != [])
      ensures savepoint == "mail_send_draft_" + Decimal(old(transactionDepth) + 1)
    {
      nested := transactionDepth > 0 || db.frames != [];
      savepoint := "mail_send_draft_" + Decimal(transactionDepth + 1);
      if nested { ok := db.Savepoint(savepoint); } else { ok := db.Begin(); }
      if ok { transactionDepth := transactionDepth + 1; }
    }

    /** The closing half: commit what succeeded; roll back after an exception, that of the commit included. */
    method Close<T>(inner: Result<T, Code>, nested: bool, savepoint: string, ghost outer: seq<Frame>,
                    ghost saved: Store) returns (r: Result<T, Code>)
      requires !nested ==> outer == []
      requires db.frames == outer + [Frame(if nested then savepoint else "", saved)]
      modifies this, db
      ensures db.frames == outer && Balance() == old(Balance()) - 1
      ensures db.statements == old(db.statements) + if inner.Ok? then 1 else 0
      ensures inner.Ok? ==> r.Ok? == db.answers(old(db.statements))
      ensures db.refusedCommits == old(db.refusedCommits) + if inner.Ok? && r.Err? then 1 else 0
      ensures r.Ok? ==> r == inner && db.store == old(db.store) && db.refused == old(db.refused)
      ensures r.Err? ==> db.store == saved
      ensures r.Err? && inner.Err? ==> r.error == inner.error && db.refused == old(db.refused)
      ensures r.Err? && inner.Ok? ==> r.error == StatementFailed && db.refused == old(db.refused) + 1
    {
      if inner.Ok? {
        transactionDepth := transactionDepth - 1;
        var ok;
        if nested { ok := db.Release(savepoint); } else { ok := db.Commit(); }
        if ok { return inner; }
      }
      transactionDepth := transactionDepth - 1;
      if nested { db.RollbackToAndRelease(savepoint); } else { db.Rollback(); }
      r := Err(if inner.Err? then inner.error else StatementFailed);
    }

    /** Write one draft row and the event that goes with it; the second statement is issued only after the first. */
    method LogDraft(id: DraftId, d: Draft, actor: string, now: Time, reason: string) returns (ok: bool)
      modifies db
      ensures db.frames == old(db.frames) && db.refusedCommits == old(db.refusedCommits)
      ensures db.refused == old(db.refused) + if ok then 0 else 1
      ensures ok ==> db.store == Log(old(db.store), id, d, actor, now, reason)
    {
      ok := db.Execute(db.store.(drafts := db.store.drafts[id := d]));
      if ok {
        ok := db.Execute(db.store.(events := db.store.events + [Event(id, d.status, actor, now, reason)]));
      }
    }

    /** The upsert of a reconciliation job, a single statement. */
    method EnqueueReconciliation(id: DraftId, failureCode: string, now: Time) returns (ok: bool)
      requires id in db.store.drafts
      modifies db
      ensures db.frames == old(db.frames) && db.refusedCommits == old(db.refusedCommits)
      ensures db.refused == old(db.refused) + if ok then 0 else 1
      ensures ok ==> db.store == Enqueue(old(db.store), id, failureCode, now)
    {
      if !db.store.hasQueue || !db.store.drafts[id].status.Sending? { return true; }
      var j := Job(Pending, 0, now, "", None, failureCode, now);
      if id in db.store.jobs {
        j := db.store.jobs[id];
        if failureCode != "" { j := j.(lastFailureCode := failureCode); }
        if !j.state.Complete? && !j.state.Leased? {
          j := j.(state := Pending, nextAttemptAt := now, leaseOwner := "", leaseExpiresAt := None);
        }
      }
      ok := db.Execute(db.store.(jobs := db.store.jobs[id := j]));
    }

    method Create(now: Time, input: NewDraft, newId: DraftId, sourceKnown: bool, assetsBound: bool)
        returns (r: Result<Created, Code>)
      modifies this, db
      ensures Balance() == old(Balance()) && db.frames == old(db.frames) && db.refused >= old(db.refused)
      ensures Atomic(db.refused == old(db.refused),
                     SendStore.Create(old(db.store), now, input, newId, sourceKnown, assetsBound),
                     old(db.store), db.store, r)
    {
      var ok, nested, savepoint := Enter();
      if !ok { return Err(StatementFailed); }
      var key := (input.source, input.requestId);
      if input.messageId.Some? && !sourceKnown {
        r := Err(SourceMessageNotFound);
      } else if !assetsBound {
        r := Err(AssetNotFound);
      } else if key in db.store.requests && db.store.requests[key] in db.store.drafts {
        var previous := db.store.requests[key];
        r := if db.store.drafts[previous].digest != input.digest then Err(IdempotencyConflict)
             else Ok(Created(previous, true));
      } else if newId in db.store.drafts || key in db.store.requests {
        r := Err(ConstraintViolation);
      } else {
        var status := NeedsClarification;
        if input.to != [] && input.subject != "" && !Blank(input.userBody) && !BodyNeedsClarification(input.userBody) {
          status := NeedsApproval;
        }
        var payload := Payload(input.to, input.cc, input.subject, input.userBody + input.appendix,
                               input.messageId, input.attachments);
        var d := Draft(input.source, input.requestId, payload, input.digest, status, None, None, None, None, None);
        ok := db.Execute(db.store.(drafts := db.store.drafts[newId := d], requests := db.store.requests[key := newId]));
        if ok {
          ok := db.Execute(db.store.(events := db.store.events + [Event(newId, status, input.source, now, "")]));
        }
        r := if ok then Ok(Created(newId, false)) else Err(StatementFailed);
      }
      r := Close(r, nested, savepoint, old(db.frames), old(db.store));
    }

    method Approve(now: Time, id: DraftId, a: Approval) returns (r: Result<Draft, Code>)
      modifies this, db
      ensures Balance() == old(Balance()) && db.frames == old(db.frames) && db.refused >= old(db.refused)
      ensures Atomic(db.refused == old(db.refused), SendStore.Approve(old(db.store), now, id, a),
                     old(db.store), db.store, r)
    {
      if !a.allowSend { return Err(MailSendDisabled); }
      if !a.hasSendScope { return Err(MailSendScopeRequired); }
      if !ApproverAccepted(a) { return Err(HumanApprovalRequired); }
      var ok, nested, savepoint := Enter();
      if !ok { return Err(StatementFailed); }
      if id !in db.store.drafts {
        r := Err(DraftNotFound);
      } else {
        var d := db.store.drafts[id];
        if a.digest != d.digest {
          r := Err(DraftDigestMismatch);
        } else if !a.recipientsAllowed {
          r := Err(RecipientNotAllowed);
        } else if !FrozenAssetsIntact(db.store, d) {
          r := Err(AssetChanged);
        } else if d.status.Approved? || d.status.Sending? || d.status.Sent? {
          r := Ok(d);
        } else if BodyNeedsClarification(d.payload.bodyText) {
          r := Err(Code.DraftNeedsClarification);
        } else if !d.status.NeedsApproval? {
          r := Err(DraftNotApprovable);
        } else {
          d := d.(status := Approved, approvedAt := Some(now), approvedBy := Some(a.actor));
          ok := LogDraft(id, d, a.actor, now, "");
          r := if ok then Ok(d) else Err(StatementFailed);
        }
      }
      r := Close(r, nested, savepoint, old(db.frames), old(db.store));
    }

    method Claim(now: Time, id: DraftId) returns (r: Result<bool, Code>)
      modifies this, db
      ensures Balance() == old(Balance()) && db.frames == old(db.frames) && db.refused >= old(db.refused)
      ensures Atomic(db.refused == old(db.refused), SendStore.Claim(old(db.store), now, id),
                     old(db.store), db.store, r)
    {
      var ok, nested, savepoint := Enter();
      if !ok { return Err(StatementFailed); }
      if id !in db.store.drafts {
        r := Err(DraftNotFound);
      } else {
        var d := db.store.drafts[id];
        if !d.status.Approved? {
          r := Ok(false);
        } else if !FrozenAssetsIntact(db.store, d) {
          r := Err(AssetChanged);
        } else {
          ok := LogDraft(id, d.(status := Sending), MAIL_INTELLIGENCE, now, "");
          if ok { ok := EnqueueReconciliation(id, "", now); }
          r := if ok then Ok(true) else Err(StatementFailed);
        }
      }
      r := Close(r, nested, savepoint, old(db.frames), old(db.store));
    }

    method Cancel(now: Time, id: DraftId, actor: string, reason: string) returns (r: Result<Draft, Code>)
      modifies this, db
      ensures Balance() == old(Balance()) && db.frames == old(db.frames) && db.refused >= old(db.refused)
      ensures Atomic(db.refused == old(db.refused), SendStore.Cancel(old(db.store), now, id, actor, reason),
                     old(db.store), db.store, r)
    {
      var systemReply := SystemReply(actor, reason);
      if !systemReply && !SessionActor(actor) { return Err(HumanApprovalRequired); }
      var ok, nested, savepoint := Enter();
      if !ok { return Err(StatementFailed); }
      if id !in db.store.drafts {
        r := Err(DraftNotFound);
      } else {
        var d := db.store.drafts[id];
        if d.status.Cancelled? || (systemReply && !d.status.InReview()) {
          r := Ok(d);
        } else if !d.status.InReview() && !d.status.Approved? {
          r := Err(DraftNotCancellable);
        } else {
          d := d.(status := Cancelled);
          ok := LogDraft(id, d, actor, now, reason);
          r := if ok then Ok(d) else Err(StatementFailed);
        }
      }
      r := Close(r, nested, savepoint, old(db.frames), old(db.store));
    }

    method Restore(now: Time, id: DraftId, actor: string) returns (r: Result<Draft, Code>)
      modifies this, db
      ensures Balance() == old(Balance()) && db.frames == old(db.frames) && db.refused >= old(db.refused)
      ensures Atomic(db.refused == old(db.refused), SendStore.Restore(old(db.store), now, id, actor),
                     old(db.store), db.store, r)
    {
      if !SessionActor(actor) { return Err(HumanApprovalRequired); }
      var ok, nested, savepoint := Enter();
      if !ok { return Err(StatementFailed); }
      if id !in db.store.drafts {
        r := Err(DraftNotFound);
      } else {
        var d := db.store.drafts[id];
        if !d.status.Cancelled? || !IsSystemCancelled(db.store, id) {
          r := Err(DraftNotRestorable);
        } else {
          d := d.(status := PriorReviewStatus(db.store, id));
          ok := LogDraft(id, d, actor, now, RESTORED_REASON);
          r := if ok then Ok(d) else Err(StatementFailed);
        }
      }
      r := Close(r, nested, savepoint, old(db.frames), old(db.store));
    }

    /** A confirmed outcome: the draft row, its event and the queue row. */
    method RecordReceipt(now: Time, id: DraftId, d: Draft) returns (ok: bool)
      modifies db
      ensures db.frames == old(db.frames) && db.refusedCommits == old(db.refusedCommits)
      ensures db.refused == old(db.refused) + if ok then 0 else 1
      ensures ok ==> db.store == CompleteJob(Log(old(db.store), id, d, MAIL_INTELLIGENCE, now, ""), id)
    {
      ok := LogDraft(id, d, MAIL_INTELLIGENCE, now, "");
      if ok && db.store.hasQueue {
        var jobs := db.store.jobs;
        if id in jobs {
          jobs := jobs[id := jobs[id].(state := Complete, leaseOwner := "", leaseExpiresAt := None)];
        }
        ok := db.Execute(db.store.(jobs := jobs));
      }
    }

    method RecordOutcome(now: Time, id: DraftId, o: Outcome) returns (r: Result<Draft, Code>)
      modifies this, db
      ensures Balance() == old(Balance()) && db.frames == old(db.frames) && db.refused >= old(db.refused)
      ensures Atomic(db.refused == old(db.refused), SendStore.RecordOutcome(old(db.store), now, id, o),
                     old(db.store), db.store, r)
    {
      var ok, nested, savepoint := Enter();
      if !ok { return Err(StatementFailed); }
      if id !in db.store.drafts {
        r := Err(DraftNotFound);
      } else {
        var d := db.store.drafts[id];
        if d.status.Sent? {
          r := Ok(d);
        } else if !d.status.Sending? {
          r := Err(DraftNotSending);
        } else if o.Receipt() {
          if |o.graphMessageId| > 2048 || !o.sentAt.At? {
            r := Err(InvalidReceipt);
          } else {
            d := d.(status := Sent, graphMessageId := Some(o.graphMessageId), sentAt := Some(o.sentAt.t),
                    failureReason := None);
            ok := RecordReceipt(now, id, d);
            r := if ok then Ok(d) else Err(StatementFailed);
          }
        } else if !ValidFailureCode(o.failureCode) {
          r := Err(InvalidFailureCode);
        } else {
          d := d.(status := if o.uncertain then Sending else Failed, failureReason := Some(o.failureCode));
          ok := LogDraft(id, d, MAIL_INTELLIGENCE, now, o.failureCode);
          if ok && o.uncertain { ok := EnqueueReconciliation(id, o.failureCode, now); }
          r := if ok then Ok(d) else Err(StatementFailed);
        }
      }
      r := Close(r, nested, savepoint, old(db.frames), old(db.store));
    }

    /** The transaction of the approve route, on nested frames: a failing approval gives the receipt item back. */
    method ApproveRoute(now: Time, id: DraftId, gate: Gate, request: Approval) returns (r: Result<bool, Code>)
      modifies this, db
      ensures Balance() == old(Balance()) && db.frames == old(db.frames) && db.refused >= old(db.refused)
      ensures Atomic(db.refused == old(db.refused), ApproveAndClaim(old(db.store), now, id, gate, request),
                     old(db.store), db.store, r)
      ensures r.Ok? && gate.Receipt? ==> gate.valid
    {
      hide SendStore.Approve, SendStore.Claim;
      if id !in db.store.drafts { return Err(DraftNotFound); }
      var ok, nested, savepoint := Enter();
      if !ok { return Err(StatementFailed); }
      var item := (if gate.Receipt? then gate.receiptId else "", ItemDigest(db.store.drafts[id]));
      if gate.Receipt? && !gate.valid {
        r := Err(ReceiptInvalid);
      } else if gate.Receipt? && item in db.store.uses {
        r := Err(ReceiptAlreadyUsed);
      } else {
        if gate.Receipt? { ok := db.Execute(db.store.(uses := db.store.uses[item := id])); }
        if !ok {
          r := Err(StatementFailed);
        } else {
          var a := request.(actor := GateActor(gate, request.actor), receiptVerified := gate.Receipt?);
          var approved := Approve(now, id, a);
          if approved.Err? {
            r := Err(approved.error);
          } else {
            r := Claim(now, id);
          }
        }
      }
      r := Close(r, nested, savepoint, old(db.frames), old(db.store));
    }

    /**
     `transaction` at every nesting depth: running a script on savepoints has exactly the all-or-nothing
     meaning of `Eval`, and always restores the frames it started with.  The depth falls by the number of
     refused commits.
     */
    method Run(script: Script) returns (ok: bool)
      modifies this, db
      ensures db.frames == old(db.frames)
      ensures Ran(db.store, ok, db.statements, old(transactionDepth) - transactionDepth)
              == Eval(script, old(db.store), old(db.statements), db.answers)
      decreases script
    {
      match script
      case Write(update) => ok := db.Execute(update(db.store));
      case Throw => ok := false;
      case Then(first, second) =>
        ok := Run(first);
        if ok { ok := Run(second); }
      case Catch(body, handler) =>
        ok := Run(body);
        if !ok { ok := Run(handler); }
      case Transaction(operation) =>
        var entered, nested, savepoint := Enter();
        if !entered { return false; }
        ok := Run(operation);
        var closed := Close(if ok then Ok(()) else Err(StatementFailed), nested, savepoint, old(db.frames), old(db.store));
        ok := closed.Ok?;
    }
  }
}
