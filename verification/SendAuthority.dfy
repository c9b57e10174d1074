/**
 Who may move a draft, and from what to what: each step's conditions in the terms of its caller, necessary and
 sufficient, and what they give for whole runs.
 */
module SendAuthority {
  import opened Wrappers
  import opened SendStore
  import opened SendLifecycle
  import opened SendProtocol
  import opened SendQueue
  import opened SendTheorems

  // ---------- Texts ----------

  const WHITE := {'\t', '\n', '\U{0B}', '\U{0C}', '\r', ' ', '\U{A0}', '\U{1680}', '\U{2000}', '\U{2001}', '\U{2002}',
                  '\U{2003}', '\U{2004}', '\U{2005}', '\U{2006}', '\U{2007}', '\U{2008}', '\U{2009}', '\U{200A}',
                  '\U{2028}', '\U{2029}', '\U{202F}', '\U{205F}', '\U{3000}', '\U{FEFF}'}

  /** Somewhere in the text a slot is still open. */
  ghost predicate HoldsSlot(text: string) { exists k :: 0 <= k <= |text| && "{확인 필요}" <= text[k..] }

  lemma {:induction false} ContainsIff(text: string, part: string)
    ensures Contains(text, part) <==> exists k :: 0 <= k <= |text| && part <= text[k..]
    decreases |text|
  {
    assert text[0..] == text;
    if part <= text {
    } else if text != [] {
      ContainsIff(text[1..], part);
      if k :| 0 <= k <= |text[1..]| && part <= text[1..][k..] { assert text[1..][k..] == text[k + 1..]; }
      if k :| 0 <= k <= |text| && part <= text[k..] {
        assert text[k..] == text[1..][k - 1..];
      }
    } else {
      assert forall k | 0 <= k <= |text| :: text[k..] == text;
    }
  }

  lemma SlotIff(text: string)
    ensures BodyNeedsClarification(text) <==> HoldsSlot(text)
  {
    ContainsIff(text, "{확인 필요}");
  }

  lemma BlankIff(text: string)
    ensures Blank(text) <==> forall c | c in text :: c in WHITE
  {
    forall c: char ensures IsSpace(c) <==> c in WHITE {
    }
    hide IsSpace;
  }

  /** A draft that a person may approve as it stands. */
  ghost predicate Presentable(to: seq<string>, subject: string, body: string)
  {
    to != [] && subject != "" && (exists c :: c in body && c !in WHITE) && !HoldsSlot(body)
  }

  /** Someone signed in to the user interface. */
  predicate Person(actor: string) { "session:" <= actor && |actor| <= 160 }

  predicate SystemPair(actor: string, reason: string)
  {
    || (actor == "system:already-replied" && reason == "이미 회신함")
    || (actor == "system:handled-elsewhere" && reason == "외부에서 회신함")
  }

  /** The shape of a failure code. */
  predicate CodeShape(code: string)
  {
    && 3 <= |code| <= 80 && 'A' <= code[0] <= 'Z'
    && forall k | 0 <= k < |code| :: 'A' <= code[k] <= 'Z' || '0' <= code[k] <= '9' || code[k] == '_'
  }

  // ---------- What each step asks for ----------

  /** Every attachment that is on file is as it was frozen, scanned under the current policy. */
  ghost predicate AssetsReady(s: Store, d: Draft)
  {
    forall k | 0 <= k < |d.payload.attachments| && d.payload.attachments[k].assetId in s.assets ::
      var row := s.assets[d.payload.attachments[k].assetId];
      && row.ready && row.scanPolicyCurrent
      && row.current.name == d.payload.attachments[k].frozen.name
      && row.current.mime == d.payload.attachments[k].frozen.mime
      && row.current.size == d.payload.attachments[k].frozen.size
      && row.current.sha256 == d.payload.attachments[k].frozen.sha256
  }

  /** Sending is allowed and in scope, for this very content, to these recipients, with these attachments. */
  ghost predicate Warrant(s: Store, d: Draft, a: Approval)
  {
    && a.allowSend && a.hasSendScope && a.recipientsAllowed && a.digest == d.digest && AssetsReady(s, d)
    && (d.status.NeedsApproval? ==> !HoldsSlot(d.payload.bodyText))
  }

  /** The approver: a person, or a receipt that passed its checks and whose item is unused. */
  predicate Approver(s: Store, d: Draft, gate: Gate, a: Approval)
  {
    match gate
    case NoReceipt => Person(a.actor)
    case Receipt(receiptId, valid) =>
      valid && |receiptId| + |"jarvis-receipt:"| <= 160 && (receiptId, "sha256:" + d.digest) !in s.uses
  }

  predicate ReceiptOf(o: Outcome) { o.graphMessageId != "" && !o.sentAt.Absent? }

  /** The step moves the draft to this status, which it did not have. */
  ghost predicate Moves(w: World, step: Step, id: DraftId, to: Status)
  {
    var s := w.store;
    match step
    case CreateDraft(input, newId, sourceKnown, assetsBound) =>
      id == newId && CreatesRow(s, input, newId, sourceKnown, assetsBound) && to == FirstStatus(input)
    case ApproveDraft(x, a) =>
      && x == id && id in s.drafts && s.drafts[id].status.NeedsApproval? && to.Approved?
      && Warrant(s, s.drafts[id], a) && Person(a.actor)
    case ClaimDraft(x, t) =>
      && x == id && id in s.drafts && s.drafts[id].status.Approved? && to.Sending?
      && AssetsReady(s, s.drafts[id]) && t !in w.tasks
    case ApproveRoute(x, gate, a, t) =>
      && x == id && id in s.drafts && (s.drafts[id].status.NeedsApproval? || s.drafts[id].status.Approved?) && to.Sending?
      && Warrant(s, s.drafts[id], a) && Approver(s, s.drafts[id], gate, a) && t !in w.tasks
    case CancelDraft(x, actor, reason) =>
      && x == id && id in s.drafts && to.Cancelled?
      && if s.drafts[id].status.Approved? then Person(actor) && !SystemPair(actor, reason)
         else s.drafts[id].status.InReview() && (Person(actor) || SystemPair(actor, reason))
    case RestoreDraft(x, actor) =>
      && x == id && id in s.drafts && s.drafts[id].status.Cancelled? && Person(actor)
      && SystemCancelled(s, id) && to == EventsOf(s.events, id)[0].status
    case Record(t) =>
      && t in w.tasks && w.tasks[t].phase.Holding? && w.tasks[t].draftId == id
      && id in s.drafts && s.drafts[id].status.Sending?
      && var o := w.tasks[t].phase.outcome;
         if ReceiptOf(o) then to.Sent? && |o.graphMessageId| <= 2048 && o.sentAt.At?
         else to.Failed? && !w.tasks[t].role.Worker? && !o.uncertain && CodeShape(o.failureCode)
    case _ => false
  }

  /** The draft has this status in the second store, and did not have it in the first. */
  predicate Moved(s: Store, s': Store, id: DraftId, to: Status)
  {
    && id in s'.drafts && s'.drafts[id].status == to
    && (id in s.drafts ==> s.drafts[id].status != to)
  }

  // ---------- One transaction ----------

  lemma AssetsIff(s: Store, d: Draft)
    ensures FrozenAssetsIntact(s, d) <==> AssetsReady(s, d)
  {
    if AssetsReady(s, d) {
      forall a | a in d.payload.attachments && a.assetId in s.assets
        ensures var row := s.assets[a.assetId]; row.ready && row.current == a.frozen && row.scanPolicyCurrent
      {
        var k :| 0 <= k < |d.payload.attachments| && d.payload.attachments[k] == a;
      }
    }
  }

  lemma PersonIff(actor: string)
    ensures SessionActor(actor) <==> Person(actor)
  {
  }

  lemma SystemIff(actor: string, reason: string)
    ensures SystemReply(actor, reason) <==> SystemPair(actor, reason)
    ensures SystemPair(actor, reason) ==> !Person(actor)
  {
    if SystemPair(actor, reason) { assert actor[1] == 'y' && "session:"[1] == 'e'; }
  }

  lemma CodeIff(code: string)
    ensures ValidFailureCode(code) <==> CodeShape(code)
  {
    forall k | 0 <= k < |code| ensures code[k] in code {
    }
    if CodeShape(code) {
      forall c | c in code ensures 'A' <= c <= 'Z' || '0' <= c <= '9' || c == '_' {
        var k :| 0 <= k < |code| && code[k] == c;
      }
    }
  }

  lemma PresentableIff(to: seq<string>, subject: string, body: string)
    ensures Presentable(to, subject, body) <==>
      to != [] && subject != "" && !Blank(body) && !BodyNeedsClarification(body)
  {
    SlotIff(body);
    BlankIff(body);
    hide BodyNeedsClarification, Blank, HoldsSlot, WHITE;
  }

  /** A new row is the input, word for word, and its status says whether it is complete. */
  function NewRow(input: NewDraft, status: Status): Draft
  {
    Draft(input.source, input.requestId,
          Payload(input.to, input.cc, input.subject, input.userBody + input.appendix, input.messageId, input.attachments),
          input.digest, status, None, None, None, None, None)
  }

  ghost predicate CreatesRow(s: Store, input: NewDraft, newId: DraftId, sourceKnown: bool, assetsBound: bool)
  {
    && newId !in s.drafts && (input.messageId.None? || sourceKnown) && assetsBound
    && (input.source, input.requestId) !in s.requests
  }

  ghost function FirstStatus(input: NewDraft): Status
  {
    if Presentable(input.to, input.subject, input.userBody) then NeedsApproval else NeedsClarification
  }

  lemma CreateRow(s: Store, now: Time, input: NewDraft, newId: DraftId, sourceKnown: bool, assetsBound: bool)
    ensures var r := Create(s, now, input, newId, sourceKnown, assetsBound);
            && (CreatesRow(s, input, newId, sourceKnown, assetsBound) ==>
                  && r.Done? && r.value == Created(newId, false)
                  && r.store.drafts == s.drafts[newId := NewRow(input, FirstStatus(input))]
                  && r.store.requests == s.requests[(input.source, input.requestId) := newId]
                  && r.store.events == s.events + [Event(newId, FirstStatus(input), input.source, now, "")])
            && (!CreatesRow(s, input, newId, sourceKnown, assetsBound) && r.Done? ==> r.store == s)
  {
    PresentableIff(input.to, input.subject, input.userBody);
    hide BodyNeedsClarification, Blank, Presentable;
  }

  lemma CreateMoves(s: Store, now: Time, input: NewDraft, newId: DraftId, sourceKnown: bool, assetsBound: bool,
                    id: DraftId, to: Status)
    ensures var r := Create(s, now, input, newId, sourceKnown, assetsBound);
            (r.Done? && Moved(s, r.store, id, to)) <==>
              id == newId && CreatesRow(s, input, newId, sourceKnown, assetsBound) && to == FirstStatus(input)
  {
    CreateRow(s, now, input, newId, sourceKnown, assetsBound);
    hide Create, FirstStatus, CreatesRow;
    if CreatesRow(s, input, newId, sourceKnown, assetsBound) { NewIsNew(s, input, newId, sourceKnown, assetsBound); }
  }

  lemma NewIsNew(s: Store, input: NewDraft, newId: DraftId, sourceKnown: bool, assetsBound: bool)
    requires CreatesRow(s, input, newId, sourceKnown, assetsBound)
    ensures newId !in s.drafts
  {
  }

  lemma NotBoth(actor: string)
    ensures SessionActor(actor) <==> Person(actor)
    ensures "jarvis-receipt:" <= actor ==> !Person(actor) && (ReceiptActor(actor) <==> |actor| <= 160)
  {
    if "jarvis-receipt:" <= actor { assert actor[0] == 'j' && "session:"[0] == 's'; }
  }

  lemma ClaimMoves(s: Store, now: Time, x: DraftId, id: DraftId, to: Status)
    ensures var r := Claim(s, now, x);
            && ((r.Done? && Moved(s, r.store, id, to)) <==>
                  x == id && id in s.drafts && s.drafts[id].status.Approved? && to.Sending? && AssetsReady(s, s.drafts[id]))
            && (r.Done? && r.value ==> x in s.drafts && s.drafts[x].status.Approved?)
  {
    if x in s.drafts { AssetsIff(s, s.drafts[x]); }
    hide FrozenAssetsIntact, AssetsReady, Requeued;
  }

  lemma CancelMoves(s: Store, now: Time, x: DraftId, actor: string, reason: string, id: DraftId, to: Status)
    ensures var r := Cancel(s, now, x, actor, reason);
            (r.Done? && Moved(s, r.store, id, to)) <==>
              && x == id && id in s.drafts && to.Cancelled?
              && if s.drafts[id].status.Approved? then Person(actor) && !SystemPair(actor, reason)
                 else s.drafts[id].status.InReview() && (Person(actor) || SystemPair(actor, reason))
  {
    PersonIff(actor);
    SystemIff(actor, reason);
    hide SessionActor, SystemReply, Person, SystemPair;
  }

  /** The draft was last cancelled for a system reason. */
  ghost predicate SystemCancelled(s: Store, id: DraftId)
  {
    var es := EventsOf(s.events, id);
    && es != []
    && ("system:" <= es[|es| - 1].actor || es[|es| - 1].reason in {"이미 회신함", "외부에서 회신함"})
  }

  lemma RestoreDone(s: Store, now: Time, x: DraftId, actor: string)
    requires LogInv(s)
    ensures var r := Restore(s, now, x, actor);
            && (r.Done? <==> Person(actor) && x in s.drafts && s.drafts[x].status.Cancelled? && SystemCancelled(s, x))
            && (r.Done? ==>
                  && EventsOf(s.events, x) != []
                  && r.store.drafts == s.drafts[x := s.drafts[x].(status := EventsOf(s.events, x)[0].status)]
                  && EventsOf(s.events, x)[0].status.InReview())
  {
    PersonIff(actor);
    if x in s.drafts && s.drafts[x].status.Cancelled? {
      FirstEvent(s, x);
      CancelledLast(s, x);
      PriorReviewIsCreation(s, x);
    }
    hide SessionActor, Person, LogInv, EventsOf, IsSystemCancelled, PriorReviewStatus;
  }

  lemma RestoreMoves(s: Store, now: Time, x: DraftId, actor: string, id: DraftId, to: Status)
    requires LogInv(s)
    ensures var r := Restore(s, now, x, actor);
            (r.Done? && Moved(s, r.store, id, to)) <==>
              && x == id && id in s.drafts && s.drafts[id].status.Cancelled? && Person(actor)
              && SystemCancelled(s, id) && to == EventsOf(s.events, id)[0].status
  {
    RestoreDone(s, now, x, actor);
    hide Restore, Person, LogInv, EventsOf;
  }

  lemma RecordMoves(s: Store, now: Time, x: DraftId, o: Outcome, id: DraftId, to: Status)
    ensures var r := RecordOutcome(s, now, x, o);
            (r.Done? && Moved(s, r.store, id, to)) <==>
              && x == id && id in s.drafts && s.drafts[id].status.Sending?
              && if ReceiptOf(o) then to.Sent? && |o.graphMessageId| <= 2048 && o.sentAt.At?
                 else to.Failed? && !o.uncertain && CodeShape(o.failureCode)
  {
    CodeIff(o.failureCode);
    hide ValidFailureCode, CodeShape, Requeued;
  }

  /** An approval of a draft that is under review, or of one that is approved or further already, stands. */
  ghost predicate Standing(s: Store, d: Draft, a: Approval)
  {
    && Warrant(s, d, a) && (d.status.NeedsApproval? || d.status.Approved? || d.status.Sending? || d.status.Sent?)
    && if a.receiptVerified then |a.actor| <= 160 else Person(a.actor)
  }

  lemma ApproveDone(s: Store, now: Time, x: DraftId, a: Approval)
    requires a.receiptVerified ==> RECEIPT_PREFIX <= a.actor
    ensures var r := Approve(s, now, x, a);
            && (r.Done? <==> x in s.drafts && Standing(s, s.drafts[x], a))
            && (r.Done? ==>
                  && x in s.drafts && r.store.drafts == s.drafts[x := r.value] && r.store.assets == s.assets
                  && r.value.payload == s.drafts[x].payload
                  && r.value.status == if s.drafts[x].status.NeedsApproval? then Approved else s.drafts[x].status)
  {
    NotBoth(a.actor);
    if x in s.drafts {
      SlotIff(s.drafts[x].payload.bodyText);
      AssetsIff(s, s.drafts[x]);
    }
    hide BodyNeedsClarification, HoldsSlot, FrozenAssetsIntact, AssetsReady, SessionActor, ReceiptActor, Person;
  }

  lemma ClaimDone(s: Store, now: Time, x: DraftId)
    ensures var r := Claim(s, now, x);
            && (r.Done? <==> x in s.drafts && (s.drafts[x].status.Approved? ==> AssetsReady(s, s.drafts[x])))
            && (r.Done? ==>
                  && (r.value <==> s.drafts[x].status.Approved?)
                  && r.store.drafts == s.drafts[x := s.drafts[x].(status :=
                       if s.drafts[x].status.Approved? then Sending else s.drafts[x].status)])
  {
    if x in s.drafts { AssetsIff(s, s.drafts[x]); }
    hide FrozenAssetsIntact, AssetsReady, Requeued;
  }

  lemma SameAssets(s: Store, s': Store, d: Draft, d': Draft)
    requires s'.assets == s.assets && d'.payload == d.payload
    ensures AssetsReady(s', d') <==> AssetsReady(s, d)
  {
  }

  /** The receipt passes its checks, and its item for this draft is unused. */
  predicate GatePasses(s: Store, d: Draft, gate: Gate)
  {
    gate.Receipt? ==> gate.valid && (gate.receiptId, "sha256:" + d.digest) !in s.uses
  }

  function Consumed(s: Store, id: DraftId, gate: Gate): Store
    requires id in s.drafts
  {
    if gate.Receipt? then s.(uses := s.uses[(gate.receiptId, ItemDigest(s.drafts[id])) := id]) else s
  }

  function RouteApproval(gate: Gate, request: Approval): Approval
  {
    request.(actor := GateActor(gate, request.actor), receiptVerified := gate.Receipt?)
  }

  /** The route is its three parts, in this order, all or nothing. */
  lemma RouteUnfolds(s: Store, now: Time, x: DraftId, gate: Gate, request: Approval)
    ensures var r := ApproveAndClaim(s, now, x, gate, request);
            && (r.Done? ==> x in s.drafts && GatePasses(s, s.drafts[x], gate))
            && (x in s.drafts && GatePasses(s, s.drafts[x], gate) ==>
                  var approved := Approve(Consumed(s, x, gate), now, x, RouteApproval(gate, request));
                  && (approved.Rejected? ==> r.Rejected?)
                  && (approved.Done? ==> r == Claim(approved.store, now, x)))
  {
    hide Approve, Claim;
  }

  lemma RouteActor(s: Store, d: Draft, gate: Gate, request: Approval)
    requires GatePasses(s, d, gate)
    ensures var a := RouteApproval(gate, request);
            && (a.receiptVerified ==> RECEIPT_PREFIX <= a.actor)
            && ((if a.receiptVerified then |a.actor| <= 160 else Person(a.actor)) <==> Approver(s, d, gate, request))
  {
    hide Person;
  }

  /** What the route asks for, and what it leaves of the draft. */
  ghost predicate RouteStands(s: Store, x: DraftId, gate: Gate, request: Approval)
  {
    && x in s.drafts && GatePasses(s, s.drafts[x], gate)
    && Standing(Consumed(s, x, gate), s.drafts[x], RouteApproval(gate, request))
    && (s.drafts[x].status.NeedsApproval? || s.drafts[x].status.Approved? ==> AssetsReady(s, s.drafts[x]))
  }

  lemma RouteDone(s: Store, now: Time, x: DraftId, gate: Gate, request: Approval)
    ensures var r := ApproveAndClaim(s, now, x, gate, request);
            && (r.Done? <==> RouteStands(s, x, gate, request))
            && (r.Done? ==>
                  var launches := s.drafts[x].status.NeedsApproval? || s.drafts[x].status.Approved?;
                  && r.value == launches && x in r.store.drafts
                  && r.store.drafts == s.drafts[x := r.store.drafts[x]]
                  && r.store.drafts[x].status == if launches then Sending else s.drafts[x].status)
  {
    RouteUnfolds(s, now, x, gate, request);
    hide Approve, Claim, ApproveAndClaim;
    if x in s.drafts && GatePasses(s, s.drafts[x], gate) {
      var d, a, s1 := s.drafts[x], RouteApproval(gate, request), Consumed(s, x, gate);
      RouteActor(s, d, gate, request);
      hide Standing, AssetsReady, RouteApproval, GatePasses, Approver, Person;
      ApproveDone(s1, now, x, a);
      var approved := Approve(s1, now, x, a);
      if approved.Done? {
        ClaimDone(approved.store, now, x);
        SameAssets(s, approved.store, d, approved.value);
      }
      StandingReady(s1, s, d, a);
    }
  }

  lemma StandingReady(s: Store, s': Store, d: Draft, a: Approval)
    requires s.assets == s'.assets
    ensures Standing(s, d, a) ==> AssetsReady(s', d) && !(d.status.Cancelled? || d.status.Failed?)
    ensures Standing(s, d, a) ==> !d.status.NeedsClarification?
  {
    hide HoldsSlot, Person;
  }

  /** The receipt is looked at first, then the approval, then the claim, which moves the draft. */
  lemma RouteMoves(s: Store, now: Time, x: DraftId, gate: Gate, request: Approval, id: DraftId, to: Status)
    ensures var r := ApproveAndClaim(s, now, x, gate, request);
            && ((r.Done? && Moved(s, r.store, id, to)) <==>
                  && x == id && id in s.drafts && (s.drafts[id].status.NeedsApproval? || s.drafts[id].status.Approved?)
                  && to.Sending? && Warrant(s, s.drafts[id], request) && Approver(s, s.drafts[id], gate, request))
            && (r.Done? && r.value ==> Moved(s, r.store, x, Sending))
  {
    RouteDone(s, now, x, gate, request);
    SameWarrant(s, x, gate, request);
    if x in s.drafts {
      StandsIff(s, x, gate, request);
    }
    hide ApproveAndClaim, RouteStands, Warrant, Approver;
  }

  lemma StandsIff(s: Store, x: DraftId, gate: Gate, request: Approval)
    requires x in s.drafts
    ensures s.drafts[x].status.NeedsApproval? || s.drafts[x].status.Approved? ==>
      (RouteStands(s, x, gate, request) <==> Warrant(s, s.drafts[x], request) && Approver(s, s.drafts[x], gate, request))
  {
    SameWarrant(s, x, gate, request);
    if GatePasses(s, s.drafts[x], gate) { RouteActor(s, s.drafts[x], gate, request); }
    WarrantReady(s, s.drafts[x], request);
    hide Warrant, Person, AssetsReady, RouteApproval;
  }

  lemma WarrantReady(s: Store, d: Draft, a: Approval)
    ensures Warrant(s, d, a) ==> AssetsReady(s, d)
  {
    hide AssetsReady, HoldsSlot;
  }

  lemma SameWarrant(s: Store, x: DraftId, gate: Gate, request: Approval)
    ensures x in s.drafts ==>
      (Warrant(Consumed(s, x, gate), s.drafts[x], RouteApproval(gate, request)) <==> Warrant(s, s.drafts[x], request))
  {
    hide HoldsSlot;
  }

  // ---------- One step ----------

  lemma NoMove(s: Store, s': Store, id: DraftId, to: Status)
    requires s'.drafts == s.drafts
    ensures !Moved(s, s', id, to)
  {
  }

  lemma RecordStepMoves(lim: Limits, w: World, t: nat, id: DraftId, to: Status)
    ensures Moved(w.store, Apply(lim, w, Record(t)).store, id, to) <==> Moves(w, Record(t), id, to)
  {
    NoMove(w.store, w.store, id, to);
    if t in w.tasks && w.tasks[t].phase.Holding? {
      var o, x := w.tasks[t].phase.outcome, w.tasks[t].draftId;
      RecordMoves(w.store, w.now, x, o, id, to);
      RecordMoves(w.store, w.now, x, WorkerOutcome(o), id, to);
      WorkerKeepsReceipt(o);
    }
    hide RecordOutcome, WorkerOutcome, CodeShape, Moved;
  }

  lemma WorkerKeepsReceipt(o: Outcome)
    ensures ReceiptOf(WorkerOutcome(o)) <==> ReceiptOf(o)
    ensures if ReceiptOf(o) then WorkerOutcome(o) == o else WorkerOutcome(o).uncertain
  {
  }

  lemma LeaseMovesNothing(lim: Limits, w: World, c: WorkerConfig, limit: int, rows: seq<DraftId>,
                          newTasks: map<nat, DraftId>)
    ensures Apply(lim, w, ClaimDue(c, limit, rows, newTasks)).store.drafts == w.store.drafts
  {
    hide DueAnswer, WorkerTasks, LeaseRows;
    if CanClaimDue(lim, w, c, limit, rows, newTasks) {
      LeaseRowsAt(w.store, rows, c.workerId, w.now, w.now + c.leaseMs, "");
    }
  }

  lemma ClaimingSteps(lim: Limits, w: World, step: Step, id: DraftId, to: Status)
    requires step.ClaimDraft? || step.ApproveRoute?
    ensures Moved(w.store, Apply(lim, w, step).store, id, to) <==> Moves(w, step, id, to)
  {
    NoMove(w.store, w.store, id, to);
    if step.ClaimDraft? {
      ClaimMoves(w.store, w.now, step.id, id, to);
    } else {
      RouteMoves(w.store, w.now, step.id, step.gate, step.approval, id, to);
    }
    hide Claim, ApproveAndClaim, Moved, Warrant, Approver, AssetsReady;
  }

  lemma ReviewSteps(lim: Limits, w: World, step: Step, id: DraftId, to: Status)
    requires LogInv(w.store)
    requires step.CreateDraft? || step.ApproveDraft? || step.CancelDraft? || step.RestoreDraft?
    ensures Moved(w.store, Apply(lim, w, step).store, id, to) <==> Moves(w, step, id, to)
  {
    NoMove(w.store, w.store, id, to);
    match step {
      case CreateDraft(input, newId, sourceKnown, assetsBound) =>
        CreateMoves(w.store, w.now, input, newId, sourceKnown, assetsBound, id, to);
      case ApproveDraft(x, a) => ApproveMoves(w.store, w.now, x, a.(receiptVerified := false), id, to);
      case CancelDraft(x, actor, reason) => CancelMoves(w.store, w.now, x, actor, reason, id, to);
      case RestoreDraft(x, actor) => RestoreMoves(w.store, w.now, x, actor, id, to);
    }
    hide Create, Approve, Cancel, Restore, Moved, Warrant, Person, SystemPair, CreatesRow, FirstStatus, SystemCancelled;
  }

  lemma ApproveMoves(s: Store, now: Time, x: DraftId, a: Approval, id: DraftId, to: Status)
    requires !a.receiptVerified
    ensures var r := Approve(s, now, x, a);
            (r.Done? && Moved(s, r.store, id, to)) <==>
              && x == id && id in s.drafts && s.drafts[id].status.NeedsApproval? && to.Approved?
              && (forall verified :: Warrant(s, s.drafts[id], a.(receiptVerified := verified))) && Person(a.actor)
  {
    ApproveDone(s, now, x, a);
    if x in s.drafts { VerifiedAside(s, s.drafts[x], a); }
    hide Approve, Warrant, Person;
  }

  lemma VerifiedAside(s: Store, d: Draft, a: Approval)
    ensures forall verified :: Warrant(s, d, a.(receiptVerified := verified)) <==> Warrant(s, d, a)
  {
    hide AssetsReady, HoldsSlot;
  }

  /**
   Who may move a draft.  A step moves a draft to a status exactly when it is the one kind of step that does so, on a
   draft where it may, with all that it asks for; every other step leaves every status as it is.
   */
  lemma MovesIff(lim: Limits, w: World, step: Step, id: DraftId, to: Status)
    requires LogInv(w.store)
    ensures Moved(w.store, Apply(lim, w, step).store, id, to) <==> Moves(w, step, id, to)
  {
    if step.CreateDraft? || step.ApproveDraft? || step.CancelDraft? || step.RestoreDraft? {
      hide Apply, Moves, Moved, LogInv;
      ReviewSteps(lim, w, step, id, to);
    } else if step.ClaimDraft? || step.ApproveRoute? {
      hide Apply, Moves, Moved, LogInv;
      ClaimingSteps(lim, w, step, id, to);
    } else if step.Record? {
      hide Apply, Moves, Moved, LogInv;
      RecordStepMoves(lim, w, step.task, id, to);
    } else {
      OtherSteps(lim, w, step);
      NoMove(w.store, Apply(lim, w, step).store, id, to);
      hide Apply, LogInv, Moved;
    }
  }

  lemma OtherSteps(lim: Limits, w: World, step: Step)
    requires !step.CreateDraft? && !step.ApproveDraft? && !step.CancelDraft? && !step.RestoreDraft?
    requires !step.ClaimDraft? && !step.ApproveRoute? && !step.Record?
    ensures Apply(lim, w, step).store.drafts == w.store.drafts
  {
    if step.ClaimDue? {
      LeaseMovesNothing(lim, w, step.config, step.limit, step.rows, step.newTasks);
      hide Apply;
    } else {
      hide Released, CanClaimDue, LeaseRows, WorkerTasks, Possible, AfterRefusal, AfterAnswer;
    }
  }

  /** A new send task is the task of the step that moved its draft to sending. */
  lemma LaunchMoves(lim: Limits, w: World, step: Step, t: nat)
    requires LogInv(w.store) && t !in w.tasks
    requires t in Apply(lim, w, step).tasks && Apply(lim, w, step).tasks[t].phase.Launching?
    ensures (step.ClaimDraft? || step.ApproveRoute?) && step.task == t
    ensures Moves(w, step, Apply(lim, w, step).tasks[t].draftId, Sending)
  {
    NewLaunch(lim, w, step, t);
    var id := step.id;
    if step.ClaimDraft? {
      ClaimDone(w.store, w.now, id);
    } else {
      RouteMoves(w.store, w.now, id, step.gate, step.approval, id, Sending);
    }
    MovesIff(lim, w, step, id, Sending);
    hide Claim, ApproveAndClaim, Moves, LogInv;
  }

  lemma NewLaunch(lim: Limits, w: World, step: Step, t: nat)
    requires t !in w.tasks && t in Apply(lim, w, step).tasks && Apply(lim, w, step).tasks[t].phase.Launching?
    ensures (step.ClaimDraft? || step.ApproveRoute?) && step.task == t && Apply(lim, w, step).tasks[t].draftId == step.id
    ensures var e := if step.ClaimDraft? then Claim(w.store, w.now, step.id)
                     else ApproveAndClaim(w.store, w.now, step.id, step.gate, step.approval);
            e.Done? && e.value && Apply(lim, w, step).store == e.store
  {
    hide Create, Approve, Claim, ApproveAndClaim, Cancel, Restore, RecordOutcome, ReleaseJob, CanClaimDue, LeaseRows,
         AfterRefusal, AfterAnswer, Possible;
  }

  // ---------- Whole runs ----------

  lemma ReachableLog(lim: Limits, steps: seq<Step>)
    ensures WorldInv(lim, Run(lim, INIT, steps)) && LogInv(Run(lim, INIT, steps).store)
  {
    InitInv(lim);
    RunKeeps(lim, INIT, steps);
    hide LogInv, JobInv, UsesInv, RowInv, DueInv, PostsOk, LaunchesOk, MailboxOk, TasksOk, RecordedOk;
  }

  /** Every draft got the status it has by a step that had what that takes. */
  lemma {:induction false} Provenance(lim: Limits, steps: seq<Step>, id: DraftId) returns (i: nat)
    requires id in Run(lim, INIT, steps).store.drafts
    ensures i < |steps| && Moves(Run(lim, INIT, steps[..i]), steps[i], id, Run(lim, INIT, steps).store.drafts[id].status)
  {
    hide Apply, Moves, WorldInv, LogInv;
    var n := |steps| - 1;
    var before, to := Run(lim, INIT, steps[..n]), Run(lim, INIT, steps).store.drafts[id].status;
    ReachableLog(lim, steps[..n]);
    MovesIff(lim, before, steps[n], id, to);
    if id in before.store.drafts && before.store.drafts[id].status == to {
      i := Provenance(lim, steps[..n], id);
      assert steps[..n][..i] == steps[..i];
    } else {
      i := n;
    }
  }

  /** A draft that is sending, sent or failed was launched by a step that had what that takes. */
  lemma {:induction false} LaunchWarranted(lim: Limits, steps: seq<Step>, id: DraftId) returns (i: nat)
    requires id in Run(lim, INIT, steps).store.drafts && Run(lim, INIT, steps).store.drafts[id].status.Launched()
    ensures i < |steps| && Moves(Run(lim, INIT, steps[..i]), steps[i], id, Sending)
  {
    hide Apply, WorldInv, LogInv, Moves;
    var n := |steps| - 1;
    var before, to := Run(lim, INIT, steps[..n]), Run(lim, INIT, steps).store.drafts[id].status;
    ReachableLog(lim, steps[..n]);
    MovesIff(lim, before, steps[n], id, to);
    if id in before.store.drafts && before.store.drafts[id].status.Launched() {
      i := LaunchWarranted(lim, steps[..n], id);
      assert steps[..n][..i] == steps[..i];
    } else {
      SettledFromSending(before, steps[n], id, to);
      i := n;
    }
  }

  lemma SettledFromSending(w: World, step: Step, id: DraftId, to: Status)
    requires LogInv(w.store) && Moves(w, step, id, to)
    ensures to.Sent? || to.Failed? ==> id in w.store.drafts && w.store.drafts[id].status.Sending?
  {
    if step.RestoreDraft? { FirstEvent(w.store, id); }
    hide LogInv, EventsOf, HoldsSlot, AssetsReady, Presentable;
  }
}
