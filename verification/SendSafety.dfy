/** Every step of the send protocol keeps the world invariant, and what follows for whole runs. */
module SendSafety {
  import opened Wrappers
  import opened SendStore
  import opened SendLifecycle
  import opened SendQueue
  import opened SendProtocol

  // ---------- Steps that only touch the store ----------

  /** A transaction that settles no draft: nothing becomes sent or failed, nothing in flight is pulled back. */
  ghost predicate Quiet(s: Store, s': Store)
  {
    && (forall id | id in s'.drafts && (s'.drafts[id].status.Sent? || s'.drafts[id].status.Failed?) ::
          id in s.drafts && s'.drafts[id] == s.drafts[id])
    && (forall id | LaunchedIn(s, id) :: LaunchedIn(s', id))
  }

  lemma QuietStore(lim: Limits, w: World, s': Store)
    requires Quiet(w.store, s')
    ensures var w' := w.(store := s');
            && (PostsOk(w) ==> PostsOk(w')) && (LaunchesOk(w) ==> LaunchesOk(w')) && (MailboxOk(w) ==> MailboxOk(w'))
            && (RecordedOk(w) ==> RecordedOk(w'))
  {
    var w' := w.(store := s');
    if RecordedOk(w) {
      forall id | id in s'.drafts ensures
        && (s'.drafts[id].status.Sent? ==>
              s'.drafts[id].graphMessageId.Some? && HasMessage(w', id, s'.drafts[id].graphMessageId.value))
        && (s'.drafts[id].status.Failed? ==> Post(id, Refused) in w'.posts)
      {
        if s'.drafts[id].status.Sent? {
          assert HasMessage(w, id, s'.drafts[id].graphMessageId.value);
        }
      }
    }
  }

  /** Tasks stay in order while sent rows stay sent, time moves on, and posts and mailbox only grow. */
  lemma TasksStay(lim: Limits, w: World, w': World)
    requires TasksOk(lim, w) && w.now <= w'.now && Extends(w.store, w'.store)
    requires |w.posts| <= |w'.posts|
    requires forall k | 0 <= k < |w.posts| :: w'.posts[k].draftId == w.posts[k].draftId
    requires forall k | 0 <= k < |w.posts| :: w.posts[k].state.Refused? ==> w'.posts[k] == w.posts[k]
    requires w.mailbox <= w'.mailbox
    requires w'.tasks == w.tasks
    ensures TasksOk(lim, w')
  {
    forall t | t in w'.tasks ensures TaskOk(lim, w', w'.tasks[t]) {
      var task := w.tasks[t];
      assert TaskOk(lim, w, task);
      match task.phase
      case Holding(o) => GenuineStays(w, w', task.draftId, o);
      case _ =>
    }
  }

  lemma GenuineStays(w: World, w': World, id: DraftId, o: Outcome)
    requires Genuine(w, id, o)
    requires |w.posts| <= |w'.posts|
    requires forall k | 0 <= k < |w.posts| :: w.posts[k].state.Refused? ==> w'.posts[k] == w.posts[k]
    requires w.mailbox <= w'.mailbox
    ensures Genuine(w', id, o)
  {
    if o.Receipt() {
      MessageStays(w, w', id, o.graphMessageId);
    } else if !o.uncertain {
      var k :| 0 <= k < |w.posts| && w.posts[k] == Post(id, Refused);
      assert w'.posts[k] == Post(id, Refused);
    }
  }

  lemma MessageStays(w: World, w': World, id: DraftId, messageId: string)
    requires HasMessage(w, id, messageId) && w.mailbox <= w'.mailbox
    ensures HasMessage(w', id, messageId)
  {
    var i :| 0 <= i < |w.mailbox| && w.mailbox[i].header == id && w.mailbox[i].id == messageId;
    assert w'.mailbox[i] == w.mailbox[i];
  }

  lemma StoreStep(lim: Limits, w: World, s': Store)
    requires WorldInv(lim, w)
    requires StoreInv(s') && Extends(w.store, s') && Quiet(w.store, s') && s'.hasQueue
    requires DueInv(s', w.now, lim.maxBackoff, lim.maxLease)
    ensures WorldInv(lim, w.(store := s'))
  {
    hide StoreInv, DueInv, PostsOk, LaunchesOk, MailboxOk, TasksOk, RecordedOk, Quiet;
    QuietStore(lim, w, s');
    TasksStay(lim, w, w.(store := s'));
  }

  // ---------- Quietness of the review transactions ----------

  lemma QuietRow(s: Store, s': Store, id: DraftId, d: Draft)
    requires s'.drafts == s.drafts[id := d] && !LaunchedIn(s, id) && !d.status.Sent? && !d.status.Failed?
    ensures Quiet(s, s')
  {
  }

  lemma ApproveQuiet(s: Store, now: Time, id: DraftId, a: Approval)
    ensures var r := Approve(s, now, id, a); r.Done? ==> Quiet(s, r.store) && r.store.jobs == s.jobs
  {
    hide Quiet;
    var r := Approve(s, now, id, a);
    if r.Done? {
      if r.store == s { QuietSame(s); } else { QuietRow(s, r.store, id, r.value); }
    }
  }

  lemma CancelQuiet(s: Store, now: Time, id: DraftId, actor: string, reason: string)
    ensures var r := Cancel(s, now, id, actor, reason); r.Done? ==> Quiet(s, r.store) && r.store.jobs == s.jobs
  {
    hide Quiet;
    var r := Cancel(s, now, id, actor, reason);
    if r.Done? {
      if r.store == s { QuietSame(s); } else { QuietRow(s, r.store, id, r.value); }
    }
  }

  lemma QuietSame(s: Store)
    ensures Quiet(s, s)
  {
  }

  lemma RestoreQuiet(s: Store, now: Time, id: DraftId, actor: string)
    requires LogInv(s)
    ensures var r := Restore(s, now, id, actor); r.Done? ==> Quiet(s, r.store) && r.store.jobs == s.jobs
  {
    hide LogInv, Quiet;
    var r := Restore(s, now, id, actor);
    if r.Done? {
      PriorReviewIsCreation(s, id);
      FirstEvent(s, id);
      QuietRow(s, r.store, id, r.value);
    }
  }

  lemma CreateQuiet(s: Store, now: Time, input: NewDraft, newId: DraftId, sourceKnown: bool, assetsBound: bool)
    ensures var r := Create(s, now, input, newId, sourceKnown, assetsBound);
            r.Done? ==> Quiet(s, r.store) && r.store.jobs == s.jobs
  {
    hide BodyNeedsClarification, Blank, Quiet;
    var r := Create(s, now, input, newId, sourceKnown, assetsBound);
    if r.Done? {
      if r.store == s { QuietSame(s); } else { QuietRow(s, r.store, newId, r.store.drafts[newId]); }
    }
  }

  lemma ClaimQuiet(s: Store, now: Time, id: DraftId)
    ensures var r := Claim(s, now, id);
            r.Done? ==> Quiet(s, r.store) && (r.value ==> LaunchedIn(r.store, id) && !LaunchedIn(s, id))
  {
    hide FrozenAssetsIntact, Quiet;
    var r := Claim(s, now, id);
    if r.Done? {
      if r.store == s { QuietSame(s); } else { QuietRow(s, r.store, id, s.drafts[id].(status := Sending)); }
    }
  }

  lemma QuietTransitive(a: Store, b: Store, c: Store)
    requires Quiet(a, b) && Quiet(b, c)
    ensures Quiet(a, c)
  {
  }

  /** A claim inside the approve route finds the draft not yet in flight before the route began. */
  lemma ApproveRouteQuiet(s: Store, now: Time, id: DraftId, gate: Gate, request: Approval)
    ensures var r := ApproveAndClaim(s, now, id, gate, request);
            r.Done? ==> Quiet(s, r.store) && (r.value ==> LaunchedIn(r.store, id) && !LaunchedIn(s, id))
  {
    var r := ApproveAndClaim(s, now, id, gate, request);
    if r.Done? {
      var a := request.(actor := GateActor(gate, request.actor), receiptVerified := gate.Receipt?);
      var consumed :=
        if gate.Receipt? then ConsumeReceiptItem(s, gate.receiptId, ItemDigest(s.drafts[id]), id) else Done(s, ());
      var approved := Approve(consumed.store, now, id, a);
      hide Quiet, Approve;
      ConsumedQuiet(s, consumed.store);
      ApproveQuiet(consumed.store, now, id, a);
      ClaimQuiet(approved.store, now, id);
      QuietTransitive(s, consumed.store, approved.store);
      QuietTransitive(s, approved.store, r.store);
      if LaunchedIn(s, id) {
        ApproveKeepsLaunched(consumed.store, now, id, a);
      }
    }
  }

  lemma ConsumedQuiet(s: Store, s': Store)
    requires s' == s.(uses := s'.uses)
    ensures Quiet(s, s')
  {
  }

  lemma ApproveKeepsLaunched(s: Store, now: Time, id: DraftId, a: Approval)
    requires LaunchedIn(s, id)
    ensures var r := Approve(s, now, id, a); r.Done? ==> LaunchedIn(r.store, id)
  {
  }

  // ---------- Steps that only touch tasks, posts and mailbox ----------

  lemma PhaseStep(lim: Limits, w: World, t: nat, p: Phase)
    requires WorldInv(lim, w) && t in w.tasks && !p.Launching?
    requires TaskOk(lim, w, w.tasks[t].(phase := p))
    ensures WorldInv(lim, SetPhase(w, t, p))
  {
    hide StoreInv, DueInv;
    var w' := SetPhase(w, t, p);
    assert LaunchesOk(w') by { assert forall u :: Launch(w', u) ==> Launch(w, u); }
    TasksUpdate(lim, w, w', t, w.tasks[t].(phase := p));
    SameMail(w, w');
  }

  /** One task rewritten, everything the tasks refer to unchanged. */
  lemma TasksUpdate(lim: Limits, w: World, w': World, t: nat, task: Task)
    requires TasksOk(lim, w) && w' == w.(tasks := w.tasks[t := task]) && TaskOk(lim, w, task)
    ensures TasksOk(lim, w')
  {
    forall u | u in w'.tasks ensures TaskOk(lim, w', w'.tasks[u]) {
      SameTask(lim, w, w', w'.tasks[u]);
    }
  }

  lemma SameTask(lim: Limits, w: World, w': World, task: Task)
    requires TaskOk(lim, w, task) && w' == w.(tasks := w'.tasks)
    ensures TaskOk(lim, w', task)
  {
    if task.phase.Holding? {
      GenuineStays(w, w', task.draftId, task.phase.outcome);
    }
  }

  lemma SameMail(w: World, w': World)
    requires w' == w.(tasks := w'.tasks)
    ensures PostsOk(w) ==> PostsOk(w')
    ensures MailboxOk(w) ==> MailboxOk(w')
    ensures RecordedOk(w) ==> RecordedOk(w')
  {
    if RecordedOk(w) {
      forall id | id in w'.store.drafts ensures
        && (w'.store.drafts[id].status.Sent? ==>
              w'.store.drafts[id].graphMessageId.Some? && HasMessage(w', id, w'.store.drafts[id].graphMessageId.value))
        && (w'.store.drafts[id].status.Failed? ==> Post(id, Refused) in w'.posts)
      {
        if w'.store.drafts[id].status.Sent? {
          MessageStays(w, w', id, w.store.drafts[id].graphMessageId.value);
        }
      }
    }
  }

  /** Dropping tasks never breaks anything: a crash is always safe. */
  lemma DropStep(lim: Limits, w: World, t: nat)
    requires WorldInv(lim, w)
    ensures WorldInv(lim, w.(tasks := w.tasks - {t}))
  {
    hide StoreInv, DueInv;
    var w' := w.(tasks := w.tasks - {t});
    assert LaunchesOk(w') by { assert forall u :: Launch(w', u) ==> Launch(w, u); }
    forall u | u in w'.tasks ensures TaskOk(lim, w', w'.tasks[u]) {
      SameTask(lim, w, w', w'.tasks[u]);
    }
    SameMail(w, w');
  }

  /** New tasks that only scan. */
  lemma ScannersStep(lim: Limits, w: World, added: map<nat, Task>)
    requires WorldInv(lim, w) && added.Keys !! w.tasks.Keys
    requires forall t | t in added :: added[t].phase.Scanning? && TaskOk(lim, w, added[t])
    ensures WorldInv(lim, w.(tasks := w.tasks + added))
  {
    hide StoreInv, DueInv;
    var w' := w.(tasks := w.tasks + added);
    assert LaunchesOk(w') by { assert forall u :: Launch(w', u) ==> Launch(w, u) && w'.tasks[u] == w.tasks[u]; }
    forall u | u in w'.tasks ensures TaskOk(lim, w', w'.tasks[u]) {
      SameTask(lim, w, w', w'.tasks[u]);
    }
    SameMail(w, w');
  }

  /** A claim hands its draft to one new send task: nobody else had it, and it was never posted. */
  lemma LaunchStep(lim: Limits, w: World, s': Store, id: DraftId, t: nat)
    requires WorldInv(lim, w) && WorldInv(lim, w.(store := s')) && t !in w.tasks
    requires !LaunchedIn(w.store, id) && LaunchedIn(s', id)
    ensures WorldInv(lim, w.(store := s', tasks := w.tasks[t := Task(Sender, id, Launching)]))
  {
    var w1 := w.(store := s');
    var w' := w1.(tasks := w.tasks[t := Task(Sender, id, Launching)]);
    LaunchedAlone(w, s', id, t);
    hide StoreInv, DueInv, PostsOk, LaunchesOk, RecordedOk, TasksOk, MailboxOk;
    TasksUpdate(lim, w1, w', t, Task(Sender, id, Launching));
    SameMail(w1, w');
  }

  lemma LaunchedAlone(w: World, s': Store, id: DraftId, t: nat)
    requires PostsOk(w) && LaunchesOk(w) && LaunchesOk(w.(store := s')) && t !in w.tasks
    requires !LaunchedIn(w.store, id) && LaunchedIn(s', id)
    ensures LaunchesOk(w.(store := s', tasks := w.tasks[t := Task(Sender, id, Launching)]))
  {
    var w1 := w.(store := s');
    var w' := w1.(tasks := w.tasks[t := Task(Sender, id, Launching)]);
    assert forall u | Launch(w', u) && u != t :: Launch(w, u) && Launch(w1, u) && w'.tasks[u] == w.tasks[u];
    assert forall k | 0 <= k < |w.posts| :: LaunchedIn(w.store, w.posts[k].draftId);
  }

  /** The one task allowed to post a draft posts it. */
  lemma PostStep(lim: Limits, w: World, t: nat)
    requires WorldInv(lim, w) && Launch(w, t)
    ensures WorldInv(lim, SetPhase(w.(posts := w.posts + [Post(w.tasks[t].draftId, Open)]), t, Posted(|w.posts|)))
  {
    var id := w.tasks[t].draftId;
    var w1 := w.(posts := w.posts + [Post(id, Open)]);
    var w' := SetPhase(w1, t, Posted(|w.posts|));
    PostedOnce(w, t);
    assert TaskOk(lim, w, w.tasks[t]);
    hide StoreInv, DueInv, PostsOk, LaunchesOk, RecordedOk, TasksOk, MailboxOk;
    ExtendsSame(w.store);
    hide Extends;
    TasksStay(lim, w, w1);
    TasksUpdate(lim, w1, w', t, w.tasks[t].(phase := Posted(|w.posts|)));
    PostGrow(w, w1);
    SameMail(w1, w');
  }

  lemma PostedOnce(w: World, t: nat)
    requires PostsOk(w) && LaunchesOk(w) && Launch(w, t)
    ensures var w1 := w.(posts := w.posts + [Post(w.tasks[t].draftId, Open)]);
            PostsOk(w1) && LaunchesOk(SetPhase(w1, t, Posted(|w.posts|)))
  {
    var w' := SetPhase(w.(posts := w.posts + [Post(w.tasks[t].draftId, Open)]), t, Posted(|w.posts|));
    assert forall u | Launch(w', u) :: u != t && Launch(w, u) && w'.tasks[u] == w.tasks[u];
  }

  lemma PostGrow(w: World, w': World)
    requires RecordedOk(w) && MailboxOk(w) && w.posts <= w'.posts && w' == w.(posts := w'.posts)
    ensures RecordedOk(w') && MailboxOk(w')
  {
    assert forall p | p in w.posts :: p in w'.posts;
    forall id | id in w'.store.drafts && w'.store.drafts[id].status.Sent?
      ensures HasMessage(w', id, w'.store.drafts[id].graphMessageId.value)
    {
      MessageStays(w, w', id, w.store.drafts[id].graphMessageId.value);
    }
  }

  /** Graph stores the message of one open post. */
  lemma DeliverStep(lim: Limits, w: World, k: nat, messageId: string, sentAt: Time)
    requires WorldInv(lim, w) && k < |w.posts| && w.posts[k].state.Open?
    ensures WorldInv(lim, w.(posts := w.posts[k := w.posts[k].(state := Delivered)],
                             mailbox := w.mailbox + [Message(messageId, w.posts[k].draftId, sentAt)]))
  {
    hide StoreInv, DueInv;
    var w' := w.(posts := w.posts[k := w.posts[k].(state := Delivered)],
                 mailbox := w.mailbox + [Message(messageId, w.posts[k].draftId, sentAt)]);
    DeliveredOnce(w, k, messageId, sentAt);
    ExtendsSame(w.store);
    hide TasksOk, MailboxOk, RecordedOk, Extends;
    TasksStay(lim, w, w');
    assert LaunchesOk(w') by { assert forall u :: Launch(w', u) == Launch(w, u); }
    RecordedStays(w, w');
  }

  lemma DeliveredOnce(w: World, k: nat, messageId: string, sentAt: Time)
    requires PostsOk(w) && MailboxOk(w) && k < |w.posts| && w.posts[k].state.Open?
    ensures MailboxOk(w.(posts := w.posts[k := w.posts[k].(state := Delivered)],
                         mailbox := w.mailbox + [Message(messageId, w.posts[k].draftId, sentAt)]))
  {
    var id := w.posts[k].draftId;
    var posts := w.posts[k := w.posts[k].(state := Delivered)];
    forall i | 0 <= i < |w.mailbox| ensures
      w.mailbox[i].header != id && Post(w.mailbox[i].header, Delivered) in posts
    {
      var j :| 0 <= j < |w.posts| && w.posts[j] == Post(w.mailbox[i].header, Delivered);
      assert posts[j] == w.posts[j];
    }
    assert posts[k] == Post(id, Delivered);
  }

  lemma RecordedStays(w: World, w': World)
    requires RecordedOk(w) && w'.store == w.store && |w.posts| == |w'.posts|
    requires forall j | 0 <= j < |w.posts| :: w.posts[j].state.Refused? ==> w'.posts[j] == w.posts[j]
    requires w.mailbox <= w'.mailbox
    ensures RecordedOk(w')
  {
    forall id | id in w'.store.drafts ensures
      && (w'.store.drafts[id].status.Sent? ==>
            w'.store.drafts[id].graphMessageId.Some? && HasMessage(w', id, w'.store.drafts[id].graphMessageId.value))
      && (w'.store.drafts[id].status.Failed? ==> Post(id, Refused) in w'.posts)
    {
      if w.store.drafts[id].status.Sent? {
        MessageStays(w, w', id, w.store.drafts[id].graphMessageId.value);
      }
      if w.store.drafts[id].status.Failed? {
        var j :| 0 <= j < |w.posts| && w.posts[j] == Post(id, Refused);
        assert w'.posts[j] == Post(id, Refused);
      }
    }
  }

  /** Graph definitely rejects one open post, which therefore never reaches Sent Items. */
  lemma RefuseStep(lim: Limits, w: World, k: nat)
    requires WorldInv(lim, w) && k < |w.posts| && w.posts[k].state.Open?
    ensures WorldInv(lim, w.(posts := w.posts[k := w.posts[k].(state := Refused)]))
  {
    hide StoreInv, DueInv;
    var w' := w.(posts := w.posts[k := w.posts[k].(state := Refused)]);
    RefusedStays(w, k);
    hide TasksOk, MailboxOk, RecordedOk;
    TasksStay(lim, w, w');
    assert LaunchesOk(w') by { assert forall u :: Launch(w', u) == Launch(w, u); }
    RecordedStays(w, w');
  }

  lemma RefusedStays(w: World, k: nat)
    requires MailboxOk(w) && k < |w.posts| && w.posts[k].state.Open?
    ensures MailboxOk(w.(posts := w.posts[k := w.posts[k].(state := Refused)]))
  {
    var posts := w.posts[k := w.posts[k].(state := Refused)];
    forall i | 0 <= i < |w.mailbox| ensures Post(w.mailbox[i].header, Delivered) in posts {
      var j :| 0 <= j < |w.posts| && w.posts[j] == Post(w.mailbox[i].header, Delivered);
      assert posts[j] == w.posts[j];
    }
  }

  // ---------- Recording, leasing, releasing ----------

  /** What recording an outcome does to the rows of one draft and to all others. */
  lemma RecordRows(s: Store, now: Time, id: DraftId, o: Outcome)
    ensures var r := RecordOutcome(s, now, id, o);
            r.Done? ==>
              && r.store.drafts == s.drafts[id := r.value]
              && r.store.hasQueue == s.hasQueue
              && id in s.drafts
              && (s.drafts[id].status.Sent? ==> r.value == s.drafts[id])
              && (!s.drafts[id].status.Sent? ==>
                    && s.drafts[id].status.Sending? && r.value.status.Launched()
                    && (r.value.status.Sent? ==> o.Receipt() && r.value.graphMessageId == Some(o.graphMessageId))
                    && (r.value.status.Failed? ==> !o.Receipt() && !o.uncertain))
              && (o.Receipt() ==> r.value.status.Sent?)
  {
    hide ValidFailureCode, Requeued;
  }

  lemma RecordedStep(lim: Limits, w: World, id: DraftId, o: Outcome)
    requires WorldInv(lim, w) && Genuine(w, id, o)
    ensures var r := RecordOutcome(w.store, w.now, id, o);
            r.Done? ==> WorldInv(lim, w.(store := r.store)) && Extends(w.store, r.store)
                        && (o.Receipt() ==> id in r.store.drafts && r.store.drafts[id].status.Sent?)
  {
    var r := RecordOutcome(w.store, w.now, id, o);
    if r.Done? {
      RecordRows(w.store, w.now, id, o);
      hide RecordOutcome;
      RecordOutcomeKeeps(w.store, w.now, id, o);
      RecordDue(w.store, w.now, id, o, lim.maxBackoff, lim.maxLease);
      RecordNetwork(lim, w, id, o, r.store, r.value);
      hide StoreInv, DueInv, PostsOk, LaunchesOk, MailboxOk, RecordedOk;
      TasksStay(lim, w, w.(store := r.store));
    }
  }

  lemma RecordNetwork(lim: Limits, w: World, id: DraftId, o: Outcome, s': Store, d: Draft)
    requires PostsOk(w) && LaunchesOk(w) && MailboxOk(w) && RecordedOk(w) && Genuine(w, id, o)
    requires id in w.store.drafts && s'.drafts == w.store.drafts[id := d]
    requires w.store.drafts[id].status.Sent? ==> d == w.store.drafts[id]
    requires !w.store.drafts[id].status.Sent? ==>
      && w.store.drafts[id].status.Sending? && d.status.Launched()
      && (d.status.Sent? ==> o.Receipt() && d.graphMessageId == Some(o.graphMessageId))
      && (d.status.Failed? ==> !o.Receipt() && !o.uncertain)
    ensures var w' := w.(store := s'); PostsOk(w') && LaunchesOk(w') && MailboxOk(w') && RecordedOk(w')
  {
    var w' := w.(store := s');
    assert forall x :: LaunchedIn(s', x) == LaunchedIn(w.store, x);
    assert forall u :: Launch(w', u) == Launch(w, u);
    forall x | x in s'.drafts ensures
      && (s'.drafts[x].status.Sent? ==>
            s'.drafts[x].graphMessageId.Some? && HasMessage(w', x, s'.drafts[x].graphMessageId.value))
      && (s'.drafts[x].status.Failed? ==> Post(x, Refused) in w'.posts)
    {
      if s'.drafts[x].status.Sent? {
        MessageStays(w, w', x, s'.drafts[x].graphMessageId.value);
      }
    }
  }

  lemma RecordTaskStep(lim: Limits, w: World, t: nat)
    requires WorldInv(lim, w) && t in w.tasks && w.tasks[t].phase.Holding?
    ensures WorldInv(lim, RecordStep(w, t, w.tasks[t].phase.outcome))
    ensures Extends(w.store, RecordStep(w, t, w.tasks[t].phase.outcome).store)
  {
    var task := w.tasks[t];
    assert TaskOk(lim, w, task);
    hide WorldInv, Genuine, RecordOutcome, Extends, WorkerOutcome;
    ExtendsSame(w.store);
    DropStep(lim, w, t);
    if task.role.Worker? {
      RecordWorkerTask(lim, w, t);
    } else {
      RecordedStep(lim, w, task.draftId, task.phase.outcome);
      var r := RecordOutcome(w.store, w.now, task.draftId, task.phase.outcome);
      if r.Done? { DropStep(lim, w.(store := r.store), t); }
    }
  }

  /** A worker that recorded its outcome goes on to its own job update. */
  lemma RecordWorkerTask(lim: Limits, w: World, t: nat)
    requires WorldInv(lim, w) && t in w.tasks && w.tasks[t].phase.Holding? && w.tasks[t].role.Worker?
    ensures var task := w.tasks[t];
            var r := RecordOutcome(w.store, w.now, task.draftId, WorkerOutcome(task.phase.outcome));
            r.Done? ==>
              && WorldInv(lim, SetPhase(w.(store := r.store), t, Releasing(task.phase.outcome, w.now)))
              && Extends(w.store, r.store)
  {
    var task := w.tasks[t];
    assert TaskOk(lim, w, task);
    HeldByWorker(lim, w, task);
    hide WorldInv, TaskOk, Genuine, RecordOutcome, Extends;
    RecordedStep(lim, w, task.draftId, WorkerOutcome(task.phase.outcome));
    var r := RecordOutcome(w.store, w.now, task.draftId, WorkerOutcome(task.phase.outcome));
    if r.Done? {
      ReleasingOk(lim, w, w.(store := r.store), task);
      hide WorkerOutcome;
      PhaseStep(lim, w.(store := r.store), t, Releasing(task.phase.outcome, w.now));
    }
  }

  lemma HeldByWorker(lim: Limits, w: World, task: Task)
    requires TaskOk(lim, w, task) && task.phase.Holding?
    ensures Genuine(w, task.draftId, WorkerOutcome(task.phase.outcome))
    ensures WorkerOutcome(task.phase.outcome).Receipt() == task.phase.outcome.Receipt()
  {
    WorkerGenuine(w, task.draftId, task.phase.outcome);
  }

  lemma ReleasingOk(lim: Limits, w: World, w': World, task: Task)
    requires TaskOk(lim, w, task) && task.phase.Holding? && w'.now == w.now
    requires task.phase.outcome.Receipt() ==>
      task.draftId in w'.store.drafts && w'.store.drafts[task.draftId].status.Sent?
    ensures TaskOk(lim, w', task.(phase := Releasing(task.phase.outcome, w.now)))
  {
    hide Genuine;
  }

  lemma WorkerGenuine(w: World, id: DraftId, o: Outcome)
    requires Genuine(w, id, o)
    ensures Genuine(w, id, WorkerOutcome(o))
  {
  }

  lemma LeaseStep(lim: Limits, w: World, c: WorkerConfig, limit: int, rows: seq<DraftId>, newTasks: map<nat, DraftId>)
    requires WorldInv(lim, w) && CanClaimDue(lim, w, c, limit, rows, newTasks)
    ensures var s' := LeaseRows(w.store, rows, c.workerId, w.now, w.now + c.leaseMs);
            WorldInv(lim, w.(store := s', tasks := w.tasks + WorkerTasks(w, c, newTasks))) && Extends(w.store, s')
  {
    hide WorldInv, DueAnswer, LeaseRows, Extends;
    LeasedStore(lim, w, rows, c);
    ScannersStep(lim, w.(store := LeaseRows(w.store, rows, c.workerId, w.now, w.now + c.leaseMs)),
                 WorkerTasks(w, c, newTasks));
  }

  lemma LeasedStore(lim: Limits, w: World, rows: seq<DraftId>, c: WorkerConfig)
    requires WorldInv(lim, w) && c.Clamped() && c.workerId != "" && c.leaseMs <= lim.maxLease
    ensures var s' := LeaseRows(w.store, rows, c.workerId, w.now, w.now + c.leaseMs);
            WorldInv(lim, w.(store := s')) && Extends(w.store, s')
  {
    hide StoreInv, DueInv, PostsOk, LaunchesOk, MailboxOk, RecordedOk, TasksOk, Quiet, Extends, LeaseRows;
    var s' := LeaseRows(w.store, rows, c.workerId, w.now, w.now + c.leaseMs);
    LeaseKeeps(w.store, rows, c, w.now);
    LeaseDue(w.store, rows, c, w.now, lim.maxBackoff, lim.maxLease);
    LeaseRowsAt(w.store, rows, c.workerId, w.now, w.now + c.leaseMs, "");
    JobsQuiet(w.store, s');
    StoreStep(lim, w, s');
  }

  lemma JobsQuiet(s: Store, s': Store)
    requires s' == s.(jobs := s'.jobs)
    ensures Quiet(s, s')
  {
  }

  lemma ReleaseStep(lim: Limits, w: World, t: nat)
    requires WorldInv(lim, w) && t in w.tasks && w.tasks[t].phase.Releasing? && w.tasks[t].role.Worker?
    ensures var task := w.tasks[t];
            var s' := ReleaseJob(w.store, task.draftId, task.role.config, task.role.attemptCount,
                                 task.phase.outcome, task.phase.startedAt);
            WorldInv(lim, w.(store := s', tasks := w.tasks - {t})) && Extends(w.store, s')
  {
    var task := w.tasks[t];
    assert TaskOk(lim, w, task);
    hide StoreInv, DueInv, PostsOk, LaunchesOk, MailboxOk, RecordedOk, TasksOk, Quiet, Extends;
    var c, n, o, at := task.role.config, task.role.attemptCount, task.phase.outcome, task.phase.startedAt;
    var s' := ReleaseJob(w.store, task.draftId, c, n, o, at);
    ReleaseKeeps(w.store, task.draftId, c, n, o, at);
    ReleaseDue(w.store, task.draftId, c, n, o, at, w.now, lim.maxBackoff, lim.maxLease);
    JobsQuiet(w.store, s');
    StoreStep(lim, w, s');
    DropStep(lim, w.(store := s'), t);
  }
}
