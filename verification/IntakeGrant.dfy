/**
 The grant that lets intake act for a mailbox: epochs make every earlier capture stale when the token, the proof
 or the selected mailbox changes, so authority cannot survive a change, not even one that is undone.
 */
module IntakeGrant {
  import opened Wrappers

  datatype Binding = Binding(
    mailboxUser: string, workspaceId: string, revision: int, principalId: string, tenantId: string, clientId: string,
    mailboxId: string, intentReference: string)

  datatype Proof = Proof(accessToken: string, generation: nat, epoch: nat, revision: int, principalId: string)

  datatype Verified = Verified(
    principalId: string, revision: int, clientId: string, tenantId: string, accessToken: string)

  datatype Grant = Grant(
    expected: Option<Binding>, configuredWorkspace: string, selection: string,
    generation: nat, epoch: nat, proof: Option<Proof>)
  {
    predicate Configured()
    {
      expected.Some? && configuredWorkspace != "" && expected.value.workspaceId == configuredWorkspace
    }

    predicate Proven()
    {
      && proof.Some? && Configured()
      && proof.value.generation == generation && proof.value.epoch == epoch
      && proof.value.revision == expected.value.revision && proof.value.principalId == expected.value.principalId
    }

    function Revision(): int { if expected.Some? then expected.value.revision else 0 }
  }

  datatype Capture = Capture(epoch: nat, generation: nat, revision: int, token: string)

  datatype Code =
    | BindingStale | IdentityMismatch | IdentityUnproven | Unbound | MailboxNotAuthorized | WorkspaceNotAuthorized
    | AccountChangeDenied

  const DEFAULT_SELECTION := "me"

  function Created(binding: Option<Binding>, workspace: string): Grant
  {
    Grant(binding, workspace,
          if binding.Some? && binding.value.mailboxUser != "" then binding.value.mailboxUser else DEFAULT_SELECTION,
          0, 1, None)
  }

  function Captured(g: Grant): Capture
  {
    Capture(g.epoch, g.generation, g.Revision(),
            if g.proof.Some? && g.proof.value.epoch == g.epoch && g.proof.value.generation == g.generation
            then g.proof.value.accessToken else "")
  }

  /** `assertCurrent` of a live authorization. */
  predicate Current(g: Grant, c: Capture)
  {
    c.epoch == g.epoch && c.generation == g.generation && c.revision == g.Revision()
  }

  /** Every call on a frozen authorization starts with this check. */
  predicate FrozenHolds(g: Grant, snapshot: Capture) { g.Proven() && Captured(g) == snapshot }

  // ---------- What can happen to a grant ----------

  /** Mailbox users come as their keys; `Register` is the part of a registration after its write returned `saved`. */
  datatype Op =
    | Observe(key: string)
    | ReplaceToken
    | Invalidate
    | Publish(verified: Verified, capturedEpoch: nat)
    | Register(capturedEpoch: nat, saved: Binding, accessToken: string)

  predicate PublishAccepted(g: Grant, v: Verified, capturedEpoch: nat)
  {
    && capturedEpoch == g.epoch && g.expected.Some? && v.revision == g.expected.value.revision
    && v.principalId == g.expected.value.principalId && v.accessToken != ""
  }

  function WithProof(g: Grant, b: Binding, accessToken: string): Grant
  {
    g.(proof := Some(Proof(accessToken, g.generation, g.epoch, b.revision, b.principalId)))
  }

  function Apply(g: Grant, op: Op): Grant
  {
    match op
    case Observe(key) => if key == g.selection then g else g.(selection := key, epoch := g.epoch + 1)
    case ReplaceToken => g.(generation := g.generation + 1, epoch := g.epoch + 1, proof := None)
    case Invalidate => g.(epoch := g.epoch + 1, proof := None)
    case Publish(v, capturedEpoch) =>
      if PublishAccepted(g, v, capturedEpoch) then WithProof(g, g.expected.value, v.accessToken) else g
    case Register(capturedEpoch, saved, accessToken) =>
      if capturedEpoch != g.epoch then g
      else WithProof(g.(expected := Some(saved), selection := saved.mailboxUser), saved, accessToken)
  }

  function Run(g: Grant, ops: seq<Op>): Grant
  {
    if ops == [] then g else Apply(Run(g, ops[..|ops| - 1]), ops[|ops| - 1])
  }

  /** A replaced token, an invalidation, or a mailbox switch. */
  predicate Disrupts(g: Grant, op: Op)
  {
    op.ReplaceToken? || op.Invalidate? || (op.Observe? && op.key != g.selection)
  }

  /** Nothing disrupted the grant while these operations ran. */
  predicate Undisturbed(g: Grant, ops: seq<Op>)
  {
    ops != [] ==>
      var n := |ops| - 1;
      Undisturbed(g, ops[..n]) && !Disrupts(Run(g, ops[..n]), ops[n])
  }

  /** A registration that took effect. */
  predicate Registers(g: Grant, op: Op) { op.Register? && op.capturedEpoch == g.epoch }

  /** The registration leaves binding and selection as they are. */
  predicate Repeats(g: Grant, op: Op)
    requires op.Register?
  {
    g.expected == Some(op.saved) && g.selection == op.saved.mailboxUser
  }

  /** Nothing disrupted the grant, and registrations only repeated the binding and selection it has. */
  predicate Untouched(g: Grant, ops: seq<Op>)
  {
    ops != [] ==>
      var n := |ops| - 1;
      var before := Run(g, ops[..n]);
      && Untouched(g, ops[..n]) && !Disrupts(before, ops[n])
      && (Registers(before, ops[n]) ==> Repeats(before, ops[n]))
  }

  /** The registration gives the binding a greater revision, or changes neither binding nor selection. */
  predicate Shows(g: Grant, op: Op)
  {
    Registers(g, op) ==> op.saved.revision > g.Revision() || Repeats(g, op)
  }

  predicate AllShow(g: Grant, ops: seq<Op>)
  {
    ops != [] ==>
      var n := |ops| - 1;
      AllShow(g, ops[..n]) && Shows(Run(g, ops[..n]), ops[n])
  }

  // ---------- What registrations the service proposes ----------

  predicate SamePinnedIdentity(a: Binding, b: Binding) { a == b.(revision := a.revision) }

  predicate SameAccount(a: Binding, b: Binding)
  {
    a.tenantId == b.tenantId && a.principalId == b.principalId && a.clientId == b.clientId
    && a.mailboxUser == b.mailboxUser
  }

  /** `planPinnedRegistration`, once the request is parsed. */
  function PlanRegistration(current: Option<Binding>, proposed: Binding): Result<Binding, Code>
  {
    if current.None? then Ok(proposed.(revision := 1))
    else if !SameAccount(current.value, proposed) then Err(AccountChangeDenied)
    else if SamePinnedIdentity(current.value, proposed) then Ok(current.value)
    else Ok(proposed.(revision := current.value.revision + 1))
  }

  /** The operation is an accepted publication of this token. */
  predicate Proves(g: Grant, op: Op, token: string)
  {
    || (op.Publish? && PublishAccepted(g, op.verified, op.capturedEpoch) && op.verified.accessToken == token)
    || (Registers(g, op) && op.accessToken == token)
  }

  /** Some operation proved this token, and nothing has disrupted the grant since. */
  predicate ProvenSince(g: Grant, ops: seq<Op>, token: string)
  {
    && ops != []
    && var n := |ops| - 1;
       var before := Run(g, ops[..n]);
       Proves(before, ops[n], token) || (ProvenSince(g, ops[..n], token) && !Disrupts(before, ops[n]))
  }

  class IntakeGrantService {
    var expected: Option<Binding>
    var configuredWorkspace: string
    var selection: string
    var generation: nat
    var epoch: nat
    var proof: Option<Proof>

    function Contents(): Grant
      reads this
    {
      Grant(expected, configuredWorkspace, selection, generation, epoch, proof)
    }

    constructor (binding: Option<Binding>, workspace: string)
      ensures Contents() == Created(binding, workspace)
    {
      expected, configuredWorkspace := binding, workspace;
      selection := if binding.Some? && binding.value.mailboxUser != "" then binding.value.mailboxUser
                   else DEFAULT_SELECTION;
      generation, epoch, proof := 0, 1, None;
    }

    method ObserveSelection(key: string) returns (changed: bool)
      modifies this
      ensures Contents() == Apply(old(Contents()), Observe(key)) && changed == (key != old(selection))
    {
      if key == selection { return false; }
      selection := key;
      epoch := epoch + 1;
      return true;
    }

    method NoteTokenReplacement()
      modifies this
      ensures Contents() == Apply(old(Contents()), ReplaceToken)
    {
      generation := generation + 1;
      epoch := epoch + 1;
      proof := None;
    }

    method InvalidateProof()
      modifies this
      ensures Contents() == Apply(old(Contents()), Invalidate)
    {
      epoch := epoch + 1;
      proof := None;
    }

    method PublishProof(v: Verified, capturedEpoch: nat) returns (r: Result<(), Code>)
      modifies this
      ensures Contents() == Apply(old(Contents()), Publish(v, capturedEpoch))
      ensures r.Ok? <==> PublishAccepted(old(Contents()), v, capturedEpoch)
      ensures r.Err? ==> r.error in {BindingStale, IdentityMismatch}
      ensures r == Err(BindingStale) <==>
        capturedEpoch != old(epoch) || old(expected).None? || v.revision != old(expected).value.revision
    {
      if capturedEpoch != epoch { return Err(BindingStale); }
      if expected.None? || v.revision != expected.value.revision { return Err(BindingStale); }
      if v.principalId != expected.value.principalId || v.accessToken == "" { return Err(IdentityMismatch); }
      proof := Some(Proof(v.accessToken, generation, epoch, expected.value.revision, expected.value.principalId));
      return Ok(());
    }

    /** What somebody else does to the grant while a write is awaited. */
    method Perform(op: Op)
      modifies this
      ensures Contents() == Apply(old(Contents()), op)
    {
      match op
      case Observe(key) => var _ := ObserveSelection(key);
      case ReplaceToken => NoteTokenReplacement();
      case Invalidate => InvalidateProof();
      case Publish(v, capturedEpoch) => var _ := PublishProof(v, capturedEpoch);
      case Register(capturedEpoch, saved, accessToken) =>
        var _ := FinishRegistration(saved, accessToken, capturedEpoch);
    }

    /** What follows the write: a registration is overtaken, and then changes nothing, when the epoch moved on. */
    method FinishRegistration(saved: Binding, accessToken: string, capturedEpoch: nat) returns (r: Result<(), Code>)
      modifies this
      ensures Contents() == Apply(old(Contents()), Register(capturedEpoch, saved, accessToken))
      ensures r.Err? <==> capturedEpoch != old(epoch)
      ensures r.Err? ==> Contents() == old(Contents()) && r.error == BindingStale
    {
      if capturedEpoch != epoch { return Err(BindingStale); }
      expected := Some(saved);
      selection := saved.mailboxUser;
      proof := Some(Proof(accessToken, generation, epoch, saved.revision, saved.principalId));
      return Ok(());
    }

    /**
     `publishRegistration`: `saved` is what the write answers and `during` is what happens to the grant while it is
     awaited.  It takes effect exactly when the identity was verified for the binding in the captured epoch and
     nothing disrupted the grant meanwhile; otherwise only the others' doings remain.
     */
    method PublishRegistration(next: Binding, v: Verified, capturedEpoch: nat, saved: Binding, during: seq<Op>)
        returns (r: Result<(), Code>)
      modifies this
      ensures r.Ok? <==>
        && capturedEpoch == old(epoch) && v.accessToken != "" && v.principalId == next.principalId
        && v.clientId == next.clientId && v.tenantId == next.tenantId && v.revision == next.revision
        && Undisturbed(old(Contents()), during)
      ensures r.Ok? ==>
        && expected == Some(saved) && selection == saved.mailboxUser
        && proof == Some(Proof(v.accessToken, old(generation), old(epoch), saved.revision, saved.principalId))
      ensures var current, proven := capturedEpoch == old(epoch), v.accessToken != "";
              var same := v.principalId == next.principalId && v.clientId == next.clientId
                && v.tenantId == next.tenantId && v.revision == next.revision;
              r.Err? ==>
                && r.error == (if current && !proven then IdentityUnproven
                               else if current && !same then IdentityMismatch else BindingStale)
                && Contents() == if current && proven && same then Run(old(Contents()), during) else old(Contents())
    {
      ghost var before := Contents();
      if capturedEpoch != epoch { return Err(BindingStale); }
      if v.accessToken == "" { return Err(IdentityUnproven); }
      if v.principalId != next.principalId || v.clientId != next.clientId || v.tenantId != next.tenantId
         || v.revision != next.revision {
        return Err(IdentityMismatch);
      }
      for i := 0 to |during|
        invariant Contents() == Run(before, during[..i])
      {
        assert during[..i + 1][..i] == during[..i];
        Perform(during[i]);
      }
      assert during[..|during|] == during;
      EpochTellsDisruption(before, during);
      r := FinishRegistration(saved, v.accessToken, capturedEpoch);
    }

    /**
     `authorize`; mailbox users come as their keys.  Authority is given exactly to the bound mailbox while it is the
     selected one, in the bound and configured workspace, under a proof of the bound principal that is of this
     generation, epoch and revision; the refusal names the first of these that fails.
     */
    method Authorize(mailboxKey: string, workspaceId: string) returns (r: Result<string, Code>)
      ensures r.Ok? <==>
        && expected.Some? && configuredWorkspace != "" && expected.value.workspaceId == configuredWorkspace
        && selection == expected.value.mailboxUser && mailboxKey == expected.value.mailboxUser
        && proof.Some? && proof.value.generation == generation && proof.value.epoch == epoch
        && proof.value.revision == expected.value.revision && proof.value.principalId == expected.value.principalId
        && (workspaceId == "" || workspaceId == expected.value.workspaceId)
      ensures r.Ok? ==> r.value == workspaceId && Contents().Proven()
      ensures r.Err? ==>
        var bound := expected.Some? && configuredWorkspace != "" && expected.value.workspaceId == configuredWorkspace;
        r.error == if !bound then Unbound
                   else if selection != expected.value.mailboxUser || mailboxKey != expected.value.mailboxUser
                   then MailboxNotAuthorized
                   else if !Contents().Proven() then IdentityUnproven
                   else WorkspaceNotAuthorized
    {
      if expected.None? || configuredWorkspace == "" || expected.value.workspaceId != configuredWorkspace {
        return Err(Unbound);
      }
      if selection != expected.value.mailboxUser || mailboxKey != expected.value.mailboxUser {
        return Err(MailboxNotAuthorized);
      }
      if !Contents().Proven() { return Err(IdentityUnproven); }
      if workspaceId != "" && workspaceId != expected.value.workspaceId { return Err(WorkspaceNotAuthorized); }
      return Ok(workspaceId);
    }
  }

  // ---------- No stale authority ----------

  /** The epoch never decreases, and stands still exactly while nothing disrupts the grant. */
  lemma {:induction false} EpochTellsDisruption(g: Grant, ops: seq<Op>)
    ensures Run(g, ops).epoch >= g.epoch && Run(g, ops).generation >= g.generation
    ensures Run(g, ops).epoch == g.epoch <==> Undisturbed(g, ops)
    ensures Undisturbed(g, ops) ==> Run(g, ops).generation == g.generation
  {
    if ops != [] { EpochTellsDisruption(g, ops[..|ops| - 1]); }
  }

  /**
   A capture is still current exactly when, since it was taken, no token was replaced, no proof invalidated and
   no mailbox switched to or away and back, and the binding has the revision it had.
   */
  lemma CurrentIff(g: Grant, ops: seq<Op>)
    ensures Current(Run(g, ops), Captured(g)) <==> Undisturbed(g, ops) && Run(g, ops).Revision() == g.Revision()
  {
    EpochTellsDisruption(g, ops);
  }

  lemma {:induction false} UntouchedKeeps(g: Grant, ops: seq<Op>)
    requires Untouched(g, ops)
    ensures var g' := Run(g, ops); g'.expected == g.expected && g'.selection == g.selection && Undisturbed(g, ops)
  {
    if ops != [] { UntouchedKeeps(g, ops[..|ops| - 1]); }
  }

  lemma {:induction false} RevisionTells(g: Grant, ops: seq<Op>)
    requires AllShow(g, ops)
    ensures Run(g, ops).Revision() >= g.Revision()
    ensures Undisturbed(g, ops) && Run(g, ops).Revision() == g.Revision() ==> Untouched(g, ops)
  {
    if ops != [] { RevisionTells(g, ops[..|ops| - 1]); }
  }

  /**
   When registrations show, a capture is current exactly when nothing touched the grant since: no token replaced,
   no proof invalidated, neither mailbox nor binding switched, not even away and back.
   */
  lemma CurrentIffUntouched(g: Grant, ops: seq<Op>)
    requires AllShow(g, ops)
    ensures Current(Run(g, ops), Captured(g)) <==> Untouched(g, ops)
    ensures Untouched(g, ops) ==> Run(g, ops).expected == g.expected && Run(g, ops).selection == g.selection
  {
    CurrentIff(g, ops);
    RevisionTells(g, ops);
    if Untouched(g, ops) { UntouchedKeeps(g, ops); }
  }

  /**
   One registration is noticed by every capture it makes wrong exactly when it changes the revision or leaves
   binding and selection as they were: the registration itself does not advance the epoch.
   */
  lemma RegistrationSeenIff(g: Grant, saved: Binding, accessToken: string)
    ensures var g' := Apply(g, Register(g.epoch, saved, accessToken));
      (Current(g', Captured(g)) ==> g'.expected == g.expected && g'.selection == g.selection)
      <==> saved.revision != g.Revision() || (g.expected == Some(saved) && g.selection == saved.mailboxUser)
  {
  }

  /**
   What the service proposes: the first binding gets revision one; a binding of another account is refused; a repeated
   identity stays as it is, revision included; and any other gets the next revision.
   */
  lemma PlanMeans(current: Option<Binding>, proposed: Binding)
    ensures var r := PlanRegistration(current, proposed);
            && (current.None? ==> r == Ok(proposed.(revision := 1)))
            && (current.Some? ==>
                  var c := current.value;
                  && (r == Err(AccountChangeDenied) <==>
                        || c.tenantId != proposed.tenantId || c.principalId != proposed.principalId
                        || c.clientId != proposed.clientId || c.mailboxUser != proposed.mailboxUser)
                  && var same := c.workspaceId == proposed.workspaceId && c.mailboxId == proposed.mailboxId
                       && c.intentReference == proposed.intentReference;
                     r.Ok? ==> r.value == if same then c else proposed.(revision := c.revision + 1))
  {
  }

  lemma {:induction false} RunFrom(g: Grant, op: Op, rest: seq<Op>)
    ensures Run(g, [op] + rest) == Run(Apply(g, op), rest)
    ensures Untouched(g, [op] + rest) ==> Untouched(g, [op])
  {
    var n := |rest|;
    if n > 0 {
      RunFrom(g, op, rest[..n - 1]);
      assert ([op] + rest)[..n] == [op] + rest[..n - 1];
    } else {
      assert ([op] + rest)[..0] == [] && [op] + rest == [op];
      assert Run(g, [op]) == Apply(g, op);
    }
  }

  lemma {:induction false} AllShowFrom(g: Grant, op: Op, rest: seq<Op>)
    requires Shows(g, op) && AllShow(Apply(g, op), rest)
    ensures AllShow(g, [op] + rest)
  {
    var n := |rest|;
    if n > 0 {
      AllShowFrom(g, op, rest[..n - 1]);
      RunFrom(g, op, rest[..n - 1]);
      assert ([op] + rest)[..n] == [op] + rest[..n - 1];
    } else {
      assert [op][..0] == [] && [op] + rest == [op];
    }
  }

  /**
   Over whole runs: a registration is safe, whatever showing operations follow it, exactly when it shows.  One that
   does not is unseen at once, or after a later registration brings the old revision back.
   */
  lemma SafeIffShows(g: Grant, op: Op)
    requires Registers(g, op)
    ensures Shows(g, op) <==>
      forall rest | AllShow(Apply(g, op), rest) ::
        Current(Run(g, [op] + rest), Captured(g)) ==> Untouched(g, [op] + rest)
  {
    if Shows(g, op) {
      forall rest | AllShow(Apply(g, op), rest)
        ensures Current(Run(g, [op] + rest), Captured(g)) ==> Untouched(g, [op] + rest)
      {
        AllShowFrom(g, op, rest);
        CurrentIffUntouched(g, [op] + rest);
      }
    } else {
      SingleOp(g, op);
      hide Registers, Repeats;
      if op.saved.revision == g.Revision() {
        RunFrom(g, op, []);
        UnseenAtOnce(g, op);
        assert AllShow(Apply(g, op), []);
      } else {
        var back := Register(g.epoch, op.saved.(revision := g.Revision()), op.accessToken);
        UnseenLater(g, op, back);
        SingleOp(Apply(g, op), back);
        RunFrom(g, op, [back]);
        CurrentIff(g, [op] + [back]);
        assert AllShow(Apply(g, op), [back]);
      }
    }
  }

  lemma SingleOp(g: Grant, op: Op)
    ensures Run(g, [op]) == Apply(g, op) && (AllShow(g, [op]) <==> Shows(g, op))
    ensures Untouched(g, [op]) ==> !op.Register? || !Registers(g, op) || Repeats(g, op)
  {
    assert [op][..0] == [];
    assert Run(g, [op][..0]) == g && AllShow(g, [op][..0]);
    hide Apply, Shows, Repeats, Registers;
  }

  /** A registration that keeps the revision but not the rest is missed by an earlier capture. */
  lemma UnseenAtOnce(g: Grant, op: Op)
    requires Registers(g, op) && !Shows(g, op) && op.saved.revision == g.Revision()
    ensures Current(Run(g, [op] + []), Captured(g)) && !Untouched(g, [op] + [])
  {
    SingleOp(g, op);
    assert [op] + [] == [op];
  }

  /** One that lowers the revision is missed once another brings the old revision back. */
  lemma UnseenLater(g: Grant, op: Op, back: Op)
    requires Registers(g, op) && !Shows(g, op) && op.saved.revision != g.Revision()
    requires back == Register(g.epoch, op.saved.(revision := g.Revision()), op.accessToken)
    ensures Shows(Apply(g, op), back)
    ensures Current(Apply(Apply(g, op), back), Captured(g)) && !Untouched(g, [op])
  {
    SingleOp(g, op);
  }

  /**
   What the service proposes, when no other registration finished in between, shows exactly when the identity is a
   new one or the selected mailbox is already the bound one.
   */
  lemma PlannedShowsIff(g: Grant, proposed: Binding, accessToken: string)
    requires PlanRegistration(g.expected, proposed).Ok?
    ensures Shows(g, Register(g.epoch, PlanRegistration(g.expected, proposed).value, accessToken)) <==>
      g.expected.None? || !SamePinnedIdentity(g.expected.value, proposed) || g.selection == g.expected.value.mailboxUser
  {
  }

  /** A concrete run: the selection moves to another mailbox and a registration of the bound one moves it back unseen. */
  lemma SwitchBackUnseen()
    ensures var b := Binding("a@x", "w", 1, "p", "t", "c", "p", "i");
            var g := Run(Created(Some(b), "w"), [Observe("b@x")]);
            var g' := Run(Created(Some(b), "w"), [Observe("b@x"), Register(g.epoch, b, "token")]);
            && PlanRegistration(g.expected, b) == Ok(b)
            && Current(g', Captured(g)) && g.selection == "b@x" && g'.selection == "a@x"
  {
    var b := Binding("a@x", "w", 1, "p", "t", "c", "p", "i");
    var first := [Observe("b@x")];
    var g := Run(Created(Some(b), "w"), first);
    var both := [Observe("b@x"), Register(g.epoch, b, "token")];
    assert first[..0] == [] && both[..1] == first;
    assert "a@x"[0] != "b@x"[0];
    assert g == Apply(Created(Some(b), "w"), Observe("b@x"));
    assert Run(Created(Some(b), "w"), both) == Apply(g, Register(g.epoch, b, "token"));
  }

  /** Two registrations planned from one binding get one revision: the second to finish replaces the first unseen. */
  lemma ParallelPlansUnseen(g: Grant, b: Binding, c: Binding, t: string, u: string)
    requires PlanRegistration(g.expected, b).Ok? && PlanRegistration(g.expected, c).Ok?
    requires g.expected.Some? ==>
      !SamePinnedIdentity(g.expected.value, b) && !SamePinnedIdentity(g.expected.value, c)
    requires !SamePinnedIdentity(b, c)
    ensures var g1 := Apply(g, Register(g.epoch, PlanRegistration(g.expected, b).value, t));
            var g2 := Apply(g1, Register(g.epoch, PlanRegistration(g.expected, c).value, u));
            Current(g2, Captured(g1)) && g2.expected != g1.expected
  {
  }

  /** A proof made for an epoch takes effect exactly when nothing disrupted the grant while it was made. */
  lemma OvertakenProof(g: Grant, ops: seq<Op>, v: Verified)
    ensures var g' := Run(g, ops);
      && (PublishAccepted(g', v, g.epoch) <==>
            && Undisturbed(g, ops) && g'.expected.Some? && v.revision == g'.expected.value.revision
            && v.principalId == g'.expected.value.principalId && v.accessToken != "")
      && (PublishAccepted(g', v, g.epoch) && g'.Configured() ==>
            Apply(g', Publish(v, g.epoch)).Proven()
            && Captured(Apply(g', Publish(v, g.epoch))).token == v.accessToken)
      && (!PublishAccepted(g', v, g.epoch) ==> Apply(g', Publish(v, g.epoch)) == g')
  {
    EpochTellsDisruption(g, ops);
  }

  /**
   A frozen authorization works only while nothing disrupted the grant and the very token it was frozen with is
   still the proven one.
   */
  lemma FrozenIff(g: Grant, ops: seq<Op>)
    requires g.Proven()
    ensures FrozenHolds(Run(g, ops), Captured(g)) <==>
      var g' := Run(g, ops);
      && Undisturbed(g, ops) && g'.Proven() && g'.Revision() == g.Revision()
      && g'.proof.value.accessToken == g.proof.value.accessToken
  {
    EpochTellsDisruption(g, ops);
  }

  /** A fresh grant selects the bound mailbox or its user's own, and proves nothing. */
  lemma FreshGrant(binding: Option<Binding>, workspace: string)
    ensures var g := Created(binding, workspace);
            && g == Grant(binding, workspace, g.selection, 0, 1, None) && !g.Proven() && Captured(g) == Capture(1, 0, g.Revision(), "")
            && g.selection == if binding.None? || binding.value.mailboxUser == "" then "me" else binding.value.mailboxUser
  {
  }

  /**
   In every run from a fresh grant, the identity is proven exactly when the binding is configured and an accepted
   publication brought a token that nothing has disrupted since: the proof is then of the bound principal and revision.
   */
  lemma ProvenIff(binding: Option<Binding>, workspace: string, ops: seq<Op>)
    ensures var start, g := Created(binding, workspace), Run(Created(binding, workspace), ops);
            g.Proven() <==> g.Configured() && exists token :: ProvenSince(start, ops, token)
  {
    NoStaleAuthority(binding, workspace, ops);
    ProofIsOurs(binding, workspace, ops);
    var start, g := Created(binding, workspace), Run(Created(binding, workspace), ops);
    if g.Proven() { assert ProvenSince(start, ops, g.proof.value.accessToken); }
    if g.Configured() && exists token :: ProvenSince(start, ops, token) {
      var token :| ProvenSince(start, ops, token);
      SinceStands(start, ops, token);
    }
    hide Run, ProvenSince;
  }

  /** A proof that was not disrupted is still there. */
  lemma {:induction false} SinceStands(g: Grant, ops: seq<Op>, token: string)
    requires ProvenSince(g, ops, token)
    ensures var g' := Run(g, ops); g'.proof.Some? && g'.proof.value.epoch == g'.epoch && g'.proof.value.generation == g'.generation
  {
    var n := |ops| - 1;
    if !Proves(Run(g, ops[..n]), ops[n], token) { SinceStands(g, ops[..n], token); }
  }

  /** In every run a proof of this epoch is of this generation, and of the bound principal and revision. */
  lemma {:induction false} ProofIsOurs(binding: Option<Binding>, workspace: string, ops: seq<Op>)
    ensures var g := Run(Created(binding, workspace), ops);
            && (g.proof.Some? ==>
                  && g.expected.Some? && g.proof.value.generation == g.generation && g.proof.value.epoch <= g.epoch
                  && g.proof.value.revision == g.expected.value.revision
                  && g.proof.value.principalId == g.expected.value.principalId)
  {
    if ops != [] { ProofIsOurs(binding, workspace, ops[..|ops| - 1]); }
  }

  /**
   In every run from a fresh grant, identity counts as proven only by a token that an accepted publication brought
   and that nothing has disrupted since; a loaded binding alone proves nothing.
   */
  lemma {:induction false} NoStaleAuthority(binding: Option<Binding>, workspace: string, ops: seq<Op>)
    ensures var g := Run(Created(binding, workspace), ops);
      && (g.proof.Some? ==> g.proof.value.epoch <= g.epoch)
      && (g.proof.Some? && g.proof.value.epoch == g.epoch ==>
            ProvenSince(Created(binding, workspace), ops, g.proof.value.accessToken))
      && (g.Proven() ==> ProvenSince(Created(binding, workspace), ops, g.proof.value.accessToken))
  {
    if ops != [] { NoStaleAuthority(binding, workspace, ops[..|ops| - 1]); }
  }
}
