/**
 One upload from start to end, through its nested handlers: every call it makes may throw, and at every await other
 uploads and the surroundings go on.  It is a sequence of steps of the quota system, and its reservation stays
 open in one case only.
 */
module AttachmentUpload {
  import opened Wrappers
  import opened Sequences
  import opened AttachmentQuota

  /** What the calls of one upload answer, in the order they are made; false and nothing mean that a call throws. */
  datatype Answers = Answers(
    ready: bool,                                    // switched on, and request, origin, name and type are in order
    found: bool,                                    // the first lookup
    beforeKey: seq<Step>, key: bool,                // the encryption key
    sameDrive: bool,                                // a stored drive file is the requested one
    inserted: bool,                                 // the statements of the reservation
    whileReading: seq<Step>, body: Option<Body>,    // the request body
    valid: bool,                                    // the content check
    lookup: bool,                                   // the second lookup and the digest
    whileScanning: seq<Step>, scanned: bool,        // the scanner
    sealed: bool,                                   // the encryption
    stored: bool,                                   // the statements of the storing transaction
    again: bool,                                    // the lookup after it failed
    innerRelease: bool, outerRelease: bool)         // giving the reservation back

  datatype Ended = Created | Replayed | Threw

  datatype Request = Request(id: string, name: string, declared: Option<int>)

  // ---------- Other uploads ----------

  /** Is this step another's than upload `u`'s? */
  predicate Foreign(u: nat, step: Step)
  {
    match step
    case Finish(v, _, _) => v != u
    case Fail(v) => v != u
    case Leave(v) => v != u
    case _ => true
  }

  function Others(u: nat, steps: seq<Step>): seq<Step> { Select((step: Step) => Foreign(u, step), steps) }

  // ---------- What an upload comes to ----------

  /** The request is stored already, with this content under this name. */
  predicate Duplicate(s: State, request: Request, body: Body)
  {
    var found := FindByRequest(s.assets, request.id);
    found.Some? && found.value.body.digest == body.digest && found.value.name == request.name
  }

  /** The upload is allowed and its declared length is, and the first lookup answers. */
  predicate LooksUp(l: Limits, request: Request, a: Answers)
    requires l.Valid()
  {
    a.ready && DeclaredBytes(l, request.declared).Ok? && a.found
  }

  /** The request was stored when the upload came in, and what it brings is that content under that name. */
  predicate Replays(l: Limits, w: World, request: Request, a: Answers)
    requires l.Valid()
  {
    && LooksUp(l, request, a) && a.key && a.sameDrive && a.body.Some? && l.Accepts(a.body.value)
    && Duplicate(w.state, request, a.body.value)
  }

  function Last(w: World): nat { if |w.uploads| == 0 then 0 else |w.uploads| - 1 }

  /** How an upload ends. */
  function Verdict(l: Limits, w: World, request: Request, a: Answers): Ended
    requires l.Valid()
  {
    var begun := Opened(l, w, request, a);
    if begun.Some? then Closed(l, begun.value, Last(begun.value), request, a).ended
    else if Replays(l, w, request, a) then Replayed else Threw
  }

  /** An upload opens a reservation when nothing is stored for its request and the quotas allow it. */
  function Opened(l: Limits, w: World, request: Request, a: Answers): Option<World>
    requires l.Valid()
  {
    var bytes := DeclaredBytes(l, request.declared);
    if !LooksUp(l, request, a) then None
    else
      var w1 := Steps(l, w, a.beforeKey);
      if !a.key || FindByRequest(w.state.assets, request.id).Some? || !a.inserted
         || ReserveFault(l, w1.state, request.id, bytes.value).Some?
      then None
      else Some(Apply(l, w1, Begin(request.id, request.declared)))
  }

  /** The world when the body has been read. */
  function AfterReading(l: Limits, w: World, u: nat, a: Answers): World
    requires l.Valid()
  {
    Steps(l, w, Others(u, a.whileReading))
  }

  predicate Read(l: Limits, a: Answers)
  {
    a.body.Some? && l.Accepts(a.body.value) && a.valid && a.lookup
  }

  datatype Closing = Closing(steps: seq<Step>, ended: Ended)

  function GiveUp(u: nat, before: seq<Step>, released: bool): Closing
  {
    Closing(before + [if released then Fail(u) else Leave(u)], Threw)
  }

  /** How upload `u` ends, from the world in which it begun its reservation. */
  function Closed(l: Limits, w: World, u: nat, request: Request, a: Answers): Closing
    requires l.Valid()
  {
    var early := Others(u, a.whileReading);
    var w1 := AfterReading(l, w, u, a);
    if !Read(l, a) then GiveUp(u, early, a.outerRelease)
    else if Duplicate(w1.state, request, a.body.value) then Closing(early + [Leave(u)], Replayed)
    else if FindByRequest(w1.state.assets, request.id).Some? then GiveUp(u, early, a.outerRelease)
    else
      var late := early + Others(u, a.whileScanning);
      var w2 := Steps(l, w, late);
      if !a.scanned || !a.sealed then GiveUp(u, late, a.outerRelease)
      else if a.stored && !TakenRequest(w2.state, request.id) then
        Closing(late + [Finish(u, a.body.value, request.name)], Created)
      else if a.again && Duplicate(w2.state, request, a.body.value) && a.innerRelease then
        Closing(late + [Fail(u)], Replayed)
      else GiveUp(u, late, a.outerRelease)
  }

  lemma {:induction false} StepsJoin(l: Limits, w: World, a: seq<Step>, b: seq<Step>)
    requires l.Valid()
    ensures Steps(l, w, a + b) == Steps(l, Steps(l, w, a), b)
  {
    hide Apply;
    if b == [] {
      assert a + b == a;
    } else {
      var n := |b| - 1;
      StepsJoin(l, w, a, b[..n]);
      assert (a + b)[..|a| + n] == a + b[..n];
    }
  }

  lemma OneStep(l: Limits, w: World, step: Step)
    requires l.Valid()
    ensures Steps(l, w, [step]) == Apply(l, w, step)
  {
    assert [step][..0] == [];
    assert Steps(l, w, [step][..0]) == w;
  }

  // ---------- Others leave an upload alone ----------

  lemma {:induction false} OthersLeave(l: Limits, w: World, u: nat, steps: seq<Step>)
    requires l.Valid() && UploadsSound(w) && u < |w.uploads|
    requires forall i | 0 <= i < |steps| :: Foreign(u, steps[i])
    ensures var w' := Steps(l, w, steps);
            && UploadsSound(w') && u < |w'.uploads| && w'.uploads[u] == w.uploads[u]
            && |w.state.reservations| <= |w'.state.reservations|
            && forall r | 0 <= r < |w.state.reservations| :: SameBooking(w.state.reservations[r], w'.state.reservations[r])
  {
    if steps != [] {
      var n := |steps| - 1;
      OthersLeave(l, w, u, steps[..n]);
      hide UploadsSound, Apply;
      var w1 := Steps(l, w, steps[..n]);
      ApplySound(l, w1, steps[n]);
      ForeignLeaves(l, w1, u, steps[n]);
    }
  }

  predicate SameBooking(a: Reservation, b: Reservation) { a.request == b.request && a.bytes == b.bytes }

  lemma ForeignLeaves(l: Limits, w: World, u: nat, step: Step)
    requires l.Valid() && u < |w.uploads| && Foreign(u, step)
    ensures var w' := Apply(l, w, step);
            && u < |w'.uploads| && w'.uploads[u] == w.uploads[u]
            && |w.state.reservations| <= |w'.state.reservations|
            && forall r | 0 <= r < |w.state.reservations| :: SameBooking(w.state.reservations[r], w'.state.reservations[r])
  {
    hide ReserveFault, TakenRequest;
  }

  lemma OthersForeign(u: nat, steps: seq<Step>)
    ensures forall i | 0 <= i < |Others(u, steps)| :: Foreign(u, Others(u, steps)[i])
  {
    SelectHas((step: Step) => Foreign(u, step), steps);
  }

  /** The upload's own reservation. */
  ghost predicate Holds(w: World, u: nat, r: nat)
  {
    u < |w.uploads| && w.uploads[u] == Upload(r, true) && r < |w.state.reservations| && w.state.reservations[r].open
  }

  lemma StillHolds(l: Limits, w: World, u: nat, r: nat, steps: seq<Step>)
    requires l.Valid() && UploadsSound(w) && Holds(w, u, r)
    requires forall i | 0 <= i < |steps| :: Foreign(u, steps[i])
    ensures var w' := Steps(l, w, steps);
            UploadsSound(w') && Holds(w', u, r) && w'.state.reservations[r].request == w.state.reservations[r].request
  {
    OthersLeave(l, w, u, steps);
    hide Steps;
  }

  /** Everything an upload ends with but its last step is others'. */
  lemma ClosedShape(l: Limits, w: World, u: nat, request: Request, a: Answers)
    requires l.Valid()
    ensures var c := Closed(l, w, u, request, a);
            && c.steps != [] && (forall i | 0 <= i < |c.steps| - 1 :: Foreign(u, c.steps[i]))
            && var last := c.steps[|c.steps| - 1];
               && (last == Fail(u) || last == Leave(u) || (last.Finish? && last.upload == u && l.Accepts(last.body)))
               && (last == Leave(u) <==>
                     || (Read(l, a) && Duplicate(AfterReading(l, w, u, a).state, request, a.body.value))
                     || (c.ended == Threw && !a.outerRelease))
  {
    OthersForeign(u, a.whileReading);
    OthersForeign(u, a.whileScanning);
    hide Others, Steps, Duplicate, Foreign, AfterReading, TakenRequest;
  }

  /**
   The one case: an upload that begun a reservation leaves it open exactly when, once its body was read and found
   valid, its request was stored already with the same digest and name; or when giving it back throws as well.
   Every other end, whatever call throws, closes it.
   */
  lemma StrandsIff(l: Limits, w: World, u: nat, r: nat, request: Request, a: Answers)
    requires l.Valid() && UploadsSound(w) && Holds(w, u, r)
    ensures var c := Closed(l, w, u, request, a);
            var end := Steps(l, w, c.steps);
            && UploadsSound(end) && r < |end.state.reservations|
            && (end.state.reservations[r].open <==>
                  || (Read(l, a) && Duplicate(AfterReading(l, w, u, a).state, request, a.body.value))
                  || (c.ended == Threw && !a.outerRelease))
            && (end.state.reservations[r].open <==> Stranded(end, r))
  {
    var c := Closed(l, w, u, request, a);
    ClosedShape(l, w, u, request, a);
    var n := |c.steps| - 1;
    assert forall i | 0 <= i < n :: c.steps[..n][i] == c.steps[i];
    hide Closed;
    StillHolds(l, w, u, r, c.steps[..n]);
    assert Steps(l, w, c.steps) == Apply(l, Steps(l, w, c.steps[..n]), c.steps[n]);
    hide Steps;
    LastStep(l, Steps(l, w, c.steps[..n]), u, r, c.steps[n]);
  }

  lemma LastStep(l: Limits, w: World, u: nat, r: nat, step: Step)
    requires l.Valid() && UploadsSound(w) && Holds(w, u, r)
    requires step == Fail(u) || step == Leave(u) || (step.Finish? && step.upload == u && l.Accepts(step.body))
    ensures var end := Apply(l, w, step);
            && UploadsSound(end) && r < |end.state.reservations|
            && (end.state.reservations[r].open <==> step == Leave(u))
            && (end.state.reservations[r].open <==> Stranded(end, r))
  {
    ApplySound(l, w, step);
    hide TakenRequest;
  }

  /** The world in which the outer handler's body ends: all its writes but the end of the upload itself. */
  function Ending(l: Limits, w: World, c: Closing): World
    requires l.Valid() && c.steps != []
  {
    var n := |c.steps| - 1;
    var before := Steps(l, w, c.steps[..n]);
    if c.ended.Threw? then before else Apply(l, before, c.steps[n]).(uploads := before.uploads)
  }

  lemma {:induction false} StepsSound(l: Limits, w: World, steps: seq<Step>)
    requires l.Valid() && UploadsSound(w)
    ensures UploadsSound(Steps(l, w, steps))
  {
    hide UploadsSound, Apply;
    if steps != [] {
      StepsSound(l, w, steps[..|steps| - 1]);
      ApplySound(l, Steps(l, w, steps[..|steps| - 1]), steps[|steps| - 1]);
    }
  }

  /** Once the outer handler has done its part, the upload has ended with its last step. */
  lemma EndedAs(l: Limits, w: World, u: nat, request: Request, a: Answers)
    requires l.Valid() && UploadsSound(w) && u < |w.uploads| && w.uploads[u].active
    ensures var c := Closed(l, w, u, request, a);
            && c.steps != []
            && var end := Ending(l, w, c);
               && u < |end.uploads| && end.uploads[u] == w.uploads[u]
               && end.uploads[u].reservation < |end.state.reservations|
               && var s := if c.ended.Threw? && a.outerRelease then Release(end.state, end.uploads[u].reservation)
                           else end.state;
                  Steps(l, w, c.steps) == World(s, end.uploads[u := end.uploads[u].(active := false)])
  {
    var r := w.uploads[u].reservation;
    var c := Closed(l, w, u, request, a);
    ClosedShape(l, w, u, request, a);
    ClosedThrows(l, w, u, request, a);
    var n := |c.steps| - 1;
    assert forall i | 0 <= i < n :: c.steps[..n][i] == c.steps[i];
    hide Closed;
    assert Holds(w, u, r);
    StillHolds(l, w, u, r, c.steps[..n]);
    hide UploadsSound, TakenRequest;
  }

  lemma ClosedThrows(l: Limits, w: World, u: nat, request: Request, a: Answers)
    requires l.Valid()
    ensures var c := Closed(l, w, u, request, a);
            c.steps != [] && (c.ended.Threw? ==> c.steps[|c.steps| - 1] == if a.outerRelease then Fail(u) else Leave(u))
  {
    hide Others, Steps, Duplicate, AfterReading, TakenRequest;
  }

  /** Right after its reservation the upload holds it. */
  lemma JustOpened(l: Limits, w: World, request: Request, a: Answers)
    requires l.Valid() && UploadsSound(w) && Opened(l, w, request, a).Some?
    ensures var w1 := Opened(l, w, request, a).value;
            var u := |w1.uploads| - 1;
            && UploadsSound(w1) && u >= 0 && Holds(w1, u, |w1.state.reservations| - 1)
            && w1.uploads[u].reservation == |w1.state.reservations| - 1
            && w1.state.reservations[w1.uploads[u].reservation].request == request.id
  {
    StepsSound(l, w, a.beforeKey);
    ApplySound(l, Steps(l, w, a.beforeKey), Begin(request.id, request.declared));
    hide ReserveFault, Steps;
  }

  lemma BeginIs(l: Limits, w: World, request: Request)
    requires l.Valid() && DeclaredBytes(l, request.declared).Ok?
    requires ReserveFault(l, w.state, request.id, DeclaredBytes(l, request.declared).value).None?
    ensures Apply(l, w, Begin(request.id, request.declared))
         == World(Reserve(w.state, request.id, DeclaredBytes(l, request.declared).value),
                  w.uploads + [Upload(|w.state.reservations|, true)])
  {
    hide ReserveFault, DeclaredBytes;
  }

  /** How the outer handler's body can end before it scans. */
  lemma EarlyEnding(l: Limits, w: World, u: nat, request: Request, a: Answers)
    requires l.Valid()
    ensures var c := Closed(l, w, u, request, a);
            var w1 := Steps(l, w, Others(u, a.whileReading));
            && c.steps != []
            && (!Read(l, a) ==> c.ended == Threw && Ending(l, w, c) == w1)
            && (Read(l, a) && FindByRequest(w1.state.assets, request.id).Some? ==>
                  && c.ended == (if Duplicate(w1.state, request, a.body.value) then Replayed else Threw)
                  && Ending(l, w, c) == w1)
  {
    hide Steps, Others, TakenRequest, FindByRequest;
    var early := Others(u, a.whileReading);
    assert (early + [Leave(u)])[..|early|] == early && (early + [Fail(u)])[..|early|] == early;
  }

  /** How it ends once it has scanned: what it has written then, if anything. */
  lemma LateEnding(l: Limits, w: World, u: nat, r: nat, request: Request, a: Answers)
    requires l.Valid() && UploadsSound(w) && Holds(w, u, r) && Read(l, a)
    requires w.state.reservations[r].request == request.id
    requires FindByRequest(Steps(l, w, Others(u, a.whileReading)).state.assets, request.id).None?
    ensures var c := Closed(l, w, u, request, a);
            var w2 := Steps(l, Steps(l, w, Others(u, a.whileReading)), Others(u, a.whileScanning));
            && c.steps != [] && r < |w2.state.reservations| && w2.state.reservations[r].request == request.id
            && if !a.scanned || !a.sealed then c.ended == Threw && Ending(l, w, c) == w2
               else if a.stored && !TakenRequest(w2.state, request.id) then
                 c.ended == Created && Ending(l, w, c) == w2.(state := Store(w2.state, r, a.body.value, request.name))
               else if a.again && Duplicate(w2.state, request, a.body.value) && a.innerRelease then
                 c.ended == Replayed && Ending(l, w, c) == w2.(state := Release(w2.state, r))
               else c.ended == Threw && Ending(l, w, c) == w2
  {
    var early, more := Others(u, a.whileReading), Others(u, a.whileScanning);
    OthersForeign(u, a.whileReading);
    OthersForeign(u, a.whileScanning);
    StepsJoin(l, w, early, more);
    StillHolds(l, w, u, r, early);
    StillHolds(l, Steps(l, w, early), u, r, more);
    var late := early + more;
    var w2 := Steps(l, w, late);
    FrontOf(late, [Leave(u), Fail(u), Finish(u, a.body.value, request.name)]);
    EndingOf(l, w2, u, r, request, a.body.value);
    hide UploadsSound, Steps, Others, TakenRequest, FindByRequest, Duplicate, Apply, Store, Release;
  }

  lemma FrontOf(steps: seq<Step>, lasts: seq<Step>)
    ensures forall step | step in lasts :: (steps + [step])[..|steps|] == steps
  {
  }

  lemma EndingOf(l: Limits, w: World, u: nat, r: nat, request: Request, body: Body)
    requires l.Valid() && Holds(w, u, r) && w.state.reservations[r].request == request.id && l.Accepts(body)
    ensures Apply(l, w, Fail(u)).(uploads := w.uploads) == w.(state := Release(w.state, r))
    ensures !TakenRequest(w.state, request.id) ==>
      Apply(l, w, Finish(u, body, request.name)).(uploads := w.uploads)
      == w.(state := Store(w.state, r, body, request.name))
  {
    hide TakenRequest, Store, Release;
  }

  // ---------- The service ----------

  class AttachmentAssetService {
    const limits: Limits
    var world: World

    constructor (limits: Limits, now: Time)
      ensures this.limits == limits && world == Initial(now)
    {
      this.limits := limits;
      world := Initial(now);
    }

    /** What others do while something is awaited. */
    method Await(steps: seq<Step>)
      requires limits.Valid()
      modifies this
      ensures world == Steps(limits, old(world), steps)
    {
      for i := 0 to |steps|
        invariant world == Steps(limits, old(world), steps[..i])
      {
        assert steps[..i + 1][..i] == steps[..i];
        world := Apply(limits, world, steps[i]);
      }
      assert steps[..|steps|] == steps;
    }

    /** `reserve`: the checks in one transaction, then the row; the upload is in flight from here on. */
    method ReserveBytes(request: string, reservedBytes: nat, inserted: bool) returns (r: Option<nat>)
      modifies this
      ensures r.Some? <==> inserted && ReserveFault(limits, old(world).state, request, reservedBytes).None?
      ensures r.Some? ==>
        && r.value == |old(world).uploads|
        && world == World(Reserve(old(world).state, request, reservedBytes),
                          old(world).uploads + [Upload(|old(world).state.reservations|, true)])
      ensures r.None? ==> world == old(world)
    {
      var s := world.state;
      var active := OpenCount(s);
      if active >= limits.maxConcurrentUploads { return None; }
      var reserved := Reserved(s);
      if Unlinked(s) + reserved + reservedBytes > limits.unlinkedQuotaBytes { return None; }
      if Stored(s) + reserved + reservedBytes > limits.totalQuotaBytes { return None; }
      if InFlight(s, request) || !inserted { return None; }
      r := Some(|world.uploads|);
      world := World(s.(reservations := s.reservations + [Reservation(request, reservedBytes, true)]),
                     world.uploads + [Upload(|s.reservations|, true)]);
    }

    /** Giving a reservation back, unless the statement throws. */
    method ReleaseReservation(r: nat, works: bool) returns (released: bool)
      requires r < |world.state.reservations|
      modifies this
      ensures released == works
      ensures world == if works then old(world).(state := Release(old(world).state, r)) else old(world)
    {
      if works {
        var s := world.state;
        world := world.(state := s.(reservations := s.reservations[r := s.reservations[r].(open := false)]));
      }
      released := works;
    }

    /** The storing transaction: the asset and the release together, or neither. */
    method StoreAsset(r: nat, request: Request, body: Body, works: bool) returns (created: bool)
      requires r < |world.state.reservations| && world.state.reservations[r].request == request.id
      modifies this
      ensures created == (works && !TakenRequest(old(world).state, request.id))
      ensures world == if created then old(world).(state := Store(old(world).state, r, body, request.name)) else old(world)
    {
      var before := world;
      if TakenRequest(world.state, request.id) { return false; }
      var s := world.state;
      world := world.(state := s.(assets := s.assets + [NewAsset(s, request.id, body, request.name)]));
      var released := ReleaseReservation(r, works);
      if !released {
        world := before;
        return false;
      }
      return true;
    }

    /** The inner handler: the transaction, and the replay when somebody else stored the same meanwhile. */
    method StoreOrReplay(r: nat, request: Request, body: Body, a: Answers) returns (e: Ended)
      requires r < |world.state.reservations| && world.state.reservations[r].request == request.id
      modifies this
      ensures var s := old(world).state;
              if a.stored && !TakenRequest(s, request.id) then
                e == Created && world == old(world).(state := Store(s, r, body, request.name))
              else if a.again && Duplicate(s, request, body) && a.innerRelease then
                e == Replayed && world == old(world).(state := Release(s, r))
              else e == Threw && world == old(world)
    {
      var created := StoreAsset(r, request, body, a.stored);
      if created { return Created; }
      if !a.again { return Threw; }
      var again := FindByRequest(world.state.assets, request.id);
      if again.Some? && again.value.body.digest == body.digest && again.value.name == request.name {
        var released := ReleaseReservation(r, a.innerRelease);
        return if released then Replayed else Threw;
      }
      return Threw;
    }

    /** The body of the outer handler. */
    method ReadAndStore(u: nat, request: Request, a: Answers) returns (e: Ended)
      requires limits.Valid() && UploadsSound(world)
      requires u < |world.uploads| && Holds(world, u, world.uploads[u].reservation)
      requires world.state.reservations[world.uploads[u].reservation].request == request.id
      modifies this
      ensures var c := Closed(limits, old(world), u, request, a);
              e == c.ended && c.steps != [] && world == Ending(limits, old(world), c)
    {
      ghost var w := world;
      var r := world.uploads[u].reservation;
      hide UploadsSound, Holds, Closed, Ending, Steps, Others, TakenRequest, FindByRequest;
      EarlyEnding(limits, w, u, request, a);
      Await(Others(u, a.whileReading));
      if a.body.None? || !limits.Accepts(a.body.value) { return Threw; }
      var body := a.body.value;
      if !a.valid { return Threw; }
      if !a.lookup { return Threw; }
      var raced := FindByRequest(world.state.assets, request.id);
      if raced.Some? {
        if body.digest != raced.value.body.digest || request.name != raced.value.name { return Threw; }
        return Replayed;
      }
      Await(Others(u, a.whileScanning));
      LateEnding(limits, w, u, r, request, a);
      if !a.scanned { return Threw; }
      if !a.sealed { return Threw; }
      e := StoreOrReplay(r, request, body, a);
    }

    /**
     `upload`.  With a reservation: exactly the steps of the quota system that the specification gives, and its
     result.  Without one it replays exactly when the request was stored at entry with the digest and name of the
     body it read, throws otherwise, and leaves the world to the others.
     */
    method UploadAttachment(request: Request, a: Answers) returns (e: Ended)
      requires limits.Valid() && UploadsSound(world)
      modifies this
      ensures var begun := Opened(limits, old(world), request, a);
              begun.Some? ==>
                var c := Closed(limits, begun.value, |begun.value.uploads| - 1, request, a);
                e == c.ended && world == Steps(limits, begun.value, c.steps)
      ensures Opened(limits, old(world), request, a).None? ==>
        && e != Created && (e == Replayed <==> Replays(limits, old(world), request, a))
        && world == if !LooksUp(limits, request, a) then old(world)
                    else if !a.key || !a.sameDrive || FindByRequest(old(world).state.assets, request.id).None?
                    then Steps(limits, old(world), a.beforeKey)
                    else Steps(limits, Steps(limits, old(world), a.beforeKey), a.whileReading)
    {
      ghost var w := world;
      hide UploadsSound, Holds, Closed, Ending, Steps, ReserveFault, FindByRequest, Reserve;
      if !a.ready { return Threw; }
      var bytes := DeclaredBytes(limits, request.declared);
      if bytes.Err? || !a.found { return Threw; }
      hide DeclaredBytes;
      var existing := FindByRequest(world.state.assets, request.id);
      Await(a.beforeKey);
      if !a.key { return Threw; }
      if existing.Some? {
        if !a.sameDrive { return Threw; }
        Await(a.whileReading);
        if a.body.None? || !limits.Accepts(a.body.value) { return Threw; }
        if a.body.value.digest != existing.value.body.digest || request.name != existing.value.name { return Threw; }
        return Replayed;
      }
      ghost var w0 := world;
      var u := ReserveBytes(request.id, bytes.value, a.inserted);
      if u.None? { return Threw; }
      BeginIs(limits, w0, request);
      ghost var w1 := world;
      JustOpened(limits, w, request, a);
      EndedAs(limits, w1, u.value, request, a);
      e := ReadAndStore(u.value, request, a);
      if e.Threw? {
        var _ := ReleaseReservation(world.uploads[u.value].reservation, a.outerRelease);
      }
      world := world.(uploads := world.uploads[u.value := world.uploads[u.value].(active := false)]);
    }
  }
}
