/**
 What the end of an upload means for the tables, whatever others do meanwhile, and what it is when nobody
 interferes; and what every run keeps: one row and one open reservation for each request.
 */
module AttachmentVerdict {
  import opened Wrappers
  import opened AttachmentQuota
  import opened AttachmentUpload

  // ---------- One row for each request ----------

  ghost predicate OneEach(s: State)
  {
    && (forall i, j | 0 <= i < j < |s.assets| :: s.assets[i].request != s.assets[j].request)
    && (forall i, j | 0 <= i < j < |s.reservations| && s.reservations[i].open && s.reservations[j].open ::
          s.reservations[i].request != s.reservations[j].request)
  }

  lemma ReserveKeepsOne(s: State, request: string, bytes: nat)
    requires OneEach(s) && !InFlight(s, request)
    ensures OneEach(Reserve(s, request, bytes))
  {
  }

  lemma ReleaseKeepsOne(s: State, r: nat)
    requires OneEach(s) && r < |s.reservations|
    ensures OneEach(Release(s, r))
  {
  }

  lemma StoreKeepsOne(s: State, r: nat, body: Body, name: string)
    requires OneEach(s) && r < |s.reservations| && !TakenRequest(s, s.reservations[r].request)
    ensures OneEach(Store(s, r, body, name))
  {
    var more := s.(assets := s.assets + [NewAsset(s, s.reservations[r].request, body, name)]);
    assert OneEach(more);
    ReleaseKeepsOne(more, r);
  }

  lemma StepKeepsOne(l: Limits, w: World, step: Step)
    requires l.Valid() && OneEach(w.state)
    ensures OneEach(Apply(l, w, step).state)
  {
    match step
    case Begin(request, declared) =>
      var bytes := DeclaredBytes(l, declared);
      hide OneEach, InFlight, Stored, Unlinked, Reserved, OpenCount;
      if bytes.Ok? && ReserveFault(l, w.state, request, bytes.value).None? {
        ReserveKeepsOne(w.state, request, bytes.value);
      }
    case Finish(u, body, name) =>
      hide OneEach, TakenRequest, Store, Release;
      if Going(w, u) {
        var r := w.uploads[u].reservation;
        ReleaseKeepsOne(w.state, r);
        if !TakenRequest(w.state, w.state.reservations[r].request) { StoreKeepsOne(w.state, r, body, name); }
      }
    case Fail(u) =>
      hide OneEach, Release;
      if Going(w, u) { ReleaseKeepsOne(w.state, w.uploads[u].reservation); }
    case _ =>
  }

  /** In every run no request is stored twice, and none has two open reservations. */
  lemma {:induction false} OneOfEach(l: Limits, now: Time, steps: seq<Step>)
    requires l.Valid()
    ensures OneEach(Run(l, now, steps).state)
  {
    hide Apply, OneEach;
    if steps == [] {
      NothingTwice(now);
    } else {
      OneOfEach(l, now, steps[..|steps| - 1]);
      StepKeepsOne(l, Steps(l, Initial(now), steps[..|steps| - 1]), steps[|steps| - 1]);
    }
  }

  lemma NothingTwice(now: Time)
    ensures OneEach(Initial(now).state)
  {
  }

  // ---------- What each end means ----------

  /** The world just before the upload's own last step. */
  function BeforeEnd(l: Limits, w: World, c: Closing): World
    requires l.Valid() && c.steps != []
  {
    Steps(l, w, c.steps[..|c.steps| - 1])
  }

  /** The request is stored, live, with this content under this name. */
  ghost predicate StoredAs(s: State, request: Request, body: Body)
  {
    exists i | 0 <= i < |s.assets| ::
      && s.assets[i].live && s.assets[i].request == request.id
      && s.assets[i].body.digest == body.digest && s.assets[i].name == request.name
  }

  lemma {:induction false} FindWitness(assets: seq<Asset>, request: string) returns (i: nat)
    requires FindByRequest(assets, request).Some?
    ensures i < |assets| && assets[i] == FindByRequest(assets, request).value
    ensures assets[i].live && assets[i].request == request
  {
    if assets[0].live && assets[0].request == request {
      i := 0;
    } else {
      i := FindWitness(assets[1..], request);
      i := i + 1;
    }
  }

  lemma {:induction false} FindLive(assets: seq<Asset>, i: nat)
    requires i < |assets| && assets[i].live
    requires forall j, k | 0 <= j < k < |assets| :: assets[j].request != assets[k].request
    ensures FindByRequest(assets, assets[i].request) == Some(assets[i])
  {
    if i > 0 {
      assert assets[0].request != assets[i].request;
      FindLive(assets[1..], i - 1);
    }
  }

  lemma DuplicateIff(s: State, request: Request, body: Body)
    requires OneEach(s)
    ensures Duplicate(s, request, body) <==> StoredAs(s, request, body)
  {
    if FindByRequest(s.assets, request.id).Some? { var i := FindWitness(s.assets, request.id); }
    hide FindByRequest;
    if StoredAs(s, request, body) {
      var i :| 0 <= i < |s.assets|
        && s.assets[i].live && s.assets[i].request == request.id
        && s.assets[i].body.digest == body.digest && s.assets[i].name == request.name;
      FindLive(s.assets, i);
    }
  }

  /**
   Whatever throws and whatever others do: an upload that reports a new asset added exactly that row, for a request
   with no row; one that reports a replay saw the request stored with its content and name; and no other end of an
   upload adds or changes any asset.
   */
  lemma EndMeans(l: Limits, w: World, u: nat, r: nat, request: Request, a: Answers)
    requires l.Valid() && UploadsSound(w) && Holds(w, u, r) && w.state.reservations[r].request == request.id
    ensures var c := Closed(l, w, u, request, a);
            && c.steps != []
            && var before, end := BeforeEnd(l, w, c), Steps(l, w, c.steps);
               && (c.ended == Created ==>
                     && a.body.Some? && l.Accepts(a.body.value)
                     && (forall i | 0 <= i < |before.state.assets| :: before.state.assets[i].request != request.id)
                     && end.state.assets == before.state.assets
                        + [Asset(request.id, a.body.value, request.name, true, false,
                                 Some(before.state.now + UNLINKED_TTL))])
               && (c.ended == Replayed ==>
                     && a.body.Some? && l.Accepts(a.body.value) && Duplicate(before.state, request, a.body.value)
                     && end.state.assets == before.state.assets)
               && (c.ended == Threw ==> end.state.assets == before.state.assets)
  {
    hide Closed, TakenRequest, Duplicate, UploadsSound, Apply, FindByRequest;
    var c := Closed(l, w, u, request, a);
    ClosedShape(l, w, u, request, a);
    ClosedMeans(l, w, u, request, a);
    var n := |c.steps| - 1;
    assert forall i | 0 <= i < n :: c.steps[..n][i] == c.steps[i];
    StillHolds(l, w, u, r, c.steps[..n]);
    hide Holds;
    LastStepMeans(l, BeforeEnd(l, w, c), u, r, request, c.steps[n]);
  }

  /** The last step fits the end that is reported. */
  lemma ClosedMeans(l: Limits, w: World, u: nat, request: Request, a: Answers)
    requires l.Valid()
    ensures var c := Closed(l, w, u, request, a);
            && c.steps != []
            && var before, last := BeforeEnd(l, w, c), c.steps[|c.steps| - 1];
               && (c.ended == Created ==>
                     && a.body.Some? && l.Accepts(a.body.value) && last == Finish(u, a.body.value, request.name)
                     && !TakenRequest(before.state, request.id))
               && (c.ended == Replayed ==>
                     && a.body.Some? && l.Accepts(a.body.value) && (last == Leave(u) || last == Fail(u))
                     && Duplicate(before.state, request, a.body.value))
               && (c.ended == Threw ==> last == Leave(u) || last == Fail(u))
  {
    var early := Others(u, a.whileReading);
    var late := early + Others(u, a.whileScanning);
    Fronts(early, u);
    Fronts(late, u);
    if a.body.Some? {
      var finish := Finish(u, a.body.value, request.name);
      assert (late + [finish])[..|late|] == late;
    }
    hide Others, Steps, Duplicate, TakenRequest, FindByRequest;
  }

  lemma Fronts(steps: seq<Step>, u: nat)
    ensures (steps + [Leave(u)])[..|steps|] == steps && (steps + [Fail(u)])[..|steps|] == steps
  {
  }

  lemma LastStepMeans(l: Limits, w: World, u: nat, r: nat, request: Request, step: Step)
    requires l.Valid() && Holds(w, u, r) && w.state.reservations[r].request == request.id
    requires step == Fail(u) || step == Leave(u)
      || (step.Finish? && step.upload == u && l.Accepts(step.body) && step.name == request.name
          && !TakenRequest(w.state, request.id))
    ensures var end := Apply(l, w, step);
            if step.Finish? then
              && (forall i | 0 <= i < |w.state.assets| :: w.state.assets[i].request != request.id)
              && end.state.assets == w.state.assets
                 + [Asset(request.id, step.body, request.name, true, false, Some(w.state.now + UNLINKED_TTL))]
            else end.state.assets == w.state.assets
  {
  }

  // ---------- An upload nobody interferes with ----------

  /** Every call answers, this is the body, and nobody else is about. */
  predicate Smooth(a: Answers, body: Body)
  {
    && a.ready && a.found && a.key && a.sameDrive && a.inserted && a.valid && a.lookup && a.scanned && a.sealed
    && a.stored && a.again && a.innerRelease && a.outerRelease
    && a.beforeKey == a.whileReading == a.whileScanning == [] && a.body == Some(body)
  }

  /** The bytes set aside: the declared length, or a full file when none is declared. */
  function SetAside(l: Limits, declared: Option<int>): int
  {
    if declared.Some? && declared.value > 0 then declared.value else l.maxFileBytes
  }

  /** There is room, and no upload of this request is under way. */
  ghost predicate Admitted(l: Limits, s: State, request: Request)
  {
    && OpenCount(s) < l.maxConcurrentUploads
    && Unlinked(s) + Reserved(s) + SetAside(l, request.declared) <= l.unlinkedQuotaBytes
    && Stored(s) + Reserved(s) + SetAside(l, request.declared) <= l.totalQuotaBytes
    && forall i | 0 <= i < |s.reservations| && s.reservations[i].open :: s.reservations[i].request != request.id
  }

  /**
   When every call answers and nobody interferes, the end of an upload is decided by the tables: it replays exactly
   when the request is stored with this content and name, it creates exactly when the request has no row and there is
   room, and it throws otherwise; a declared length of zero or beyond the limit, or such a body, always throws.
   */
  lemma SmoothIff(l: Limits, w: World, request: Request, a: Answers, body: Body)
    requires l.Valid() && UploadsSound(w) && OneEach(w.state) && Smooth(a, body)
    ensures var fits := 1 <= body.size <= l.maxFileBytes
              && (request.declared.Some? ==> request.declared.value != 0 && request.declared.value <= l.maxFileBytes);
            var e := Verdict(l, w, request, a);
            && (e == Replayed <==> fits && StoredAs(w.state, request, body))
            && (e == Created <==>
                  && fits && Admitted(l, w.state, request)
                  && forall i | 0 <= i < |w.state.assets| :: w.state.assets[i].request != request.id)
  {
    assert Steps(l, w, []) == w;
    DuplicateIff(w.state, request, body);
    SmoothOpened(l, w, request, a, body);
    if Opened(l, w, request, a).Some? {
      SmoothClosed(l, Opened(l, w, request, a).value, request, a, body);
    }
    NoRowNotFound(w.state.assets, request.id);
    hide Opened, Closed, Duplicate, FindByRequest, Steps, Apply, StoredAs, UploadsSound, OneEach, Admitted;
  }

  lemma NoRowNotFound(assets: seq<Asset>, request: string)
    ensures FindByRequest(assets, request).Some? ==> exists i :: 0 <= i < |assets| && assets[i].request == request
  {
    if FindByRequest(assets, request).Some? { var i := FindWitness(assets, request); }
  }

  lemma SmoothOpened(l: Limits, w: World, request: Request, a: Answers, body: Body)
    requires l.Valid() && Smooth(a, body)
    ensures var sized := request.declared.Some? ==> request.declared.value != 0 && request.declared.value <= l.maxFileBytes;
            var begun := Opened(l, w, request, a);
            && (LooksUp(l, request, a) <==> sized)
            && (begun.Some? <==> sized && FindByRequest(w.state.assets, request.id).None? && Admitted(l, w.state, request))
            && (begun.Some? ==>
                  && begun.value.uploads == w.uploads + [Upload(|w.state.reservations|, true)]
                  && begun.value.state.assets == w.state.assets)
  {
    assert Steps(l, w, []) == w;
    hide FindByRequest, OpenCount, Unlinked, Reserved, Stored, Steps;
  }

  lemma SmoothClosed(l: Limits, w: World, request: Request, a: Answers, body: Body)
    requires l.Valid() && Smooth(a, body)
    ensures var e := Closed(l, w, Last(w), request, a).ended;
            && (e == Replayed <==> 1 <= body.size <= l.maxFileBytes && Duplicate(w.state, request, body))
            && (e == Created <==>
                  && 1 <= body.size <= l.maxFileBytes && FindByRequest(w.state.assets, request.id).None?
                  && forall i | 0 <= i < |w.state.assets| :: w.state.assets[i].request != request.id)
  {
    assert Others(Last(w), []) == [] && Steps(l, w, []) == w && Others(Last(w), []) + [] == [];
    hide FindByRequest, Steps;
  }

  /** A call that throws never goes unnoticed: an upload that ends well had every call on its way answered. */
  lemma EndsWell(l: Limits, w: World, request: Request, a: Answers)
    requires l.Valid()
    ensures var e := Verdict(l, w, request, a);
            && (e != Threw ==> a.ready && a.found && a.key && a.body.Some? && l.Accepts(a.body.value))
            && (e != Threw && FindByRequest(w.state.assets, request.id).Some? ==> e == Replayed && a.sameDrive)
            && (e != Threw && FindByRequest(w.state.assets, request.id).None? ==> a.inserted && a.valid && a.lookup)
            && (e == Created ==> a.scanned && a.sealed && a.stored)
  {
    hide Steps, FindByRequest, ReserveFault, Apply, TakenRequest, Others;
  }

  // ---------- What counts against the quotas ----------

  /** The state without one asset. */
  function Without(s: State, i: nat): State
    requires i < |s.assets|
  {
    s.(assets := s.assets[i := s.assets[i].(live := false)])
  }

  /**
   A live asset counts against the total quota with its size; against the unlinked one as long as no draft links it
   and it has not expired.  A dead one counts against neither.
   */
  lemma CountsIff(s: State, i: nat)
    requires i < |s.assets|
    ensures var a := s.assets[i];
            && Stored(s) == Stored(Without(s, i)) + (if a.live then a.body.size else 0)
            && Unlinked(s) == Unlinked(Without(s, i))
               + if a.live && !a.linked && (a.expiresAt.Some? ==> s.now < a.expiresAt.value) then a.body.size else 0
  {
    var dead := s.assets[i].(live := false);
    SumUpdate(StoredSize, s.assets, i, dead);
    SumUpdate(UnlinkedSize(s.now), s.assets, i, dead);
  }

  /** An open reservation counts with its bytes and as one upload, a closed one not at all. */
  lemma ReservationCounts(s: State, r: nat)
    requires r < |s.reservations|
    ensures var booking := s.reservations[r];
            && Reserved(s) == Reserved(Release(s, r)) + (if booking.open then booking.bytes else 0)
            && OpenCount(s) == OpenCount(Release(s, r)) + (if booking.open then 1 else 0)
  {
    var closed := s.reservations[r].(open := false);
    SumUpdate(OpenBytes, s.reservations, r, closed);
    SumUpdate(OpenOne, s.reservations, r, closed);
  }

  /** What the surroundings do: discard an unlinked asset, retire any, link one, or let time pass. */
  lemma SurroundingsMean(l: Limits, w: World, a: nat, now: Time)
    requires l.Valid()
    ensures var s, known := w.state, a < |w.state.assets|;
            && Apply(l, w, Discard(a)) == (if known && s.assets[a].live && !s.assets[a].linked
                                           then w.(state := Without(s, a)) else w)
            && Apply(l, w, Retire(a)) == (if known && s.assets[a].live then w.(state := Without(s, a)) else w)
            && (known ==> Apply(l, w, Link(a)).state == s.(assets := s.assets[a := s.assets[a].(linked := true)]))
            && (!known ==> Apply(l, w, Link(a)) == w)
            && Apply(l, w, Tick(now)) == w.(state := s.(now := if now > s.now then now else s.now))
  {
  }

  /** A declared length is what is reserved; without one, or with a negative one, as much as a file may have. */
  lemma DeclaredMeans(l: Limits, declared: Option<int>)
    requires l.Valid()
    ensures var r := DeclaredBytes(l, declared);
            && (r == Err(TooLarge) <==> declared.Some? && declared.value > l.maxFileBytes)
            && (r == Err(Empty) <==> declared == Some(0))
            && (r.Ok? ==> r.value == if declared.Some? && 0 <= declared.value then declared.value else l.maxFileBytes)
            && (r.Err? ==> r.error in {TooLarge, Empty})
  {
  }

  /** A reservation is refused for the first of three demands that is not met, and only then. */
  lemma FaultIff(l: Limits, s: State, request: string, bytes: nat)
    ensures var r := ReserveFault(l, s, request, bytes);
            var many := OpenCount(s) >= l.maxConcurrentUploads;
            var full := || Unlinked(s) + Reserved(s) + bytes > l.unlinkedQuotaBytes
                        || Stored(s) + Reserved(s) + bytes > l.totalQuotaBytes;
            var running := exists i :: 0 <= i < |s.reservations| && s.reservations[i].open && s.reservations[i].request == request;
            && (r == Some(ConcurrencyLimit) <==> many)
            && (r == Some(QuotaExceeded) <==> !many && full)
            && (r == Some(RequestConflict) <==> !many && !full && running)
            && (r.None? <==> !many && !full && !running)
  {
  }
}
