/**
 Attachment uploads under quota: reservations are taken before a body is read and given back when the asset is
 stored, over every interleaving of uploads, discards, expiry and linking, in one mailbox.
 */
module AttachmentQuota {
  import opened Wrappers

  type Time = int

  datatype Body = Body(size: nat, digest: string)

  datatype Limits = Limits(maxFileBytes: nat, maxConcurrentUploads: nat, unlinkedQuotaBytes: nat, totalQuotaBytes: nat)
  {
    predicate Valid() { maxFileBytes >= 1 }

    /** The bodies the bounded reader returns. */
    predicate Accepts(body: Body) { 1 <= body.size <= maxFileBytes }
  }

  const ATTACHMENT_LIMITS := Limits(2_097_152, 2, 128 * 1024 * 1024, 512 * 1024 * 1024)
  const UNLINKED_TTL := 24 * 60 * 60 * 1000

  datatype Asset = Asset(
    request: string, body: Body, name: string, live: bool, linked: bool, expiresAt: Option<Time>)
  {
    const size := body.size
  }

  datatype Reservation = Reservation(request: string, bytes: nat, open: bool)

  datatype State = State(assets: seq<Asset>, reservations: seq<Reservation>, now: Time)

  datatype Code = ConcurrencyLimit | QuotaExceeded | RequestConflict | TooLarge | Empty

  // ---------- Sums over tables ----------

  function Sum<T>(f: T -> nat, xs: seq<T>): nat
  {
    if xs == [] then 0 else Sum(f, xs[..|xs| - 1]) + f(xs[|xs| - 1])
  }

  lemma {:induction false} SumUpdate<T>(f: T -> nat, xs: seq<T>, i: nat, x: T)
    requires i < |xs|
    ensures Sum(f, xs[i := x]) == Sum(f, xs) - f(xs[i]) + f(x)
    ensures f(xs[i]) <= Sum(f, xs)
  {
    var n := |xs| - 1;
    if i == n {
      assert xs[i := x][..n] == xs[..n];
    } else {
      SumUpdate(f, xs[..n], i, x);
      assert xs[i := x][..n] == xs[..n][i := x];
    }
  }

  lemma SumAppend<T>(f: T -> nat, xs: seq<T>, x: T)
    ensures Sum(f, xs + [x]) == Sum(f, xs) + f(x)
  {
    assert (xs + [x])[..|xs|] == xs;
  }

  lemma {:induction false} SumLe<T>(f: T -> nat, g: T -> nat, xs: seq<T>)
    requires forall x | x in xs :: f(x) <= g(x)
    ensures Sum(f, xs) <= Sum(g, xs)
  {
    if xs != [] { SumLe(f, g, xs[..|xs| - 1]); }
  }

  function StoredSize(a: Asset): nat { if a.live then a.size else 0 }

  function UnlinkedSize(now: Time): Asset -> nat
  {
    (a: Asset) => if a.live && !a.linked && (a.expiresAt.None? || a.expiresAt.value > now) then a.size else 0
  }

  function OpenBytes(r: Reservation): nat { if r.open then r.bytes else 0 }

  function OpenOne(r: Reservation): nat { if r.open then 1 else 0 }

  function Stored(s: State): nat { Sum(StoredSize, s.assets) }

  function Unlinked(s: State): nat { Sum(UnlinkedSize(s.now), s.assets) }

  function Reserved(s: State): nat { Sum(OpenBytes, s.reservations) }

  function OpenCount(s: State): nat { Sum(OpenOne, s.reservations) }

  // ---------- The transactions ----------

  /** The asset a request was stored as, unless it has expired. */
  function FindByRequest(assets: seq<Asset>, request: string): Option<Asset>
  {
    if assets == [] then None
    else if assets[0].live && assets[0].request == request then Some(assets[0])
    else FindByRequest(assets[1..], request)
  }

  /** The unique index of the asset table also counts expired assets. */
  predicate TakenRequest(s: State, request: string)
  {
    exists i | 0 <= i < |s.assets| :: s.assets[i].request == request
  }

  predicate InFlight(s: State, request: string)
  {
    exists i | 0 <= i < |s.reservations| :: s.reservations[i].open && s.reservations[i].request == request
  }

  function ReserveFault(l: Limits, s: State, request: string, bytes: nat): Option<Code>
  {
    if OpenCount(s) >= l.maxConcurrentUploads then Some(ConcurrencyLimit)
    else if Unlinked(s) + Reserved(s) + bytes > l.unlinkedQuotaBytes then Some(QuotaExceeded)
    else if Stored(s) + Reserved(s) + bytes > l.totalQuotaBytes then Some(QuotaExceeded)
    else if InFlight(s, request) then Some(RequestConflict)
    else None
  }

  function Reserve(s: State, request: string, bytes: nat): State
  {
    s.(reservations := s.reservations + [Reservation(request, bytes, true)])
  }

  function Release(s: State, r: nat): State
    requires r < |s.reservations|
  {
    s.(reservations := s.reservations[r := s.reservations[r].(open := false)])
  }

  /** Store the asset and give the reservation back, in one transaction. */
  function Store(s: State, r: nat, body: Body, name: string): State
    requires r < |s.reservations|
  {
    Release(s.(assets := s.assets + [NewAsset(s, s.reservations[r].request, body, name)]), r)
  }

  function NewAsset(s: State, request: string, body: Body, name: string): Asset
  {
    Asset(request, body, name, true, false, Some(s.now + UNLINKED_TTL))
  }

  // ---------- Uploads in flight ----------

  /** An upload that has its reservation; `active` until it returns or throws. */
  datatype Upload = Upload(reservation: nat, active: bool)

  datatype World = World(state: State, uploads: seq<Upload>)

  /** What an upload or the surroundings may do next; `Leave` ends an upload without giving its reservation back. */
  datatype Step =
    | Begin(request: string, declared: Option<int>)
    | Finish(upload: nat, body: Body, name: string)
    | Fail(upload: nat)
    | Leave(upload: nat)
    | Discard(asset: nat)
    | Retire(asset: nat)
    | Link(asset: nat)
    | Tick(now: Time)

  function DeclaredBytes(l: Limits, declared: Option<int>): Result<nat, Code>
    requires l.Valid()
  {
    if declared.Some? && declared.value > 0 && declared.value > l.maxFileBytes then Err(TooLarge)
    else if declared.Some? && declared.value == 0 then Err(Empty)
    else Ok(if declared.Some? && declared.value > 0 then declared.value else l.maxFileBytes)
  }

  predicate Going(w: World, u: nat)
  {
    u < |w.uploads| && w.uploads[u].active && w.uploads[u].reservation < |w.state.reservations|
  }

  function Stop(w: World, u: nat): seq<Upload>
    requires u < |w.uploads|
  {
    w.uploads[u := w.uploads[u].(active := false)]
  }

  function Apply(l: Limits, w: World, step: Step): World
    requires l.Valid()
  {
    var s := w.state;
    match step
    case Begin(request, declared) =>
      var bytes := DeclaredBytes(l, declared);
      if bytes.Err? || ReserveFault(l, s, request, bytes.value).Some? then w
      else World(Reserve(s, request, bytes.value), w.uploads + [Upload(|s.reservations|, true)])
    case Finish(u, body, name) =>
      if !Going(w, u) || !l.Accepts(body) then w
      else
        var r := w.uploads[u].reservation;
        World(if TakenRequest(s, s.reservations[r].request) then Release(s, r) else Store(s, r, body, name), Stop(w, u))
    case Fail(u) =>
      if !Going(w, u) then w else World(Release(s, w.uploads[u].reservation), Stop(w, u))
    case Leave(u) => if !Going(w, u) then w else w.(uploads := Stop(w, u))
    case Discard(a) =>
      if a >= |s.assets| || !s.assets[a].live || s.assets[a].linked then w
      else w.(state := s.(assets := s.assets[a := s.assets[a].(live := false)]))
    case Retire(a) =>
      if a >= |s.assets| || !s.assets[a].live then w
      else w.(state := s.(assets := s.assets[a := s.assets[a].(live := false)]))
    case Link(a) =>
      if a >= |s.assets| then w else w.(state := s.(assets := s.assets[a := s.assets[a].(linked := true)]))
    case Tick(now) =>
      if now < s.now then w else w.(state := s.(now := now))
  }

  function Steps(l: Limits, w: World, steps: seq<Step>): World
    requires l.Valid()
  {
    if steps == [] then w else Apply(l, Steps(l, w, steps[..|steps| - 1]), steps[|steps| - 1])
  }

  function Initial(now: Time): World { World(State([], [], now), []) }

  function Run(l: Limits, now: Time, steps: seq<Step>): World
    requires l.Valid()
  {
    Steps(l, Initial(now), steps)
  }

  // ---------- The bounds ----------

  /** How far bodies of arbitrary length may have overdrawn the quota by now. */
  function Slack(l: Limits, s: State): int
    requires l.Valid()
  {
    (l.maxConcurrentUploads - OpenCount(s)) * (l.maxFileBytes - 1)
  }

  ghost predicate UploadsSound(w: World)
  {
    && (forall u | 0 <= u < |w.uploads| && w.uploads[u].active ::
          w.uploads[u].reservation < |w.state.reservations| && w.state.reservations[w.uploads[u].reservation].open)
    && (forall u, v | 0 <= u < v < |w.uploads| && w.uploads[u].active && w.uploads[v].active ::
          w.uploads[u].reservation != w.uploads[v].reservation)
    && (forall r | 0 <= r < |w.state.reservations| :: w.state.reservations[r].bytes >= 1)
  }

  ghost predicate Within(l: Limits, s: State, slack: int)
  {
    && OpenCount(s) <= l.maxConcurrentUploads
    && Stored(s) + Reserved(s) <= l.totalQuotaBytes + slack
    && Unlinked(s) + Reserved(s) <= l.unlinkedQuotaBytes + slack
  }

  lemma ReserveSums(s: State, request: string, bytes: nat)
    ensures var s' := Reserve(s, request, bytes);
            && Stored(s') == Stored(s) && Unlinked(s') == Unlinked(s)
            && Reserved(s') == Reserved(s) + bytes && OpenCount(s') == OpenCount(s) + 1
  {
    SumAppend(OpenBytes, s.reservations, Reservation(request, bytes, true));
    SumAppend(OpenOne, s.reservations, Reservation(request, bytes, true));
  }

  lemma ReleaseSums(s: State, r: nat)
    requires r < |s.reservations| && s.reservations[r].open
    ensures var s' := Release(s, r);
            && Stored(s') == Stored(s) && Unlinked(s') == Unlinked(s)
            && Reserved(s') == Reserved(s) - s.reservations[r].bytes && OpenCount(s') == OpenCount(s) - 1
  {
    SumUpdate(OpenBytes, s.reservations, r, s.reservations[r].(open := false));
    SumUpdate(OpenOne, s.reservations, r, s.reservations[r].(open := false));
  }

  lemma StoreSums(s: State, r: nat, body: Body, name: string)
    requires r < |s.reservations| && s.reservations[r].open
    ensures var s' := Store(s, r, body, name);
            && Stored(s') == Stored(s) + body.size && Unlinked(s') == Unlinked(s) + body.size
            && Reserved(s') == Reserved(s) - s.reservations[r].bytes && OpenCount(s') == OpenCount(s) - 1
  {
    var a := NewAsset(s, s.reservations[r].request, body, name);
    SumAppend(StoredSize, s.assets, a);
    SumAppend(UnlinkedSize(s.now), s.assets, a);
    ReleaseSums(s.(assets := s.assets + [a]), r);
  }

  /** A change of one asset that makes it count for no more. */
  lemma AssetSums(s: State, i: nat, a: Asset)
    requires i < |s.assets| && StoredSize(a) <= StoredSize(s.assets[i])
    requires UnlinkedSize(s.now)(a) <= UnlinkedSize(s.now)(s.assets[i])
    ensures var s' := s.(assets := s.assets[i := a]);
            && Stored(s') <= Stored(s) && Unlinked(s') <= Unlinked(s)
            && Reserved(s') == Reserved(s) && OpenCount(s') == OpenCount(s)
  {
    SumUpdate(StoredSize, s.assets, i, a);
    SumUpdate(UnlinkedSize(s.now), s.assets, i, a);
  }

  lemma TickSums(s: State, now: Time)
    requires now >= s.now
    ensures Unlinked(s.(now := now)) <= Unlinked(s)
  {
    SumLe(UnlinkedSize(now), UnlinkedSize(s.now), s.assets);
  }

  lemma SlackGrows(k: int, open: int, m: int)
    ensures (k - (open - 1)) * m == (k - open) * m + m
  {
  }

  lemma SlackPositive(k: int, m: int)
    requires k >= 0 && m >= 0
    ensures k * m >= 0
  {
  }

  /** Does the step store no more than was reserved for it? */
  predicate BodyFits(w: World, step: Step)
  {
    step.Finish? && Going(w, step.upload) ==>
      step.body.size <= w.state.reservations[w.uploads[step.upload].reservation].bytes
  }

  lemma ReservationChange(w: World, l: Limits, r: nat, body: Body, name: string)
    requires l.Valid() && r < |w.state.reservations| && w.state.reservations[r].open
    requires w.state.reservations[r].bytes >= 1 && body.size <= l.maxFileBytes
    ensures Within(l, w.state, Slack(l, w.state)) ==>
      && Within(l, Release(w.state, r), Slack(l, Release(w.state, r)))
      && Within(l, Store(w.state, r, body, name), Slack(l, Store(w.state, r, body, name)))
    ensures Within(l, w.state, 0) ==>
      Within(l, Release(w.state, r), 0)
      && (body.size <= w.state.reservations[r].bytes ==> Within(l, Store(w.state, r, body, name), 0))
  {
    ReleaseSums(w.state, r);
    StoreSums(w.state, r, body, name);
    SlackGrows(l.maxConcurrentUploads, OpenCount(w.state), l.maxFileBytes - 1);
    hide Stored, Unlinked, Reserved, OpenCount, Store, Release;
  }

  lemma ReserveChange(l: Limits, s: State, request: string, bytes: nat)
    requires l.Valid() && ReserveFault(l, s, request, bytes).None?
    ensures var s' := Reserve(s, request, bytes); Within(l, s', Slack(l, s')) && Within(l, s', 0)
  {
    ReserveSums(s, request, bytes);
    SlackPositive(l.maxConcurrentUploads - OpenCount(s) - 1, l.maxFileBytes - 1);
    hide Stored, Unlinked, Reserved, OpenCount, Reserve, InFlight;
  }

  lemma AssetChange(l: Limits, s: State, s': State)
    requires l.Valid() && Stored(s') <= Stored(s) && Unlinked(s') <= Unlinked(s)
    requires Reserved(s') == Reserved(s) && OpenCount(s') == OpenCount(s)
    ensures Within(l, s, Slack(l, s)) ==> Within(l, s', Slack(l, s'))
    ensures Within(l, s, 0) ==> Within(l, s', 0)
  {
    hide Stored, Unlinked, Reserved, OpenCount;
  }

  /** One step of any upload, or of the surroundings. */
  lemma ApplyWithin(l: Limits, w: World, step: Step)
    requires l.Valid() && UploadsSound(w)
    ensures Within(l, w.state, Slack(l, w.state)) ==>
      Within(l, Apply(l, w, step).state, Slack(l, Apply(l, w, step).state))
    ensures Within(l, w.state, 0) && BodyFits(w, step) ==> Within(l, Apply(l, w, step).state, 0)
  {
    hide Within, Slack, Store, Release, Reserve, Stored, Unlinked, Reserved, OpenCount, TakenRequest;
    var s := w.state;
    match step
    case Begin(request, declared) =>
      var bytes := DeclaredBytes(l, declared);
      if bytes.Ok? && ReserveFault(l, s, request, bytes.value).None? {
        ReserveChange(l, s, request, bytes.value);
      }
    case Finish(u, body, name) =>
      if Going(w, u) && l.Accepts(body) { ReservationChange(w, l, w.uploads[u].reservation, body, name); }
    case Fail(u) =>
      if Going(w, u) { ReservationChange(w, l, w.uploads[u].reservation, Body(0, ""), ""); }
    case Leave(_) =>
    case Discard(a) =>
      if a < |s.assets| { LesserAsset(l, s, a, s.assets[a].(live := false)); }
    case Retire(a) =>
      if a < |s.assets| { LesserAsset(l, s, a, s.assets[a].(live := false)); }
    case Link(a) =>
      if a < |s.assets| { LesserAsset(l, s, a, s.assets[a].(linked := true)); }
    case Tick(now) =>
      if now >= s.now {
        TickSums(s, now);
        TickKeeps(s, now);
        AssetChange(l, s, s.(now := now));
      }
  }

  lemma TickKeeps(s: State, now: Time)
    ensures var s' := s.(now := now);
            Stored(s') == Stored(s) && Reserved(s') == Reserved(s) && OpenCount(s') == OpenCount(s)
  {
  }

  lemma LesserAsset(l: Limits, s: State, i: nat, a: Asset)
    requires l.Valid() && i < |s.assets| && StoredSize(a) <= StoredSize(s.assets[i])
    requires UnlinkedSize(s.now)(a) <= UnlinkedSize(s.now)(s.assets[i])
    ensures var s' := s.(assets := s.assets[i := a]);
            && (Within(l, s, Slack(l, s)) ==> Within(l, s', Slack(l, s')))
            && (Within(l, s, 0) ==> Within(l, s', 0))
  {
    AssetSums(s, i, a);
    AssetChange(l, s, s.(assets := s.assets[i := a]));
  }

  lemma ApplySound(l: Limits, w: World, step: Step)
    requires l.Valid() && UploadsSound(w)
    ensures UploadsSound(Apply(l, w, step))
  {
    hide ReserveFault, TakenRequest;
  }

  /**
   In every run, no more than the allowed number of reservations is open, and what is stored exceeds the total
   quota by at most the slack of the closed ones: never by more than one file less a byte for each concurrent
   upload.  The same holds of the unlinked quota.
   */
  lemma {:induction false} QuotaHolds(l: Limits, now: Time, steps: seq<Step>)
    requires l.Valid()
    ensures var w := Run(l, now, steps);
            && UploadsSound(w) && Within(l, w.state, Slack(l, w.state))
            && Stored(w.state) <= l.totalQuotaBytes + l.maxConcurrentUploads * (l.maxFileBytes - 1)
            && Unlinked(w.state) <= l.unlinkedQuotaBytes + l.maxConcurrentUploads * (l.maxFileBytes - 1)
  {
    var w := Run(l, now, steps);
    if steps == [] {
      SlackPositive(l.maxConcurrentUploads, l.maxFileBytes - 1);
    } else {
      var n := |steps| - 1;
      QuotaHolds(l, now, steps[..n]);
      hide Apply, UploadsSound, Within, Slack;
      ApplyWithin(l, Run(l, now, steps[..n]), steps[n]);
      ApplySound(l, Run(l, now, steps[..n]), steps[n]);
    }
    SlackBound(l, w.state);
  }

  /** With the limits the service ships with: two uploads of at most two mebibytes each. */
  lemma DefaultQuotaHolds(now: Time, steps: seq<Step>)
    ensures var s := Run(ATTACHMENT_LIMITS, now, steps).state;
            && Stored(s) <= 512 * 1024 * 1024 + 2 * (2 * 1024 * 1024 - 1)
            && Unlinked(s) <= 128 * 1024 * 1024 + 2 * (2 * 1024 * 1024 - 1)
            && OpenCount(s) <= 2
  {
    hide Run, UploadsSound, Slack;
    QuotaHolds(ATTACHMENT_LIMITS, now, steps);
  }

  lemma SlackBound(l: Limits, s: State)
    requires l.Valid()
    ensures Slack(l, s) <= l.maxConcurrentUploads * (l.maxFileBytes - 1)
  {
    SlackPositive(OpenCount(s), l.maxFileBytes - 1);
    assert Slack(l, s) == l.maxConcurrentUploads * (l.maxFileBytes - 1) - OpenCount(s) * (l.maxFileBytes - 1);
  }

  /** When no body is longer than what was reserved for it, stored and reserved bytes never pass the quotas. */
  lemma {:induction false} FittingQuotaHolds(l: Limits, now: Time, steps: seq<Step>)
    requires l.Valid()
    requires forall i | 0 <= i < |steps| :: BodyFits(Run(l, now, steps[..i]), steps[i])
    ensures var s := Run(l, now, steps).state;
            Stored(s) + Reserved(s) <= l.totalQuotaBytes && Unlinked(s) + Reserved(s) <= l.unlinkedQuotaBytes
            && Within(l, s, 0)
  {
    if steps != [] {
      var n := |steps| - 1;
      forall i | 0 <= i < n ensures BodyFits(Run(l, now, steps[..n][..i]), steps[..n][i]) {
        assert steps[..n][..i] == steps[..i];
      }
      FittingQuotaHolds(l, now, steps[..n]);
      QuotaHolds(l, now, steps[..n]);
      hide Apply, UploadsSound, Stored, Unlinked, Reserved, OpenCount, BodyFits;
      ApplyWithin(l, Run(l, now, steps[..n]), steps[n]);
    }
  }

  // ---------- Reservations that nobody gives back ----------

  /** An open reservation that no active upload holds. */
  ghost predicate Stranded(w: World, r: nat)
  {
    && r < |w.state.reservations| && w.state.reservations[r].open
    && forall u | 0 <= u < |w.uploads| && w.uploads[u].active :: w.uploads[u].reservation != r
  }

  /** Once stranded, a reservation stays open whatever happens. */
  lemma StrandedStays(l: Limits, w: World, step: Step, r: nat)
    requires l.Valid() && UploadsSound(w) && Stranded(w, r)
    ensures Stranded(Apply(l, w, step), r)
  {
    hide ReserveFault, TakenRequest;
  }

  lemma {:induction false} OpenAtLeast(rs: seq<Reservation>, n: nat, which: seq<nat>)
    requires |which| == n && (forall i | 0 <= i < n :: which[i] < |rs| && rs[which[i]].open)
    requires forall i, j | 0 <= i < j < n :: which[i] != which[j]
    ensures Sum(OpenOne, rs) >= n
    decreases n
  {
    if n > 0 {
      var r := which[n - 1];
      SumUpdate(OpenOne, rs, r, rs[r].(open := false));
      OpenAtLeast(rs[r := rs[r].(open := false)], n - 1, which[..n - 1]);
    }
  }

  /** When as many reservations are stranded as uploads may run at once, every later upload is refused. */
  lemma StrandedBlocks(l: Limits, w: World, which: seq<nat>, request: string, declared: Option<int>)
    requires l.Valid() && |which| == l.maxConcurrentUploads
    requires forall i | 0 <= i < |which| :: Stranded(w, which[i])
    requires forall i, j | 0 <= i < j < |which| :: which[i] != which[j]
    ensures Apply(l, w, Begin(request, declared)) == w
  {
    OpenAtLeast(w.state.reservations, |which|, which);
  }
}
