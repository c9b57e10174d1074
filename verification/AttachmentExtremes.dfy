/** Runs from the empty service that reach the quota bounds, and runs that leave it refusing every upload. */
module AttachmentExtremes {
  import opened Wrappers
  import opened AttachmentQuota
  import opened AttachmentUpload

  // ---------- The quota bounds are reached ----------

  function Name(k: nat): string { seq(k, i => 'r') }

  const ONE := Body(1, "")

  /** `done` of `begun` one-byte reservations have become assets, in order, and these are the sums. */
  ghost predicate Filled(w: World, done: nat, begun: nat, stored: nat, unlinked: nat)
  {
    && done <= begun && |w.state.assets| == done && |w.state.reservations| == |w.uploads| == begun
    && (forall i | 0 <= i < begun :: w.state.reservations[i] == Reservation(Name(i), 1, i >= done))
    && (forall i | 0 <= i < begun :: w.uploads[i] == Upload(i, i >= done))
    && (forall i | 0 <= i < done :: w.state.assets[i].request == Name(i))
    && Stored(w.state) == stored && Unlinked(w.state) == unlinked
    && Reserved(w.state) == begun - done && OpenCount(w.state) == begun - done
  }

  lemma BeginOne(l: Limits, w: World, done: nat, begun: nat, stored: nat, unlinked: nat)
    requires l.Valid() && Filled(w, done, begun, stored, unlinked)
    requires begun - done < l.maxConcurrentUploads
    requires unlinked + (begun - done) + 1 <= l.unlinkedQuotaBytes && stored + (begun - done) + 1 <= l.totalQuotaBytes
    ensures Filled(Apply(l, w, Begin(Name(begun), Some(1))), done, begun + 1, stored, unlinked)
  {
    ReserveSums(w.state, Name(begun), 1);
    assert !InFlight(w.state, Name(begun)) by {
      assert forall i | 0 <= i < begun :: |w.state.reservations[i].request| == i;
    }
    hide Stored, Unlinked, Reserved, OpenCount, InFlight;
    assert Apply(l, w, Begin(Name(begun), Some(1)))
        == World(Reserve(w.state, Name(begun), 1), w.uploads + [Upload(begun, true)]);
  }

  lemma FinishOne(l: Limits, w: World, done: nat, begun: nat, stored: nat, unlinked: nat, size: nat)
    requires l.Valid() && Filled(w, done, begun, stored, unlinked) && done < begun && 1 <= size <= l.maxFileBytes
    ensures var w' := Apply(l, w, Finish(done, Body(size, ""), ""));
            && Filled(w', done + 1, begun, stored + size, unlinked + size)
            && w'.state.assets[done] == NewAsset(w'.state, Name(done), Body(size, ""), "")
  {
    StoreSums(w.state, done, Body(size, ""), "");
    assert !TakenRequest(w.state, Name(done)) by {
      assert forall i | 0 <= i < done :: |w.state.assets[i].request| == i;
    }
    hide Stored, Unlinked, Reserved, OpenCount, TakenRequest;
  }

  lemma LinkOne(l: Limits, w: World, done: nat, begun: nat, stored: nat, unlinked: nat)
    requires l.Valid() && Filled(w, done + 1, begun, stored, unlinked + 1)
    requires w.state.assets[done] == NewAsset(w.state, Name(done), ONE, "")
    ensures Filled(Apply(l, w, Link(done)), done + 1, begun, stored, unlinked)
  {
    var a := w.state.assets[done].(linked := true);
    SumUpdate(StoredSize, w.state.assets, done, a);
    SumUpdate(UnlinkedSize(w.state.now), w.state.assets, done, a);
  }

  lemma NoSteps(l: Limits, w: World)
    requires l.Valid()
    ensures Steps(l, w, []) == w
  {
  }

  lemma NextStep(l: Limits, w: World, steps: seq<Step>, step: Step)
    requires l.Valid()
    ensures Steps(l, w, steps + [step]) == Apply(l, Steps(l, w, steps), step)
  {
    assert (steps + [step])[..|steps|] == steps;
  }

  /** One byte is reserved, stored and, on request, linked. */
  function ByteSteps(k: nat, link: bool): seq<Step>
  {
    [Begin(Name(k), Some(1)), Finish(k, ONE, "")] + if link then [Link(k)] else []
  }

  lemma ByteReaches(l: Limits, w: World, k: nat, q: nat, link: bool)
    requires l.Valid() && l.maxConcurrentUploads >= 1 && Filled(w, k, k, k, q)
    requires q + 1 <= l.unlinkedQuotaBytes && k + 1 <= l.totalQuotaBytes
    ensures Filled(Steps(l, w, ByteSteps(k, link)), k + 1, k + 1, k + 1, if link then q else q + 1)
  {
    hide Filled, Apply;
    var first, second := Begin(Name(k), Some(1)), Finish(k, ONE, "");
    BeginOne(l, w, k, k, k, q);
    var w1 := Apply(l, w, first);
    FinishOne(l, w1, k, k + 1, k, q, 1);
    TwoSteps(l, w, first, second);
    hide Steps;
    if link {
      LinkOne(l, Apply(l, w1, second), k, k + 1, k + 1, q);
      NextStep(l, w, [first, second], Link(k));
    } else {
      assert [first, second] + [] == [first, second];
    }
  }

  /** Bytes stored one after another. */
  function FillSteps(n: nat, link: bool): seq<Step>
  {
    if n == 0 then [] else FillSteps(n - 1, link) + ByteSteps(n - 1, link)
  }

  lemma {:induction false} FillReaches(l: Limits, now: Time, n: nat, link: bool)
    requires l.Valid() && l.maxConcurrentUploads >= 1 && n <= l.totalQuotaBytes && 1 <= l.unlinkedQuotaBytes
    requires link || n <= l.unlinkedQuotaBytes
    ensures Filled(Run(l, now, FillSteps(n, link)), n, n, n, if link then 0 else n)
  {
    NothingFilled(l, now);
    hide Filled, Run, FillSteps;
    if n > 0 {
      FillReaches(l, now, n - 1, link);
      FillNext(l, now, n - 1, link);
    } else {
      NoFillSteps(link);
    }
  }

  lemma NoFillSteps(link: bool)
    ensures FillSteps(0, link) == []
  {
  }

  lemma FillNext(l: Limits, now: Time, n: nat, link: bool)
    requires l.Valid() && l.maxConcurrentUploads >= 1 && n + 1 <= l.totalQuotaBytes && 1 <= l.unlinkedQuotaBytes
    requires link || n + 1 <= l.unlinkedQuotaBytes
    requires Filled(Run(l, now, FillSteps(n, link)), n, n, n, if link then 0 else n)
    ensures Filled(Run(l, now, FillSteps(n + 1, link)), n + 1, n + 1, n + 1, if link then 0 else n + 1)
  {
    hide Filled, Steps, ByteSteps, Initial;
    ByteReaches(l, Run(l, now, FillSteps(n, link)), n, if link then 0 else n, link);
    StepsJoin(l, Initial(now), FillSteps(n, link), ByteSteps(n, link));
  }

  lemma NothingFilled(l: Limits, now: Time)
    requires l.Valid()
    ensures Filled(Run(l, now, []), 0, 0, 0, 0)
  {
  }

  lemma TwoSteps(l: Limits, w: World, a: Step, b: Step)
    requires l.Valid()
    ensures Steps(l, w, [a, b]) == Apply(l, Apply(l, w, a), b)
  {
    OneStep(l, w, a);
    assert [a, b][..1] == [a];
  }

  function OpenSteps(n: nat, k: nat): seq<Step>
  {
    if k == 0 then [] else OpenSteps(n, k - 1) + [Begin(Name(n + k - 1), Some(1))]
  }

  function FinishSteps(n: nat, k: nat, size: nat): seq<Step>
  {
    if k == 0 then [] else FinishSteps(n, k - 1, size) + [Finish(n + k - 1, Body(size, ""), "")]
  }

  lemma {:induction false} OpenReaches(l: Limits, w: World, n: nat, k: nat, unlinked: nat)
    requires l.Valid() && Filled(w, n, n, n, unlinked) && k <= l.maxConcurrentUploads
    requires n + k <= l.totalQuotaBytes && unlinked + k <= l.unlinkedQuotaBytes
    ensures Filled(Steps(l, w, OpenSteps(n, k)), n, n + k, n, unlinked)
  {
    hide Filled, Apply, Steps;
    if k == 0 {
      NoSteps(l, w);
    } else {
      OpenReaches(l, w, n, k - 1, unlinked);
      BeginOne(l, Steps(l, w, OpenSteps(n, k - 1)), n, n + k - 1, n, unlinked);
      NextStep(l, w, OpenSteps(n, k - 1), Begin(Name(n + k - 1), Some(1)));
    }
  }

  lemma {:induction false} FinishReaches(l: Limits, w: World, n: nat, total: nat, k: nat, unlinked: nat)
    requires l.Valid() && Filled(w, n, n + total, n, unlinked) && k <= total
    ensures var size := l.maxFileBytes;
            Filled(Steps(l, w, FinishSteps(n, k, size)), n + k, n + total, n + k * size, unlinked + k * size)
  {
    hide Filled, Apply, Steps;
    if k == 0 {
      NoSteps(l, w);
    } else {
      var size := l.maxFileBytes;
      FinishReaches(l, w, n, total, k - 1, unlinked);
      var before := (k - 1) * size;
      var w1 := Steps(l, w, FinishSteps(n, k - 1, size));
      NextStep(l, w, FinishSteps(n, k - 1, size), Finish(n + k - 1, Body(size, ""), ""));
      Expand(size, k);
      FinishOne(l, w1, n + k - 1, n + total, n + before, unlinked + before, size);
    }
  }

  lemma Expand(m: int, k: int)
    ensures (k - 1) * m == k * m - m && k * (m - 1) == k * m - k
  {
  }

  /** Fill up to a byte for each upload, open them all, and send full files. */
  function Overdraw(l: Limits, n: nat, link: bool): seq<Step>
  {
    FillSteps(n, link) + OpenSteps(n, l.maxConcurrentUploads)
    + FinishSteps(n, l.maxConcurrentUploads, l.maxFileBytes)
  }

  lemma OverdrawReaches(l: Limits, now: Time, n: nat, link: bool)
    requires l.Valid() && l.maxConcurrentUploads >= 1 && n + l.maxConcurrentUploads <= l.totalQuotaBytes
    requires (if link then 0 else n) + l.maxConcurrentUploads <= l.unlinkedQuotaBytes
    ensures var s := Run(l, now, Overdraw(l, n, link)).state;
            && Stored(s) == n + l.maxConcurrentUploads * l.maxFileBytes
            && Unlinked(s) == (if link then 0 else n) + l.maxConcurrentUploads * l.maxFileBytes
  {
    var k, q := l.maxConcurrentUploads, if link then 0 else n;
    var first, second, third := FillSteps(n, link), OpenSteps(n, k), FinishSteps(n, k, l.maxFileBytes);
    FillReaches(l, now, n, link);
    var w := Run(l, now, first);
    OpenReaches(l, w, n, k, q);
    FinishReaches(l, Steps(l, w, second), n, k, k, q);
    StepsJoin(l, Initial(now), first, second);
    StepsJoin(l, Initial(now), first + second, third);
    hide Steps, Stored, Unlinked, Reserved, OpenCount;
  }

  /** The bound on the total quota is reached, from the empty service, whatever the limits. */
  lemma BoundReached(l: Limits, now: Time)
    requires l.Valid() && 1 <= l.maxConcurrentUploads <= l.totalQuotaBytes
    requires l.maxConcurrentUploads <= l.unlinkedQuotaBytes
    ensures exists steps :: Stored(Run(l, now, steps).state)
                            == l.totalQuotaBytes + l.maxConcurrentUploads * (l.maxFileBytes - 1)
  {
    var n := l.totalQuotaBytes - l.maxConcurrentUploads;
    OverdrawReaches(l, now, n, true);
    hide Stored, Run, Overdraw;
    Expand(l.maxFileBytes, l.maxConcurrentUploads);
    assert Stored(Run(l, now, Overdraw(l, n, true)).state)
        == l.totalQuotaBytes + l.maxConcurrentUploads * (l.maxFileBytes - 1);
  }

  /** The bound on the unlinked quota is reached likewise, when it is no greater than the total one. */
  lemma UnlinkedBoundReached(l: Limits, now: Time)
    requires l.Valid() && 1 <= l.maxConcurrentUploads <= l.unlinkedQuotaBytes <= l.totalQuotaBytes
    ensures exists steps :: Unlinked(Run(l, now, steps).state)
                            == l.unlinkedQuotaBytes + l.maxConcurrentUploads * (l.maxFileBytes - 1)
  {
    var n := l.unlinkedQuotaBytes - l.maxConcurrentUploads;
    OverdrawReaches(l, now, n, false);
    hide Unlinked, Run, Overdraw;
    Expand(l.maxFileBytes, l.maxConcurrentUploads);
    assert Unlinked(Run(l, now, Overdraw(l, n, false)).state)
        == l.unlinkedQuotaBytes + l.maxConcurrentUploads * (l.maxFileBytes - 1);
  }

  // ---------- Stranded reservations, from the empty service ----------

  /** Nothing throws, and while the key is fetched another upload stores the same request under the same name. */
  function Raced(id: string, name: string, body: Body, other: nat): Answers
  {
    Answers(true, true, [Begin(id, Some(body.size)), Finish(other, body, name)], true, true, true,
            [], Some(body), true, true, [], true, true, true, true, true, true)
  }

  /** The world that an upload which was raced like this leaves behind. */
  function AfterRace(l: Limits, w: World, id: string, name: string, body: Body): World
    requires l.Valid()
  {
    var request := Request(id, name, Some(body.size));
    var a := Raced(id, name, body, |w.uploads|);
    var begun := Opened(l, w, request, a);
    if begun.None? then w
    else Steps(l, begun.value, Closed(l, begun.value, |begun.value.uploads| - 1, request, a).steps)
  }

  /** Room for the upload and the one that races it. */
  predicate Room(l: Limits, s: State, id: string, size: nat)
  {
    && OpenCount(s) < l.maxConcurrentUploads && !TakenRequest(s, id) && !InFlight(s, id)
    && Unlinked(s) + Reserved(s) + 2 * size <= l.unlinkedQuotaBytes
    && Stored(s) + Reserved(s) + 2 * size <= l.totalQuotaBytes
  }

  lemma {:induction false} FoundLast(assets: seq<Asset>, a: Asset)
    requires a.live && forall i | 0 <= i < |assets| :: assets[i].request != a.request
    ensures FindByRequest(assets + [a], a.request) == Some(a)
  {
    if assets != [] {
      FoundLast(assets[1..], a);
      assert (assets + [a])[1..] == assets[1..] + [a];
    }
  }

  lemma {:induction false} NotFound(assets: seq<Asset>, request: string)
    requires forall i | 0 <= i < |assets| :: assets[i].request != request
    ensures FindByRequest(assets, request).None?
  {
    if assets != [] { NotFound(assets[1..], request); }
  }

  /** The racing upload, and then the raced one's reservation, as worlds. */
  lemma RaceOpens(l: Limits, w: World, id: string, name: string, body: Body)
    requires l.Valid() && l.Accepts(body) && Room(l, w.state, id, body.size)
    ensures var request := Request(id, name, Some(body.size));
            var r, n := |w.state.reservations|, |w.uploads|;
            var stored := Store(Reserve(w.state, id, body.size), r, body, name);
            Opened(l, w, request, Raced(id, name, body, n))
            == Some(World(Reserve(stored, id, body.size), w.uploads + [Upload(r, false), Upload(r + 1, true)]))
  {
    var r, n := |w.state.reservations|, |w.uploads|;
    var first, second := Begin(id, Some(body.size)), Finish(n, body, name);
    NotFound(w.state.assets, id);
    RaceWorlds(l, w, id, name, body);
    TwoSteps(l, w, first, second);
    hide Steps, ReserveFault, TakenRequest, InFlight, Apply, Store, Reserve, FindByRequest;
  }

  lemma RaceWorlds(l: Limits, w: World, id: string, name: string, body: Body)
    requires l.Valid() && l.Accepts(body) && Room(l, w.state, id, body.size)
    ensures var begin := Begin(id, Some(body.size));
            var r := |w.state.reservations|;
            var s2 := Store(Reserve(w.state, id, body.size), r, body, name);
            var w2 := Apply(l, Apply(l, w, begin), Finish(|w.uploads|, body, name));
            && DeclaredBytes(l, Some(body.size)) == Ok(body.size)
            && w2.state == s2 && ReserveFault(l, s2, id, body.size).None?
            && Apply(l, w2, begin)
               == World(Reserve(s2, id, body.size), w.uploads + [Upload(r, false), Upload(r + 1, true)])
  {
    var r, n := |w.state.reservations|, |w.uploads|;
    var s1 := Reserve(w.state, id, body.size);
    var s2 := Store(s1, r, body, name);
    ReserveSums(w.state, id, body.size);
    RaceFree(w.state, id, body, name);
    StoreSums(s1, r, body, name);
    hide Stored, Unlinked, Reserved, OpenCount, InFlight, TakenRequest, Store, Reserve, Apply;
    BeginWorld(l, w, id, body.size);
    FinishWorld(l, World(s1, w.uploads + [Upload(r, true)]), n, r, body, name);
    BeginWorld(l, World(s2, w.uploads + [Upload(r, false)]), id, body.size);
    hide ReserveFault, DeclaredBytes;
    ListFacts(w.uploads, r);
  }

  lemma ListFacts(us: seq<Upload>, r: nat)
    ensures (us + [Upload(r, true)])[|us| := Upload(r, false)] == us + [Upload(r, false)]
    ensures us + [Upload(r, false)] + [Upload(r + 1, true)] == us + [Upload(r, false), Upload(r + 1, true)]
  {
  }

  lemma RaceFree(s: State, id: string, body: Body, name: string)
    requires !TakenRequest(s, id) && !InFlight(s, id)
    ensures var s1 := Reserve(s, id, body.size);
            var s2 := Store(s1, |s.reservations|, body, name);
            && !TakenRequest(s1, id) && !InFlight(s2, id) && |s2.reservations| == |s.reservations| + 1
            && s1.reservations[|s.reservations|] == Reservation(id, body.size, true)
  {
  }

  lemma BeginWorld(l: Limits, w: World, id: string, size: nat)
    requires l.Valid() && 1 <= size <= l.maxFileBytes && ReserveFault(l, w.state, id, size).None?
    ensures DeclaredBytes(l, Some(size)) == Ok(size)
    ensures Apply(l, w, Begin(id, Some(size)))
         == World(Reserve(w.state, id, size), w.uploads + [Upload(|w.state.reservations|, true)])
  {
    hide ReserveFault;
  }

  lemma FinishWorld(l: Limits, w: World, u: nat, r: nat, body: Body, name: string)
    requires l.Valid() && l.Accepts(body) && u < |w.uploads| && w.uploads[u] == Upload(r, true)
    requires r < |w.state.reservations| && !TakenRequest(w.state, w.state.reservations[r].request)
    ensures Apply(l, w, Finish(u, body, name))
         == World(Store(w.state, r, body, name), w.uploads[u := Upload(r, false)])
  {
    hide TakenRequest, Store;
  }

  /** The raced upload finds its request stored, replays it and leaves. */
  lemma RaceEnds(l: Limits, w: World, id: string, name: string, body: Body)
    requires l.Valid() && UploadsSound(w) && l.Accepts(body) && Room(l, w.state, id, body.size)
    ensures var r := |w.state.reservations|;
            var stored := Store(Reserve(w.state, id, body.size), r, body, name);
            var end := AfterRace(l, w, id, name, body);
            && end == World(Reserve(stored, id, body.size), w.uploads + [Upload(r, false), Upload(r + 1, false)])
            && UploadsSound(end) && |end.state.reservations| == r + 2 && end.state.reservations[r + 1].open
  {
    var request := Request(id, name, Some(body.size));
    var n, r := |w.uploads|, |w.state.reservations|;
    var a := Raced(id, name, body, n);
    RaceOpens(l, w, id, name, body);
    RaceFinds(l, w, id, name, body);
    hide Room, Raced, FindByRequest, UploadsSound;
    var begun := Opened(l, w, request, a).value;
    JustOpened(l, w, request, a);
    hide Opened, Store, Reserve;
    RacedLeaves(l, begun, n + 1, request, a);
    LeaveKeeps(l, begun, n + 1, r + 1);
    RaceUploads(w.uploads, r);
    LeaveSound(l, begun, n + 1);
    hide Closed, Steps, Apply, Duplicate, Holds;
  }

  lemma RaceUploads(us: seq<Upload>, r: nat)
    ensures (us + [Upload(r, false), Upload(r + 1, true)])[|us| + 1 := Upload(r + 1, false)]
         == us + [Upload(r, false), Upload(r + 1, false)]
  {
  }

  lemma LeaveSound(l: Limits, w: World, u: nat)
    requires l.Valid() && UploadsSound(w)
    ensures UploadsSound(Apply(l, w, Leave(u)))
  {
    ApplySound(l, w, Leave(u));
  }

  /** Reading is over, and the request is stored with this digest and name. */
  lemma RaceFinds(l: Limits, w: World, id: string, name: string, body: Body)
    requires l.Valid() && l.Accepts(body) && Room(l, w.state, id, body.size)
    ensures var a := Raced(id, name, body, |w.uploads|);
            var stored := Store(Reserve(w.state, id, body.size), |w.state.reservations|, body, name);
            && Read(l, a) && a.whileReading == [] && a.body == Some(body)
            && Duplicate(Reserve(stored, id, body.size), Request(id, name, Some(body.size)), body)
            && |Reserve(stored, id, body.size).reservations| == |w.state.reservations| + 2
  {
    FoundLast(w.state.assets, NewAsset(Reserve(w.state, id, body.size), id, body, name));
    hide FindByRequest, ReserveFault;
  }

  /** A raced upload replays, and its reservation stays open with nobody to give it back. */
  lemma RaceStrands(l: Limits, w: World, id: string, name: string, body: Body)
    requires l.Valid() && UploadsSound(w) && l.Accepts(body) && Room(l, w.state, id, body.size)
    ensures var r := |w.state.reservations|;
            var end := AfterRace(l, w, id, name, body);
            var stored := Store(Reserve(w.state, id, body.size), r, body, name);
            && end.state == Reserve(stored, id, body.size) && UploadsSound(end) && Stranded(end, r + 1)
            && (forall q :: Stranded(w, q) ==> Stranded(end, q))
  {
    RaceEnds(l, w, id, name, body);
    EarlierOpen(w.state, id, body, name);
    hide AfterRace, Room, Store, Reserve;
    NobodyHolds(w, AfterRace(l, w, id, name, body), |w.state.reservations|);
  }

  lemma EarlierOpen(s: State, id: string, body: Body, name: string)
    ensures var s' := Reserve(Store(Reserve(s, id, body.size), |s.reservations|, body, name), id, body.size);
            && |s'.reservations| == |s.reservations| + 2
            && forall q | 0 <= q < |s.reservations| :: s'.reservations[q] == s.reservations[q]
  {
  }

  lemma NobodyHolds(w: World, end: World, r: nat)
    requires UploadsSound(w) && r == |w.state.reservations| && |end.state.reservations| == r + 2
    requires forall q | 0 <= q < r :: end.state.reservations[q] == w.state.reservations[q]
    requires end.state.reservations[r + 1].open
    requires end.uploads == w.uploads + [Upload(r, false), Upload(r + 1, false)]
    ensures Stranded(end, r + 1) && forall q :: Stranded(w, q) ==> Stranded(end, q)
  {
  }

  /** With nobody else about, an upload whose request is stored already just leaves. */
  lemma RacedLeaves(l: Limits, w: World, u: nat, request: Request, a: Answers)
    requires l.Valid() && Read(l, a) && a.whileReading == [] && Duplicate(w.state, request, a.body.value)
    ensures AfterReading(l, w, u, a) == w && Steps(l, w, Closed(l, w, u, request, a).steps) == Apply(l, w, Leave(u))
  {
    assert Others(u, []) == [] && Steps(l, w, []) == w;
    assert [] + [Leave(u)] == [Leave(u)];
    OneStep(l, w, Leave(u));
    hide Apply, Duplicate;
  }

  lemma LeaveKeeps(l: Limits, w: World, u: nat, r: nat)
    requires l.Valid() && Holds(w, u, r)
    ensures Apply(l, w, Leave(u)) == World(w.state, w.uploads[u := Upload(r, false)])
  {
  }

  /** With the shipped limits, two raced uploads are enough: from then on, whatever happens, no upload begins. */
  lemma TwoRacesBlock(now: Time, more: seq<Step>, request: string, declared: Option<int>)
    ensures var l := ATTACHMENT_LIMITS;
            var once := AfterRace(l, Initial(now), "a", "a.txt", ONE);
            var twice := AfterRace(l, once, "b", "b.txt", ONE);
            var later := Steps(l, twice, more);
            Apply(l, later, Begin(request, declared)) == later
  {
    var l := ATTACHMENT_LIMITS;
    var w := Initial(now);
    hide AfterRace, Apply, Steps;
    RoomAtFirst(now);
    hide Room;
    RaceStrands(l, w, "a", "a.txt", ONE);
    var once := AfterRace(l, w, "a", "a.txt", ONE);
    RoomAgain(w.state, now);
    RaceStrands(l, once, "b", "b.txt", ONE);
    var twice := AfterRace(l, once, "b", "b.txt", ONE);
    hide Stranded, UploadsSound;
    StillStranded(l, twice, more, 1);
    StillStranded(l, twice, more, 3);
    StrandedBlocks(l, Steps(l, twice, more), [1, 3], request, declared);
  }

  lemma RoomAtFirst(now: Time)
    ensures Room(ATTACHMENT_LIMITS, Initial(now).state, "a", 1)
    ensures UploadsSound(Initial(now)) && ATTACHMENT_LIMITS.Accepts(ONE)
  {
  }

  lemma RoomAgain(s: State, now: Time)
    requires s == Initial(now).state
    ensures var once := Reserve(Store(Reserve(s, "a", 1), 0, ONE, "a.txt"), "a", 1);
            Room(ATTACHMENT_LIMITS, once, "b", 1) && |once.reservations| == 2
  {
    var s1 := Reserve(s, "a", 1);
    var s2 := Store(s1, 0, ONE, "a.txt");
    ReserveSums(s, "a", 1);
    StoreSums(s1, 0, ONE, "a.txt");
    ReserveSums(s2, "a", 1);
    assert "a"[0] != "b"[0];
  }

  lemma {:induction false} StillStranded(l: Limits, w: World, steps: seq<Step>, r: nat)
    requires l.Valid() && UploadsSound(w) && Stranded(w, r)
    ensures Stranded(Steps(l, w, steps), r)
  {
    hide UploadsSound, Stranded, Apply;
    if steps != [] {
      var n := |steps| - 1;
      StillStranded(l, w, steps[..n], r);
      StepsSound(l, w, steps[..n]);
      StrandedStays(l, Steps(l, w, steps[..n]), steps[n], r);
    }
  }
}
