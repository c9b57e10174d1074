/**
 Delta synchronisation: which pages are applied, which cursor is saved with them, and which ids are reported as
 committed through cursor resets, retries and failures.  Everything outside (Graph, item repair, the clock, a
 failing database) answers from an `Environment`, and all results hold for every environment.
 */
module MailSync {
  import opened Wrappers

  type Url = string
  type Id = string
  type FolderId = string

  /** The saved links of a folder; an empty text is no link. */
  datatype Cursor = Cursor(nextLink: Url, deltaLink: Url)

  /** A page as the client yields it; `upserts` are the ids of its items that are not removals. */
  datatype Page = Page(url: Url, upserts: seq<Id>, nextLink: Url, deltaLink: Url)

  datatype Failure = Failure(code: string, retryable: bool)

  /** A failure with the ids it carries, if any were attached. */
  datatype Thrown = Thrown(failure: Failure, upsertedMessageIds: Option<seq<Id>>)

  datatype Answer = Calm | Trouble(failure: Failure) | Sends(upserts: seq<Id>, nextLink: Url, deltaLink: Url)

  const CLEARED := Cursor("", "")
  const CURSOR_EXPIRED := "DELTA_CURSOR_EXPIRED"
  const CURSOR_MISSING := Failure("GRAPH_CURSOR_MISSING", false)
  const PAGES_EXCEEDED := Failure("GRAPH_MAX_PAGES_EXCEEDED", false)
  const NO_ANSWER := Failure("GRAPH_NETWORK_ERROR", true)
  const ATTEMPTS := 3

  // ---------- Ids ----------

  /** The first occurrence of every id that is not empty. */
  function UniqueIds(ids: seq<Id>): seq<Id>
  {
    if ids == [] then []
    else
      var front := UniqueIds(ids[..|ids| - 1]);
      var id := ids[|ids| - 1];
      if id == "" || id in front then front else front + [id]
  }

  method UniqueMessageIds(ids: seq<Id>) returns (r: seq<Id>)
    ensures r == UniqueIds(ids)
  {
    var seen: set<Id> := {};
    r := [];
    for i := 0 to |ids|
      invariant r == UniqueIds(ids[..i]) && seen == set id | id in r
    {
      assert ids[..i + 1][..i] == ids[..i];
      if ids[i] != "" && ids[i] !in seen {
        seen := seen + {ids[i]};
        r := r + [ids[i]];
      }
    }
    assert ids[..|ids|] == ids;
  }

  /** No id twice, none empty, none lost, none made up, and in the order of their first occurrence. */
  lemma {:induction false} UniqueIdsExact(ids: seq<Id>)
    ensures forall i, j | 0 <= i < j < |UniqueIds(ids)| :: UniqueIds(ids)[i] != UniqueIds(ids)[j]
    ensures forall id :: id in UniqueIds(ids) <==> id in ids && id != ""
    ensures forall n | 0 <= n <= |ids| :: UniqueIds(ids[..n]) <= UniqueIds(ids)
  {
    if ids != [] {
      var n := |ids| - 1;
      UniqueIdsExact(ids[..n]);
      assert ids == ids[..n] + [ids[n]];
      forall k | 0 <= k <= |ids| ensures UniqueIds(ids[..k]) <= UniqueIds(ids) {
        if k <= n { assert ids[..n][..k] == ids[..k]; } else { assert ids[..k] == ids; }
      }
    }
  }

  function Push(front: seq<Id>, id: Id): seq<Id>
  {
    if id == "" || id in front then front else front + [id]
  }

  lemma UniqueNext(ids: seq<Id>, id: Id)
    ensures UniqueIds(ids + [id]) == Push(UniqueIds(ids), id)
  {
    assert (ids + [id])[..|ids|] == ids;
  }

  /** Thinning out a part first changes nothing. */
  lemma {:induction false} UniqueOfJoined(a: seq<Id>, b: seq<Id>)
    ensures UniqueIds(UniqueIds(a) + UniqueIds(b)) == UniqueIds(a + b)
  {
    if b == [] {
      assert a + b == a && UniqueIds(a) + UniqueIds(b) == UniqueIds(a);
      UniqueTwice(a);
    } else {
      var n := |b| - 1;
      var front, id := b[..n], b[n];
      UniqueOfJoined(a, front);
      assert b == front + [id] && a + b == (a + front) + [id];
      UniqueNext(front, id);
      UniqueNext(a + front, id);
      UniqueIdsExact(a + front);
      UniqueIdsExact(front);
      hide UniqueIds;
      var ua, ub := UniqueIds(a), UniqueIds(front);
      if id != "" && id !in ub {
        assert ua + (ub + [id]) == (ua + ub) + [id];
        UniqueNext(ua + ub, id);
      }
    }
  }

  lemma {:induction false} UniqueTwice(a: seq<Id>)
    ensures UniqueIds(UniqueIds(a)) == UniqueIds(a)
  {
    if a != [] {
      var n := |a| - 1;
      UniqueTwice(a[..n]);
      var front := UniqueIds(a[..n]);
      if a[n] != "" && a[n] !in front { assert (front + [a[n]])[..|front|] == front; }
    }
  }

  /** The ids committed by a list of pages, in commit order. */
  function IdsOf(pages: seq<Page>): seq<Id>
  {
    if pages == [] then [] else IdsOf(pages[..|pages| - 1]) + pages[|pages| - 1].upserts
  }

  lemma IdsNext(pages: seq<Page>, p: Page)
    ensures IdsOf(pages + [p]) == IdsOf(pages) + p.upserts
  {
    assert (pages + [p])[..|pages|] == pages;
  }

  lemma {:induction false} IdsJoin(a: seq<Page>, b: seq<Page>)
    ensures IdsOf(a + b) == IdsOf(a) + IdsOf(b)
  {
    if b == [] {
      assert a + b == a && IdsOf(a) + [] == IdsOf(a);
    } else {
      var front, last := b[..|b| - 1], b[|b| - 1];
      IdsJoin(a, front);
      assert b == front + [last] && a + b == (a + front) + [last];
      IdsNext(front, last);
      IdsNext(a + front, last);
      hide IdsOf;
      Associate(IdsOf(a), IdsOf(front), last.upserts);
    }
  }

  lemma Associate(a: seq<Id>, b: seq<Id>, c: seq<Id>)
    ensures (a + b) + c == a + (b + c)
  {
  }

  // ---------- Cursors ----------

  function CursorIn(cursors: map<FolderId, Cursor>, f: FolderId): Cursor
  {
    if f in cursors then cursors[f] else CLEARED
  }

  /** Where a run starts; an empty text asks for the initial listing. */
  function StartUrl(c: Cursor): Url { if c.nextLink != "" then c.nextLink else c.deltaLink }

  /** The cursor `applyDeltaPage` saves together with the items. */
  function After(c: Cursor, p: Page): Cursor
  {
    Cursor(p.nextLink, if p.deltaLink != "" then p.deltaLink else c.deltaLink)
  }

  function AfterAll(c: Cursor, pages: seq<Page>): Cursor
  {
    if pages == [] then c else After(AfterAll(c, pages[..|pages| - 1]), pages[|pages| - 1])
  }

  predicate Proper(p: Page) { p.nextLink != "" || p.deltaLink != "" }

  /** Every page was asked for at the cursor the pages before it left behind. */
  ghost predicate Follows(c: Cursor, pages: seq<Page>)
  {
    forall i | 0 <= i < |pages| :: pages[i].url == StartUrl(AfterAll(c, pages[..i])) && Proper(pages[i])
  }

  /** What one run may apply: following pages, of which at most the last closes the round with a delta link. */
  ghost predicate RunLog(c: Cursor, pages: seq<Page>)
  {
    Follows(c, pages) && OpenInside(pages)
  }

  /** No page before the last one has a delta link. */
  predicate OpenInside(pages: seq<Page>) { forall i | 0 <= i < |pages| - 1 :: pages[i].deltaLink == "" }

  predicate AllOpen(pages: seq<Page>) { forall i | 0 <= i < |pages| :: pages[i].deltaLink == "" }

  predicate Closed(pages: seq<Page>) { pages != [] && pages[|pages| - 1].deltaLink != "" }

  lemma {:induction false} AfterJoin(c: Cursor, a: seq<Page>, b: seq<Page>)
    ensures AfterAll(c, a + b) == AfterAll(AfterAll(c, a), b)
  {
    if b == [] {
      assert a + b == a;
    } else {
      AfterJoin(c, a, b[..|b| - 1]);
      assert (a + b)[..|a + b| - 1] == a + b[..|b| - 1];
    }
  }

  lemma FollowsJoin(c: Cursor, a: seq<Page>, b: seq<Page>)
    requires Follows(c, a) && Follows(AfterAll(c, a), b)
    ensures Follows(c, a + b)
  {
    forall i | 0 <= i < |a + b|
      ensures (a + b)[i].url == StartUrl(AfterAll(c, (a + b)[..i])) && Proper((a + b)[i])
    {
      if i < |a| {
        assert (a + b)[..i] == a[..i];
      } else {
        assert (a + b)[..i] == a + b[..i - |a|];
        AfterJoin(c, a, b[..i - |a|]);
      }
    }
  }

  /**
   Saving pages one after another never loses a delta link: the saved one is that of the newest page that had one,
   and the next run starts at the newest page's next link, or without one at that delta link.
   */
  lemma {:induction false} DeltaLinkKept(c: Cursor, pages: seq<Page>, k: nat)
    requires k < |pages| && pages[k].deltaLink != "" && forall i | k < i < |pages| :: pages[i].deltaLink == ""
    ensures var saved, last := AfterAll(c, pages), pages[|pages| - 1];
            && saved.deltaLink == pages[k].deltaLink && saved.nextLink == last.nextLink
            && StartUrl(saved) == if last.nextLink != "" then last.nextLink else pages[k].deltaLink
  {
    var n := |pages| - 1;
    if k < n { DeltaLinkKept(c, pages[..n], k); }
  }

  /** As long as no page had one, the saved delta link is the earlier one. */
  lemma {:induction false} DeltaLinkStays(c: Cursor, pages: seq<Page>)
    requires AllOpen(pages)
    ensures AfterAll(c, pages).deltaLink == c.deltaLink
  {
    if pages != [] { DeltaLinkStays(c, pages[..|pages| - 1]); }
  }

  // ---------- The store and its surroundings ----------

  class Environment {
    var answers: seq<Answer>
    /** Every failure it caused so far. */
    ghost var raised: seq<Failure>

    constructor (answers: seq<Answer>)
      ensures this.answers == answers && raised == []
    {
      this.answers := answers;
      raised := [];
    }

    method Next() returns (a: Answer)
      modifies this`answers
      ensures a == if old(answers) == [] then Trouble(NO_ANSWER) else old(answers)[0]
      ensures answers == if old(answers) == [] then [] else old(answers)[1..]
    {
      if answers == [] { return Trouble(NO_ANSWER); }
      a := answers[0];
      answers := answers[1..];
    }

    /** A point at which the outside may throw. */
    method Trial() returns (trouble: Option<Failure>)
      modifies this
      ensures raised == old(raised) + if trouble.Some? then [trouble.value] else []
    {
      var a := Next();
      trouble := if a.Trouble? then Some(a.failure) else None;
      raised := raised + if trouble.Some? then [trouble.value] else [];
    }

    method Request() returns (r: Result<Answer, Failure>)
      modifies this
      ensures r.Ok? ==> r.value.Sends?
      ensures raised == old(raised) + if r.Err? then [r.error] else []
    {
      var a := Next();
      r := if a.Sends? then Ok(a) else Err(if a.Trouble? then a.failure else NO_ANSWER);
      raised := raised + if r.Err? then [r.error] else [];
    }
  }

  class MailStore {
    var cursors: map<FolderId, Cursor>
    /** Every page whose `applyDeltaPage` returned, in commit order. */
    var applied: seq<(FolderId, Page)>

    constructor ()
      ensures cursors == map[] && applied == []
    {
      cursors, applied := map[], [];
    }

    function CursorOf(f: FolderId): Cursor
      reads this
    {
      CursorIn(cursors, f)
    }

    method ApplyDeltaPage(f: FolderId, p: Page)
      modifies this
      ensures applied == old(applied) + [(f, p)]
      ensures cursors == old(cursors)[f := After(old(CursorOf(f)), p)]
    {
      cursors := cursors[f := After(CursorOf(f), p)];
      applied := applied + [(f, p)];
    }

    method ClearFolderCursor(f: FolderId)
      modifies this
      ensures applied == old(applied) && cursors == old(cursors)[f := CLEARED]
    {
      cursors := cursors[f := CLEARED];
    }
  }

  /** Pages of one folder, as the log has them. */
  function Tag(f: FolderId, pages: seq<Page>): (log: seq<(FolderId, Page)>)
    ensures |log| == |pages|
  {
    seq(|pages|, i requires 0 <= i < |pages| => (f, pages[i]))
  }

  function PagesOf(log: seq<(FolderId, Page)>): seq<Page>
  {
    seq(|log|, i requires 0 <= i < |log| => log[i].1)
  }

  ghost predicate OnlyFolderMoved(f: FolderId, before: map<FolderId, Cursor>, after: map<FolderId, Cursor>)
  {
    forall g | g != f :: (g in before <==> g in after) && (g in before && g in after ==> before[g] == after[g])
  }

  /** The failure carries exactly these ids; one that carries none was thrown before any could be committed. */
  predicate Carries(e: Thrown, ids: seq<Id>)
  {
    if e.upsertedMessageIds.Some? then e.upsertedMessageIds.value == ids else ids == []
  }

  /**
   What a run does to the tables: it commits pages that follow one another from the saved cursor, leaves the cursor
   after the last of them, and touches no other folder.
   */
  ghost predicate Advanced(f: FolderId, cursors: map<FolderId, Cursor>, log: seq<(FolderId, Page)>, pages: seq<Page>,
                           cursors': map<FolderId, Cursor>, log': seq<(FolderId, Page)>)
  {
    && log' == log + Tag(f, pages) && RunLog(CursorIn(cursors, f), pages)
    && CursorIn(cursors', f) == AfterAll(CursorIn(cursors, f), pages) && OnlyFolderMoved(f, cursors, cursors')
  }

  /** The failure a run has of its own: too many pages, or a page without any link. */
  function OwnFailure(maxPages: nat, pages: seq<Page>): Failure
  {
    if |pages| == maxPages then PAGES_EXCEEDED else CURSOR_MISSING
  }

  /** A round ends with a delta link, with what the outside raised, or with a failure of its own. */
  predicate RoundEnded(maxPages: nat, pages: seq<Page>, raised: seq<Failure>, failure: Option<Failure>)
  {
    && |pages| <= maxPages
    && match failure
       case None => raised == [] && Closed(pages)
       case Some(f) => raised == [f] || (raised == [] && f == OwnFailure(maxPages, pages))
  }

  /**
   What one synchronisation of a folder did: the pages of its first round and how that ended, whether the cursor was
   then reset, the pages of the fresh round, and the failure it threw.  A round that did not begin has no pages.
   */
  datatype Trace = Trace(
    before: Cursor, began: bool, first: seq<Page>, raisedFirst: seq<Failure>, failure: Option<Failure>,
    reset: bool, second: seq<Page>, raisedLater: seq<Failure>, thrown: Option<Failure>, after: Cursor)
  {
    function Pages(): seq<Page> { first + second }

    /** The folder is to be read afresh after this failure. */
    predicate Expired(forceInitial: bool)
    {
      failure.Some? && failure.value.code == "DELTA_CURSOR_EXPIRED" && !forceInitial
    }
  }

  /**
   When a cursor is given up.  The first round starts at the saved cursor, or afresh when that is forced.  Exactly
   when it fails because its cursor has expired, and clearing does not itself throw, the cursor is cleared and a
   second round is read from the start; otherwise the cursor is left after the pages of the first round, and what
   ended that round is what is thrown.
   */
  ghost predicate Synced(maxPages: nat, forceInitial: bool, t: Trace)
  {
    var start := if forceInitial then CLEARED else t.before;
    if !t.began then
      t.first == t.second == [] && !t.reset && t.thrown.Some? && t.raisedFirst == [t.thrown.value] && t.raisedLater == []
      && t.after in {t.before, start}
    else
      && RunLog(start, t.first) && RoundEnded(maxPages, t.first, t.raisedFirst, t.failure)
      && if t.reset then
           t.Expired(forceInitial) && RunLog(CLEARED, t.second) && RoundEnded(maxPages, t.second, t.raisedLater, t.thrown)
           && t.after == AfterAll(CLEARED, t.second)
         else
           t.second == [] && t.after == AfterAll(start, t.first)
           && if t.Expired(forceInitial) then t.thrown.Some? && t.raisedLater == [t.thrown.value]
              else t.raisedLater == [] && t.thrown == t.failure
  }

  function FailureOf(r: Result<seq<Id>, Thrown>): Option<Failure> { if r.Ok? then None else Some(r.error.failure) }

  /** Returned or thrown, the ids are those of the pages, each once; only a finished round returns. */
  predicate Reported(r: Result<seq<Id>, Thrown>, pages: seq<Page>)
  {
    match r
    case Ok(ids) => ids == UniqueIds(IdsOf(pages)) && Closed(pages)
    case Err(e) => Carries(e, UniqueIds(IdsOf(pages)))
  }

  /** The ids are returned, or go with the failure. */
  function Outcome(error: Option<Thrown>, ids: seq<Id>): Result<seq<Id>, Thrown>
  {
    if error.None? then Ok(ids) else Err(error.value.(upsertedMessageIds := Some(ids)))
  }

  function FailureIn(error: Option<Thrown>): Option<Failure> { if error.None? then None else Some(error.value.failure) }

  class MailSyncService {
    const store: MailStore
    const env: Environment
    const maxPages: nat

    constructor (store: MailStore, env: Environment, maxPages: nat)
      ensures this.store == store && this.env == env && this.maxPages == maxPages
    {
      this.store, this.env, this.maxPages := store, env, maxPages;
    }

    /**
     One run over the pages of a folder.  Whatever goes wrong, and wherever, the ids it returns or throws are
     exactly those of the pages it committed; it returns only after a page with a delta link.
     */
    method RunSync(f: FolderId) returns (r: Result<seq<Id>, Thrown>, ghost pages: seq<Page>)
      modifies store, env
      ensures Advanced(f, old(store.cursors), old(store.applied), pages, store.cursors, store.applied)
      ensures old(env.raised) <= env.raised
      ensures RoundEnded(maxPages, pages, env.raised[|old(env.raised)|..], FailureOf(r))
      ensures r.Ok? ==> r.value == IdsOf(pages)
      ensures r.Err? ==> Carries(r.error, IdsOf(pages))
    {
      ghost var cursors, log := store.cursors, store.applied;
      pages := [];
      NothingApplied(f, cursors, log);
      hide IdsOf, Advanced, AllOpen, Closed;
      var url := StartUrl(store.CursorOf(f));
      var trouble := env.Trial();
      if trouble.Some? { return Err(Thrown(trouble.value, None)), pages; }
      var upsertedMessageIds: seq<Id> := [];
      var pageIndex := 0;
      while pageIndex < maxPages
        invariant 0 <= pageIndex == |pages| <= maxPages && env.raised == old(env.raised)
        invariant Advanced(f, cursors, log, pages, store.cursors, store.applied) && AllOpen(pages)
        invariant url == StartUrl(CursorIn(store.cursors, f)) && upsertedMessageIds == IdsOf(pages)
      {
        var response := env.Request();
        if response.Err? { return Err(Thrown(response.error, Some(upsertedMessageIds))), pages; }
        var page := Page(url, response.value.upserts, response.value.nextLink, response.value.deltaLink);
        if page.nextLink == "" && page.deltaLink == "" {
          return Err(Thrown(CURSOR_MISSING, Some(upsertedMessageIds))), pages;
        }
        trouble := env.Trial();
        if trouble.Some? { return Err(Thrown(trouble.value, Some(upsertedMessageIds))), pages; }
        trouble := env.Trial();
        if trouble.Some? { return Err(Thrown(trouble.value, Some(upsertedMessageIds))), pages; }
        PageApplied(f, cursors, log, pages, store.cursors, store.applied, page);
        store.ApplyDeltaPage(f, page);
        upsertedMessageIds := upsertedMessageIds + page.upserts;
        pages := pages + [page];
        if page.deltaLink != "" {
          trouble := env.Trial();
          if trouble.Some? { return Err(Thrown(trouble.value, Some(upsertedMessageIds))), pages; }
          return Ok(upsertedMessageIds), pages;
        }
        url := page.nextLink;
        pageIndex := pageIndex + 1;
      }
      return Err(Thrown(PAGES_EXCEEDED, Some(upsertedMessageIds))), pages;
    }

    /** A run and what follows it, with the ids it committed added to earlier ones whether or not it failed. */
    method SyncRound(f: FolderId, earlier: seq<Id>)
        returns (error: Option<Thrown>, committedIds: seq<Id>, ghost pages: seq<Page>)
      modifies store, env
      ensures Advanced(f, old(store.cursors), old(store.applied), pages, store.cursors, store.applied)
      ensures old(env.raised) <= env.raised
      ensures RoundEnded(maxPages, pages, env.raised[|old(env.raised)|..], FailureIn(error))
      ensures committedIds == earlier + IdsOf(pages)
    {
      hide IdsOf, Advanced, Closed;
      var r;
      r, pages := RunSync(f);
      if r.Err? {
        committedIds := RetainCommitted(earlier, r.error);
        assert earlier + [] == earlier;
        return Some(r.error), committedIds, pages;
      }
      committedIds := earlier + r.value;
      var trouble := env.Trial();
      error := if trouble.Some? then Some(Thrown(trouble.value, None)) else None;
    }

    /**
     A folder from start to end, including the one fresh round after an expired cursor: the ids it returns or
     throws are those of all pages committed in either round, without duplicates.
     */
    method SyncFolder(f: FolderId, forceInitial: bool) returns (r: Result<seq<Id>, Thrown>, ghost t: Trace)
      modifies store, env
      ensures store.applied == old(store.applied) + Tag(f, t.Pages())
      ensures OnlyFolderMoved(f, old(store.cursors), store.cursors)
      ensures Synced(maxPages, forceInitial, t)
      ensures t.before == old(store.CursorOf(f)) && t.after == store.CursorOf(f) && t.thrown == FailureOf(r)
      ensures env.raised == old(env.raised) + t.raisedFirst + t.raisedLater
      ensures Reported(r, t.Pages())
    {
      ghost var log, cursors := store.applied, store.cursors;
      NothingSynced(f, log, cursors);
      hide Tag, Synced, Reported, OnlyFolderMoved;
      var trouble := env.Trial();
      if trouble.Some? {
        t := NotBegun(CursorIn(cursors, f), trouble.value, CursorIn(cursors, f));
        NotBegunSynced(maxPages, forceInitial, t);
        return Err(Thrown(trouble.value, None)), t;
      }
      if forceInitial {
        store.ClearFolderCursor(f);
        Cleared(f, cursors);
        trouble := env.Trial();
        if trouble.Some? {
          t := NotBegun(CursorIn(cursors, f), trouble.value, CLEARED);
          NotBegunSynced(maxPages, forceInitial, t);
          return Err(Thrown(trouble.value, None)), t;
        }
      }
      ghost var later := store.cursors;
      r, t := SyncRounds(f, forceInitial);
      OnlyFolderJoin(f, cursors, later, store.cursors);
      t := t.(before := CursorIn(cursors, f));
      StartIsCleared(maxPages, forceInitial, t, CursorIn(later, f));
    }

    method SyncRounds(f: FolderId, forceInitial: bool) returns (r: Result<seq<Id>, Thrown>, ghost t: Trace)
      requires forceInitial ==> store.CursorOf(f) == CLEARED
      modifies store, env
      ensures store.applied == old(store.applied) + Tag(f, t.Pages())
      ensures OnlyFolderMoved(f, old(store.cursors), store.cursors)
      ensures t.began && Synced(maxPages, forceInitial, t)
      ensures t.before == old(store.CursorOf(f)) && t.after == store.CursorOf(f) && t.thrown == FailureOf(r)
      ensures env.raised == old(env.raised) + t.raisedFirst + t.raisedLater
      ensures Reported(r, t.Pages())
    {
      ghost var cursors, log := store.cursors, store.applied;
      hide RunLog, UniqueIds, IdsOf, Advanced, Closed, Tag, OnlyFolderMoved, Reported, AfterAll, RoundEnded, Synced,
           Outcome, FailureOf;
      var error, committedIds;
      ghost var first: seq<Page>;
      error, committedIds, first := SyncRound(f, []);
      RoundCommitted(f, cursors, log, first, store.cursors, store.applied);
      assert [] + IdsOf(first) == IdsOf(first) && first + [] == first;
      ghost var start, raised, after := CursorIn(cursors, f), env.raised[|old(env.raised)|..], store.CursorOf(f);
      var ids := UniqueMessageIds(committedIds);
      if error.None? || error.value.failure.code != CURSOR_EXPIRED || forceInitial {
        t := OneRound(start, first, raised, FailureIn(error), after);
        OneRoundSynced(maxPages, forceInitial, start, first, raised, FailureIn(error), after);
        AllReported(error, ids, first);
        r := Outcome(error, ids);
        return r, t;
      }
      var trouble := env.Trial();
      ghost var failure, n := FailureIn(error), |env.raised|;
      if trouble.Some? {
        t := OneRound(start, first, raised, failure, after).(raisedLater := [trouble.value], thrown := trouble);
        ClearingThrew(maxPages, start, first, raised, failure, after, trouble.value);
        error := Some(Thrown(trouble.value, Some(ids)));
        AllReported(error, ids, first);
        return Outcome(error, ids), t;
      }
      ghost var second: seq<Page>;
      ghost var between := store.cursors;
      ids, error, second := SyncAgain(f, log, first, committedIds);
      OnlyFolderJoin(f, cursors, between, store.cursors);
      t := Trace(start, true, first, raised, failure, true, second, env.raised[n..], FailureIn(error), store.CursorOf(f));
      TwoRoundsSynced(maxPages, t);
      RaisedTwice(old(env.raised), raised, env.raised, n);
      AllReported(error, ids, first + second);
      r := Outcome(error, ids);
    }

    /** The fresh round: the cursor is cleared, and its pages and ids are added to those of the first round. */
    method SyncAgain(f: FolderId, ghost log: seq<(FolderId, Page)>, ghost first: seq<Page>, committedIds: seq<Id>)
        returns (ids: seq<Id>, error: Option<Thrown>, ghost second: seq<Page>)
      requires store.applied == log + Tag(f, first) && committedIds == IdsOf(first)
      modifies store, env
      ensures store.applied == log + Tag(f, first + second) && RunLog(CLEARED, second)
      ensures OnlyFolderMoved(f, old(store.cursors), store.cursors) && store.CursorOf(f) == AfterAll(CLEARED, second)
      ensures old(env.raised) <= env.raised
      ensures RoundEnded(maxPages, second, env.raised[|old(env.raised)|..], FailureIn(error))
      ensures ids == UniqueIds(IdsOf(first + second)) && (error.None? ==> Closed(first + second))
    {
      hide RunLog, UniqueIds, IdsOf, Advanced, Closed, AfterAll, OnlyFolderMoved;
      ghost var before := store.cursors;
      store.ClearFolderCursor(f);
      Cleared(f, before);
      ghost var cursors := store.cursors;
      var allIds;
      error, allIds, second := SyncRound(f, committedIds);
      RoundCommitted(f, cursors, log + Tag(f, first), second, store.cursors, store.applied);
      OnlyFolderJoin(f, before, cursors, store.cursors);
      TagJoin(f, first, second);
      IdsJoin(first, second);
      ClosedStays(first, second);
      ids := UniqueMessageIds(allIds);
    }

    /**
     One folder under `retryOperation`: at most three attempts, each from the cursor the one before it left, and
     another one only after a retryable failure; the last attempt's failure is what is thrown.
     */
    method SyncWithRetry(f: FolderId, forceInitial: bool)
        returns (error: Option<Failure>, committedIds: seq<Id>, ghost ts: seq<Trace>)
      modifies store, env
      ensures store.applied == old(store.applied) + Tag(f, AllPages(ts))
      ensures UniqueIds(committedIds) == UniqueIds(IdsOf(AllPages(ts)))
      ensures Attempted(maxPages, forceInitial, old(store.CursorOf(f)), ts, store.CursorOf(f)) && Retried(ts)
      ensures error == ts[|ts| - 1].thrown
    {
      hide UniqueIds, IdsOf, Synced, Attempted, AllPages, OnlyFolderMoved, RoundEnded, Trace.Pages;
      ghost var log, start := store.applied, store.CursorOf(f);
      committedIds, ts := [], [];
      NoAttempt(maxPages, forceInitial, f, log, start);
      var attempt := 1;
      while attempt <= ATTEMPTS
        invariant 1 <= attempt == |ts| + 1 <= ATTEMPTS
        invariant forall k | 0 <= k < |ts| :: ts[k].thrown.Some? && ts[k].thrown.value.retryable
        invariant Attempted(maxPages, forceInitial, start, ts, store.CursorOf(f))
        invariant store.applied == log + Tag(f, AllPages(ts))
        invariant UniqueIds(committedIds) == UniqueIds(IdsOf(AllPages(ts)))
        decreases ATTEMPTS - attempt
      {
        var r;
        ghost var t;
        r, t := SyncFolder(f, forceInitial);
        NextAttempt(maxPages, forceInitial, f, log, start, ts, t);
        ghost var earlier, before := committedIds, ts;
        if r.Ok? {
          committedIds := committedIds + r.value;
        } else if r.error.upsertedMessageIds.Some? {
          committedIds := committedIds + r.error.upsertedMessageIds.value;
        }
        CommittedMore(earlier, IdsOf(AllPages(before)), IdsOf(t.Pages()), committedIds);
        ts := ts + [t];
        if r.Ok? { return None, committedIds, ts; }
        error := Some(r.error.failure);
        if attempt >= ATTEMPTS || !r.error.failure.retryable { return; }
        attempt := attempt + 1;
      }
    }

    /**
     All folders: through mid-run failures, cursor resets, retries and folders that fail for good, the result
     lists without duplicates and in commit order exactly the ids of the pages that were committed, and names the
     folders that failed with the failure of their last attempt.
     */
    method SyncMailbox(folders: seq<FolderId>, forceInitial: bool)
        returns (ids: seq<Id>, completed: nat, errors: seq<(FolderId, Failure)>, ghost runs: seq<seq<Trace>>)
      modifies store, env
      ensures FoldersRun(maxPages, forceInitial, folders, runs)
      ensures store.applied == old(store.applied) + LogOf(folders, runs)
      ensures ids == UniqueIds(IdsOf(PagesOf(LogOf(folders, runs))))
      ensures errors == ErrorsOf(folders, runs) && completed == |folders| - |errors|
    {
      hide UniqueIds, IdsOf, Attempted, Retried, FolderRun, AllPages, Tag, PagesOf, LogOf, ErrorsOf;
      ghost var before := store.applied;
      var upsertedMessageIds: seq<Id> := [];
      completed, errors, runs := 0, [], [];
      NoFolder();
      var i := 0;
      while i < |folders|
        invariant 0 <= i <= |folders| && |runs| == i && completed + |errors| == i
        invariant FoldersRun(maxPages, forceInitial, folders[..i], runs)
        invariant store.applied == before + LogOf(folders[..i], runs) && errors == ErrorsOf(folders[..i], runs)
        invariant UniqueIds(upsertedMessageIds) == UniqueIds(IdsOf(PagesOf(LogOf(folders[..i], runs))))
      {
        var error, committedIds;
        ghost var ts;
        ghost var cursor := store.CursorOf(folders[i]);
        error, committedIds, ts := SyncWithRetry(folders[i], forceInitial);
        ghost var log := LogOf(folders[..i], runs);
        NextRun(maxPages, forceInitial, folders, i, runs, ts, cursor, store.CursorOf(folders[i]));
        NextLog(folders, i, runs, ts);
        NextErrors(folders, i, runs, ts);
        NextIds(log, folders[i], AllPages(ts));
        UniqueOfJoined(upsertedMessageIds, committedIds);
        UniqueOfJoined(IdsOf(PagesOf(log)), IdsOf(AllPages(ts)));
        upsertedMessageIds := upsertedMessageIds + committedIds;
        runs := runs + [ts];
        if error.None? { completed := completed + 1; } else { errors := errors + [(folders[i], error.value)]; }
        i := i + 1;
      }
      assert folders[..i] == folders;
      ids := UniqueMessageIds(upsertedMessageIds);
    }
  }

  /** The pages of several attempts. */
  function AllPages(ts: seq<Trace>): seq<Page>
  {
    if ts == [] then [] else AllPages(ts[..|ts| - 1]) + ts[|ts| - 1].Pages()
  }

  /** Attempts that follow one another from cursor `from` to cursor `to`. */
  ghost predicate Attempted(maxPages: nat, forceInitial: bool, from: Cursor, ts: seq<Trace>, to: Cursor)
  {
    if ts == [] then from == to
    else
      var t := ts[|ts| - 1];
      Attempted(maxPages, forceInitial, from, ts[..|ts| - 1], t.before) && Synced(maxPages, forceInitial, t) && t.after == to
  }

  /** Another attempt comes exactly after a retryable failure, and there are at most three. */
  predicate Retried(ts: seq<Trace>)
  {
    && 1 <= |ts| <= 3
    && (forall k | 0 <= k < |ts| - 1 :: ts[k].thrown.Some? && ts[k].thrown.value.retryable)
    && var last := ts[|ts| - 1].thrown;
       last.None? || |ts| == 3 || !last.value.retryable
  }

  /** What the folders committed, one folder after another. */
  function LogOf(folders: seq<FolderId>, runs: seq<seq<Trace>>): seq<(FolderId, Page)>
    requires |folders| == |runs|
  {
    if runs == [] then []
    else
      var n := |runs| - 1;
      LogOf(folders[..n], runs[..n]) + Tag(folders[n], AllPages(runs[n]))
  }

  /** The folders whose last attempt failed, with that failure. */
  function ErrorsOf(folders: seq<FolderId>, runs: seq<seq<Trace>>): seq<(FolderId, Failure)>
    requires |folders| == |runs| && forall i | 0 <= i < |runs| :: runs[i] != []
  {
    if runs == [] then []
    else
      var n := |runs| - 1;
      var thrown := runs[n][|runs[n]| - 1].thrown;
      ErrorsOf(folders[..n], runs[..n]) + if thrown.None? then [] else [(folders[n], thrown.value)]
  }

  ghost predicate FolderRun(maxPages: nat, forceInitial: bool, ts: seq<Trace>)
  {
    Retried(ts) && Attempted(maxPages, forceInitial, ts[0].before, ts, ts[|ts| - 1].after)
  }

  ghost predicate FoldersRun(maxPages: nat, forceInitial: bool, folders: seq<FolderId>, runs: seq<seq<Trace>>)
  {
    |runs| == |folders| && forall i | 0 <= i < |runs| :: runs[i] != [] && FolderRun(maxPages, forceInitial, runs[i])
  }

  /** The ids a failure carries are added to those committed before it. */
  function RetainCommitted(committedIds: seq<Id>, error: Thrown): seq<Id>
  {
    if error.upsertedMessageIds.Some? then committedIds + error.upsertedMessageIds.value else committedIds
  }

  lemma NoLog(c: Cursor)
    ensures RunLog(c, [])
  {
  }

  /** A synchronisation that failed before its first round. */
  function NotBegun(before: Cursor, failure: Failure, after: Cursor): Trace
  {
    Trace(before, false, [], [failure], None, false, [], [], Some(failure), after)
  }

  lemma NotBegunSynced(maxPages: nat, forceInitial: bool, t: Trace)
    requires t.thrown.Some? && t == NotBegun(t.before, t.thrown.value, t.after)
    requires t.after == t.before || (forceInitial && t.after == CLEARED)
    ensures Synced(maxPages, forceInitial, t)
  {
  }

  lemma StartIsCleared(maxPages: nat, forceInitial: bool, t: Trace, start: Cursor)
    requires t.began && Synced(maxPages, forceInitial, t.(before := start))
    requires if forceInitial then start == CLEARED else start == t.before
    ensures Synced(maxPages, forceInitial, t)
  {
    hide RunLog, RoundEnded, AfterAll;
  }

  lemma NothingSynced(f: FolderId, log: seq<(FolderId, Page)>, cursors: map<FolderId, Cursor>)
    ensures log + Tag(f, [] + []) == log && OnlyFolderMoved(f, cursors, cursors)
    ensures forall failure :: Reported(Err(Thrown(failure, None)), [] + [])
  {
    NoIds();
    assert log + Tag(f, []) == log;
  }

  lemma Cleared(f: FolderId, cursors: map<FolderId, Cursor>)
    ensures OnlyFolderMoved(f, cursors, cursors[f := CLEARED]) && CursorIn(cursors[f := CLEARED], f) == CLEARED
  {
  }

  lemma OnlyFolderJoin(f: FolderId, a: map<FolderId, Cursor>, b: map<FolderId, Cursor>, c: map<FolderId, Cursor>)
    requires OnlyFolderMoved(f, a, b) && OnlyFolderMoved(f, b, c)
    ensures OnlyFolderMoved(f, a, c)
  {
  }

  lemma RaisedTwice(before: seq<Failure>, first: seq<Failure>, after: seq<Failure>, n: nat)
    requires n == |before| + |first| && n <= |after| && after[..n] == before + first
    ensures after == before + first + after[n..]
  {
  }

  /** A synchronisation whose first round was its only one. */
  function OneRound(start: Cursor, first: seq<Page>, raised: seq<Failure>, failure: Option<Failure>, after: Cursor): Trace
  {
    Trace(start, true, first, raised, failure, false, [], [], failure, after)
  }

  lemma OneRoundSynced(maxPages: nat, forceInitial: bool, start: Cursor, first: seq<Page>, raised: seq<Failure>,
                       failure: Option<Failure>, after: Cursor)
    requires forceInitial ==> start == CLEARED
    requires RunLog(start, first) && RoundEnded(maxPages, first, raised, failure) && after == AfterAll(start, first)
    requires failure.None? || failure.value.code != CURSOR_EXPIRED || forceInitial
    ensures Synced(maxPages, forceInitial, OneRound(start, first, raised, failure, after))
    ensures failure.None? ==> Closed(first)
  {
    hide RunLog, AfterAll;
  }

  lemma ClearingThrew(maxPages: nat, start: Cursor, first: seq<Page>, raised: seq<Failure>, failure: Option<Failure>,
                      after: Cursor, trouble: Failure)
    requires RunLog(start, first) && RoundEnded(maxPages, first, raised, failure) && after == AfterAll(start, first)
    requires failure.Some? && failure.value.code == CURSOR_EXPIRED
    ensures Synced(maxPages, false, OneRound(start, first, raised, failure, after)
                   .(raisedLater := [trouble], thrown := Some(trouble)))
  {
    hide RunLog, AfterAll, RoundEnded;
  }

  lemma TwoRoundsSynced(maxPages: nat, t: Trace)
    requires t.began && t.reset && RunLog(t.before, t.first) && RoundEnded(maxPages, t.first, t.raisedFirst, t.failure)
    requires t.failure.Some? && t.failure.value.code == CURSOR_EXPIRED
    requires RunLog(CLEARED, t.second) && RoundEnded(maxPages, t.second, t.raisedLater, t.thrown)
    requires t.after == AfterAll(CLEARED, t.second)
    ensures Synced(maxPages, false, t)
    ensures t.thrown.None? ==> Closed(t.first + t.second)
  {
    hide RunLog, AfterAll;
  }

  lemma NoAttempt(maxPages: nat, forceInitial: bool, f: FolderId, log: seq<(FolderId, Page)>, start: Cursor)
    ensures Attempted(maxPages, forceInitial, start, [], start)
    ensures log + Tag(f, AllPages([])) == log && UniqueIds([]) == UniqueIds(IdsOf(AllPages([])))
  {
    NoIds();
    assert log + Tag(f, []) == log;
  }

  lemma NextAttempt(maxPages: nat, forceInitial: bool, f: FolderId, log: seq<(FolderId, Page)>, start: Cursor,
                    ts: seq<Trace>, t: Trace)
    requires Attempted(maxPages, forceInitial, start, ts, t.before) && Synced(maxPages, forceInitial, t)
    ensures Attempted(maxPages, forceInitial, start, ts + [t], t.after)
    ensures log + Tag(f, AllPages(ts)) + Tag(f, t.Pages()) == log + Tag(f, AllPages(ts + [t]))
    ensures IdsOf(AllPages(ts + [t])) == IdsOf(AllPages(ts)) + IdsOf(t.Pages())
  {
    hide Synced, Tag, IdsOf, Trace.Pages;
    assert (ts + [t])[..|ts|] == ts;
    hide AllPages, Attempted;
    PagesNext(ts, t);
    TagMore(f, log, AllPages(ts), t.Pages());
    IdsJoin(AllPages(ts), t.Pages());
  }

  lemma PagesNext(ts: seq<Trace>, t: Trace)
    ensures AllPages(ts + [t]) == AllPages(ts) + t.Pages()
  {
    assert (ts + [t])[..|ts|] == ts;
  }

  lemma TagMore(f: FolderId, log: seq<(FolderId, Page)>, a: seq<Page>, b: seq<Page>)
    ensures log + Tag(f, a) + Tag(f, b) == log + Tag(f, a + b)
  {
    TagJoin(f, a, b);
    hide Tag;
  }

  lemma NoFolder()
    ensures LogOf([], []) == [] && ErrorsOf([], []) == [] && UniqueIds([]) == UniqueIds(IdsOf(PagesOf([])))
  {
    NoIds();
    assert PagesOf([]) == [];
  }

  lemma {:induction false} AttemptedFrom(maxPages: nat, forceInitial: bool, from: Cursor, ts: seq<Trace>, to: Cursor)
    requires Attempted(maxPages, forceInitial, from, ts, to) && ts != []
    ensures ts[0].before == from && ts[|ts| - 1].after == to
  {
    hide Synced;
    if |ts| > 1 { AttemptedFrom(maxPages, forceInitial, from, ts[..|ts| - 1], ts[|ts| - 1].before); }
  }

  lemma NextRun(maxPages: nat, forceInitial: bool, folders: seq<FolderId>, i: nat, runs: seq<seq<Trace>>, ts: seq<Trace>,
                from: Cursor, to: Cursor)
    requires i < |folders| && FoldersRun(maxPages, forceInitial, folders[..i], runs) && Retried(ts)
    requires Attempted(maxPages, forceInitial, from, ts, to)
    ensures FoldersRun(maxPages, forceInitial, folders[..i + 1], runs + [ts]) && ts != []
  {
    hide Attempted;
    AttemptedFrom(maxPages, forceInitial, from, ts, to);
    assert FolderRun(maxPages, forceInitial, ts);
    hide FolderRun;
  }

  lemma NextIds(log: seq<(FolderId, Page)>, f: FolderId, pages: seq<Page>)
    ensures IdsOf(PagesOf(log + Tag(f, pages))) == IdsOf(PagesOf(log)) + IdsOf(pages)
  {
    PagesJoin(log, f, pages);
    hide IdsOf, Tag, PagesOf;
    IdsJoin(PagesOf(log), pages);
  }

  lemma NextLog(folders: seq<FolderId>, i: nat, runs: seq<seq<Trace>>, ts: seq<Trace>)
    requires i == |runs| < |folders|
    ensures LogOf(folders[..i + 1], runs + [ts]) == LogOf(folders[..i], runs) + Tag(folders[i], AllPages(ts))
  {
    hide AllPages, Tag;
    assert (runs + [ts])[..i] == runs && folders[..i + 1][..i] == folders[..i];
  }

  lemma NextErrors(folders: seq<FolderId>, i: nat, runs: seq<seq<Trace>>, ts: seq<Trace>)
    requires i == |runs| < |folders| && ts != [] && forall k | 0 <= k < |runs| :: runs[k] != []
    ensures var thrown := ts[|ts| - 1].thrown;
            ErrorsOf(folders[..i + 1], runs + [ts])
            == ErrorsOf(folders[..i], runs) + if thrown.None? then [] else [(folders[i], thrown.value)]
  {
    assert (runs + [ts])[..i] == runs && folders[..i + 1][..i] == folders[..i];
  }

  lemma PagesJoin(log: seq<(FolderId, Page)>, f: FolderId, pages: seq<Page>)
    ensures PagesOf(log + Tag(f, pages)) == PagesOf(log) + pages
  {
  }

  lemma AllReported(error: Option<Thrown>, ids: seq<Id>, pages: seq<Page>)
    requires ids == UniqueIds(IdsOf(pages)) && (error.None? ==> Closed(pages))
    ensures Reported(Outcome(error, ids), pages) && FailureOf(Outcome(error, ids)) == FailureIn(error)
  {
  }

  lemma ClosedStays(a: seq<Page>, b: seq<Page>)
    ensures Closed(b) ==> Closed(a + b)
  {
  }

  lemma NoIds()
    ensures UniqueIds([]) == [] && IdsOf([]) == []
  {
  }

  lemma TagJoin(f: FolderId, a: seq<Page>, b: seq<Page>)
    ensures Tag(f, a) + Tag(f, b) == Tag(f, a + b)
  {
  }

  lemma CommittedMore(earlier: seq<Id>, ids: seq<Id>, more: seq<Id>, committed: seq<Id>)
    requires UniqueIds(earlier) == UniqueIds(ids)
    requires committed == earlier + UniqueIds(more) || (committed == earlier && UniqueIds(more) == [])
    ensures UniqueIds(committed) == UniqueIds(ids + more)
  {
    UniqueOfJoined(ids, more);
    UniqueOfJoined(earlier, UniqueIds(more));
    UniqueTwice(more);
    UniqueTwice(earlier);
    assert UniqueIds(ids) + [] == UniqueIds(ids);
  }

  lemma NothingApplied(f: FolderId, cursors: map<FolderId, Cursor>, log: seq<(FolderId, Page)>)
    ensures Advanced(f, cursors, log, [], cursors, log) && AllOpen([]) && IdsOf([]) == []
  {
    assert log + Tag(f, []) == log;
  }

  lemma RoundCommitted(f: FolderId, cursors: map<FolderId, Cursor>, log: seq<(FolderId, Page)>, pages: seq<Page>,
                       cursors': map<FolderId, Cursor>, log': seq<(FolderId, Page)>)
    requires Advanced(f, cursors, log, pages, cursors', log')
    ensures log' == log + Tag(f, pages) && RunLog(CursorIn(cursors, f), pages)
    ensures CursorIn(cursors', f) == AfterAll(CursorIn(cursors, f), pages) && OnlyFolderMoved(f, cursors, cursors')
  {
  }

  lemma TagNext(f: FolderId, log: seq<(FolderId, Page)>, pages: seq<Page>, p: Page)
    ensures log + Tag(f, pages) + [(f, p)] == log + Tag(f, pages + [p])
  {
  }

  /** One more page, asked for at the saved cursor and committed together with the cursor after it. */
  lemma PageApplied(f: FolderId, cursors: map<FolderId, Cursor>, log: seq<(FolderId, Page)>, pages: seq<Page>,
                    cursors': map<FolderId, Cursor>, log': seq<(FolderId, Page)>, p: Page)
    requires Advanced(f, cursors, log, pages, cursors', log') && AllOpen(pages)
    requires p.url == StartUrl(CursorIn(cursors', f)) && Proper(p)
    ensures var next := After(CursorIn(cursors', f), p);
            && Advanced(f, cursors, log, pages + [p], cursors'[f := next], log' + [(f, p)])
            && (p.deltaLink == "" ==> StartUrl(next) == p.nextLink && AllOpen(pages + [p]))
            && (p.deltaLink != "" ==> Closed(pages + [p]))
    ensures IdsOf(pages + [p]) == IdsOf(pages) + p.upserts
  {
    IdsNext(pages, p);
    TagNext(f, log, pages, p);
    FollowsNext(CursorIn(cursors, f), pages, p);
    hide Follows, AfterAll, Tag;
  }

  lemma FollowsNext(c: Cursor, pages: seq<Page>, p: Page)
    requires Follows(c, pages) && p.url == StartUrl(AfterAll(c, pages)) && Proper(p)
    ensures Follows(c, pages + [p]) && AfterAll(c, pages + [p]) == After(AfterAll(c, pages), p)
  {
    var all := pages + [p];
    assert all[..|pages|] == pages;
    forall i | 0 <= i < |all| ensures all[i].url == StartUrl(AfterAll(c, all[..i])) && Proper(all[i]) {
      if i < |pages| { assert all[..i] == pages[..i]; }
    }
  }
}
