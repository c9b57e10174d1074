/**
 Interrupting and resuming a delta round: because a page and the link to the next one are saved together, any
 schedule of interrupted runs applies what one uninterrupted run would have applied.
 */
module DeltaResume {
  import opened MailSync

  /** A server that answers each link with one page for the length of a round. */
  type Server = Url -> Page

  predicate Served(server: Server, pages: seq<Page>)
  {
    forall i | 0 <= i < |pages| :: pages[i] == server(pages[i].url)
  }

  function Flatten(runs: seq<seq<Page>>): seq<Page>
  {
    if runs == [] then [] else Flatten(runs[..|runs| - 1]) + runs[|runs| - 1]
  }

  /** Runs that each start where the saved cursor is, and stop anywhere, for whatever reason. */
  ghost predicate Schedule(c: Cursor, runs: seq<seq<Page>>)
  {
    forall i | 0 <= i < |runs| :: RunLog(AfterAll(c, Flatten(runs[..i])), runs[i])
  }

  /** No run before the last one got to the page with the delta link. */
  predicate OpenUntilLast(runs: seq<seq<Page>>)
  {
    forall i | 0 <= i < |runs| - 1 :: !Closed(runs[i])
  }

  lemma {:induction false} ScheduleFollows(c: Cursor, runs: seq<seq<Page>>)
    requires Schedule(c, runs)
    ensures Follows(c, Flatten(runs))
  {
    if runs != [] {
      var n := |runs| - 1;
      forall i | 0 <= i < n ensures RunLog(AfterAll(c, Flatten(runs[..n][..i])), runs[..n][i]) {
        assert runs[..n][..i] == runs[..i];
      }
      ScheduleFollows(c, runs[..n]);
      FollowsJoin(c, Flatten(runs[..n]), runs[n]);
    }
  }

  lemma FollowsAt(c: Cursor, pages: seq<Page>, i: nat)
    requires Follows(c, pages) && i < |pages|
    ensures pages[i].url == StartUrl(AfterAll(c, pages[..i]))
  {
  }

  /** A server's answers leave no choice: two lists of pages that follow the same cursor agree as far as both go. */
  lemma {:induction false} Determined(server: Server, c: Cursor, a: seq<Page>, b: seq<Page>, n: nat)
    requires Follows(c, a) && Follows(c, b) && Served(server, a) && Served(server, b)
    requires n <= |a| && n <= |b|
    ensures a[..n] == b[..n]
  {
    hide Follows, AfterAll;
    if n > 0 {
      Determined(server, c, a, b, n - 1);
      FollowsAt(c, a, n - 1);
      FollowsAt(c, b, n - 1);
      assert a[n - 1] == b[n - 1];
      assert a[..n] == a[..n - 1] + [a[n - 1]] && b[..n] == b[..n - 1] + [b[n - 1]];
    }
  }

  lemma ScheduleFront(c: Cursor, runs: seq<seq<Page>>)
    requires Schedule(c, runs) && runs != []
    ensures Schedule(c, runs[..|runs| - 1])
    ensures OpenInside(runs[|runs| - 1])
  {
    var front := runs[..|runs| - 1];
    forall i | 0 <= i < |front| ensures RunLog(AfterAll(c, Flatten(front[..i])), front[i]) {
      assert front[..i] == runs[..i];
    }
  }

  /** Before its last page, a schedule has met no delta link. */
  lemma {:induction false} OpenPages(c: Cursor, runs: seq<seq<Page>>)
    requires Schedule(c, runs) && OpenUntilLast(runs)
    ensures OpenInside(Flatten(runs))
    ensures runs != [] && !Closed(runs[|runs| - 1]) ==> !Closed(Flatten(runs))
  {
    hide Schedule;
    if runs != [] {
      var n := |runs| - 1;
      ScheduleFront(c, runs);
      OpenPages(c, runs[..n]);
      if n > 0 { assert !Closed(runs[n - 1]); }
      assert Flatten(runs) == Flatten(runs[..n]) + runs[n];
    }
  }

  /** A list that meets no delta link before its end is no longer than the closed list it agrees with. */
  lemma NoLonger(all: seq<Page>, whole: seq<Page>, n: nat)
    requires n <= |all| && n <= |whole| && (n == |all| || n == |whole|) && all[..n] == whole[..n]
    requires Closed(whole) && OpenInside(all)
    ensures |all| <= |whole|
  {
    if n > 0 { assert all[..n][n - 1] == whole[..n][n - 1]; }
  }

  /**
   Crash and resume: as long as its round is open, a schedule of interrupted runs has applied a prefix of what the
   uninterrupted run applies, and once its last run reaches the delta link it has applied exactly the same pages,
   in the same order, each as often, and left the same cursor.
   */
  lemma InterruptedIsWhole(server: Server, c: Cursor, runs: seq<seq<Page>>, whole: seq<Page>)
    requires Schedule(c, runs) && OpenUntilLast(runs) && Served(server, Flatten(runs))
    requires RunLog(c, whole) && Closed(whole) && Served(server, whole)
    ensures Flatten(runs) <= whole
    ensures runs != [] && Closed(runs[|runs| - 1]) ==>
      Flatten(runs) == whole && AfterAll(c, Flatten(runs)) == AfterAll(c, whole)
  {
    var all := Flatten(runs);
    ScheduleFollows(c, runs);
    OpenPages(c, runs);
    var n := if |all| <= |whole| then |all| else |whole|;
    Determined(server, c, all, whole, n);
    NoLonger(all, whole, n);
    assert all == all[..n] == whole[..n];
    if runs != [] && Closed(runs[|runs| - 1]) {
      assert all[|all| - 1] == whole[|all| - 1] && all[|all| - 1].deltaLink != "";
    }
  }

  /** After a closed round the next run starts at the delta link, unless the closing page also had a next link. */
  lemma NextRoundStart(c: Cursor, pages: seq<Page>)
    requires Closed(pages)
    ensures StartUrl(AfterAll(c, pages)) == pages[|pages| - 1].deltaLink <==>
      pages[|pages| - 1].nextLink == "" || pages[|pages| - 1].nextLink == pages[|pages| - 1].deltaLink
  {
  }
}
