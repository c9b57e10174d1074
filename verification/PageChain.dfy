/**
 Pages of a Graph listing that continue each other through links.  Every link is requested at most once in a
 scan, so one answer per link is all that a scan can see.
 */
module PageChain {
  import opened Wrappers
  import opened JsonNumber

  /** `Malformed` is no address at all; `Foreign` points outside the listing. */
  datatype LinkCheck = Malformed | Foreign | Own

  /** `next` is empty at the end of the listing, and nothing when the answer holds something that is no link. */
  datatype Page<T> = Failed | Listed(items: seq<T>, next: Option<Text>)

  datatype Web<!T> = Web(check: Text -> LinkCheck, page: Text -> Page<T>)
  {
    predicate Readable(link: Text)
    {
      link != [] && check(link).Own? && page(link).Listed? && page(link).next.Some?
    }

    /** The link that follows a chain of pages that was read. */
    function NextOf(first: Text, path: seq<Text>): Text
    {
      if path == [] then first
      else
        var p := page(path[|path| - 1]);
        if p.Listed? && p.next.Some? then p.next.value else []
    }

    /** Pages read one after another, none of them twice. */
    ghost predicate Chain(first: Text, path: seq<Text>)
    {
      path != [] ==>
        var n := |path| - 1;
        Chain(first, path[..n]) && path[n] == NextOf(first, path[..n]) && Readable(path[n]) && path[n] !in path[..n]
    }

    /** The whole listing was read. */
    ghost predicate Complete(first: Text, path: seq<Text>)
    {
      Chain(first, path) && NextOf(first, path) == []
    }

    function Items(path: seq<Text>): seq<T>
    {
      if path == [] then []
      else
        var p := page(path[|path| - 1]);
        Items(path[..|path| - 1]) + if p.Listed? then p.items else []
    }
  }

  lemma {:induction false} ChainPrefix<T>(web: Web<T>, first: Text, path: seq<Text>, n: nat)
    requires web.Chain(first, path) && n <= |path|
    ensures web.Chain(first, path[..n])
  {
    if n < |path| {
      ChainPrefix(web, first, path[..|path| - 1], n);
      assert path[..|path| - 1][..n] == path[..n];
    } else {
      assert path[..n] == path;
    }
  }

  lemma ChainAt<T>(web: Web<T>, first: Text, path: seq<Text>, i: nat)
    requires web.Chain(first, path) && i < |path|
    ensures path[i] == web.NextOf(first, path[..i]) && web.Readable(path[i]) && path[i] !in path[..i]
  {
    ChainPrefix(web, first, path, i + 1);
    assert path[..i + 1][..i] == path[..i];
  }

  /** A complete listing runs through every chain of pages that can be read. */
  lemma {:induction false} CompleteExtends<T>(web: Web<T>, first: Text, path: seq<Text>, whole: seq<Text>)
    requires web.Chain(first, path) && web.Complete(first, whole)
    ensures path <= whole
    ensures web.NextOf(first, path) == [] ==> path == whole
    ensures web.NextOf(first, path) != [] ==> |path| < |whole| && whole[|path|] == web.NextOf(first, path)
  {
    var n := |path|;
    if n > 0 {
      CompleteExtends(web, first, path[..n - 1], whole);
      assert web.NextOf(first, path[..n - 1]) == path[n - 1] == whole[n - 1];
      assert whole[..n] == whole[..n - 1] + [whole[n - 1]] == path;
    } else {
      assert whole[..0] == path;
    }
    assert whole[..n] == path;
    if n < |whole| {
      ChainAt(web, first, whole, n);
    } else {
      assert whole == path;
    }
  }

  /** Every item of every page of a chain is among its items. */
  lemma {:induction false} ItemsContain<T>(web: Web<T>, path: seq<Text>, k: nat, x: T)
    requires k < |path| && web.page(path[k]).Listed? && x in web.page(path[k]).items
    ensures x in web.Items(path)
  {
    var n := |path| - 1;
    if k < n { ItemsContain(web, path[..n], k, x); }
  }

  lemma ItemsNext<T>(web: Web<T>, path: seq<Text>, next: Text)
    requires web.page(next).Listed?
    ensures web.Items(path + [next]) == web.Items(path) + web.page(next).items
  {
    assert (path + [next])[..|path|] == path;
  }
}
