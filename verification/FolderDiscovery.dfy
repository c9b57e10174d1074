/**
 Finding all mail folders: a worklist of folder listings, each read page by page.  Within one discovery Graph is
 taken to answer every link in one way, and to say of a folder the same thing wherever it lists it.
 */
module FolderDiscovery {
  import opened Wrappers
  import opened JsonNumber
  import opened PageChain

  type Id = Text

  /** A folder as Graph lists it, its id trimmed. */
  datatype Raw = Raw(id: Id, parentFolderId: Id, hasChildren: bool, isHidden: bool)

  datatype Folder = Folder(id: Id, parentFolderId: Id, isHidden: bool)

  datatype Listing = Root | Children(of: Id)

  datatype Graph = Graph(web: Web<Raw>, first: Listing -> Text, expands: Id -> bool, hidden: Id -> bool)

  datatype Error = RequestFailed | MaxFoldersExceeded

  // ---------- What there is to find ----------

  /** The pages of a listing run out: at its end, or at a page that cannot be had. */
  ghost predicate RunsOut(g: Graph, l: Listing, path: seq<Text>)
  {
    && g.first(l) != [] && g.web.Chain(g.first(l), path)
    && (g.web.NextOf(g.first(l), path) == [] || !g.web.Readable(g.web.NextOf(g.first(l), path)))
  }

  ghost predicate Finite(g: Graph, l: Listing) { exists path :: RunsOut(g, l, path) }

  /** The listings that may be read all run out. */
  ghost predicate FiniteListings(g: Graph) { forall l: Listing | Open(g, l) :: Finite(g, l) }

  /** The listing of the root, or of a reachable folder, has a page that cannot be had. */
  ghost predicate Broken(g: Graph, l: Listing)
  {
    Open(g, l) && exists path :: RunsOut(g, l, path) && g.web.NextOf(g.first(l), path) != []
  }

  /** Every record of a folder says the same about its children and whether it is hidden. */
  ghost predicate Steady(g: Graph)
  {
    forall link, i | g.web.page(link).Listed? && 0 <= i < |g.web.page(link).items| ::
      var raw := g.web.page(link).items[i];
      raw.hasChildren == g.expands(raw.id) && raw.isHidden == g.hidden(raw.id)
  }

  /** The listing holds a record of the folder. */
  ghost predicate Holds(g: Graph, l: Listing, id: Id)
  {
    exists path, k, i ::
      && g.web.Chain(g.first(l), path) && 0 <= k < |path|
      && g.web.page(path[k]).Listed? && 0 <= i < |g.web.page(path[k]).items|
      && g.web.page(path[k]).items[i].id == id
  }

  /** The listing holds this very record. */
  ghost predicate Record(g: Graph, l: Listing, raw: Raw)
  {
    exists path, k, i ::
      && g.web.Chain(g.first(l), path) && 0 <= k < |path|
      && g.web.page(path[k]).Listed? && 0 <= i < |g.web.page(path[k]).items|
      && g.web.page(path[k]).items[i] == raw
  }

  function ParentOf(l: Listing): Id { if l.Root? then [] else l.of }

  /** A folder is reported with the parent its record names, or else the folder whose children were listed. */
  function FolderOf(raw: Raw, parentId: Id): Folder
  {
    Folder(raw.id, if raw.parentFolderId != [] then raw.parentFolderId else parentId, raw.isHidden)
  }

  /** The folder is what the record says, under the folder that was listed when the record names no parent. */
  predicate Describes(l: Listing, raw: Raw, f: Folder)
  {
    && f.id == raw.id && f.isHidden == raw.isHidden
    && (raw.parentFolderId != [] ==> f.parentFolderId == raw.parentFolderId)
    && (raw.parentFolderId == [] ==> f.parentFolderId == if l.Root? then [] else l.of)
  }

  /** The folder is reported as some listing that may be read has it. */
  ghost predicate Origin(g: Graph, f: Folder)
  {
    exists l, raw :: Open(g, l) && Record(g, l, raw) && Describes(l, raw, f)
  }

  /** The folder is reached from the root by this line of folders, each with children. */
  ghost predicate Line(g: Graph, line: seq<Id>)
  {
    && line != []
    && var n := |line| - 1;
       && line[n] != []
       && if n == 0 then Holds(g, Root, line[0])
          else Line(g, line[..n]) && g.expands(line[n - 1]) && Holds(g, Children(line[n - 1]), line[n])
  }

  ghost predicate Reachable(g: Graph, id: Id)
  {
    exists line :: Line(g, line) && line[|line| - 1] == id
  }

  lemma ReachRoot(g: Graph, id: Id)
    requires id != [] && Holds(g, Root, id)
    ensures Reachable(g, id)
  {
    assert Line(g, [id]) && [id][|[id]| - 1] == id;
  }

  lemma ReachChild(g: Graph, parent: Id, id: Id)
    requires Reachable(g, parent) && g.expands(parent) && id != [] && Holds(g, Children(parent), id)
    ensures Reachable(g, id)
  {
    hide Holds;
    var line :| Line(g, line) && line[|line| - 1] == parent;
    LineGrows(g, line, id);
    hide Line;
    assert Line(g, line + [id]) && (line + [id])[|line + [id]| - 1] == id;
  }

  lemma LineGrows(g: Graph, line: seq<Id>, id: Id)
    requires Line(g, line) && g.expands(line[|line| - 1]) && id != [] && Holds(g, Children(line[|line| - 1]), id)
    ensures Line(g, line + [id])
  {
    hide Holds;
    assert (line + [id])[..|line|] == line && (line + [id])[|line|] == id;
  }

  /** The listing may be read: it is the root, or that of a reachable folder with children. */
  ghost predicate Open(g: Graph, l: Listing)
  {
    l.Children? ==> Reachable(g, l.of) && g.expands(l.of)
  }

  /** Everything the listing holds is in `seen`. */
  ghost predicate Covered(g: Graph, l: Listing, seen: set<Id>)
  {
    forall id | id != [] && Holds(g, l, id) :: id in seen
  }

  /** A set that covers the root and the children of all its members has every reachable folder. */
  lemma {:induction false} ClosedHasLine(g: Graph, seen: set<Id>, line: seq<Id>)
    requires Line(g, line) && Covered(g, Root, seen)
    requires forall p | p in seen && g.expands(p) :: Covered(g, Children(p), seen)
    ensures line[|line| - 1] in seen
  {
    hide Holds;
    if |line| > 1 { ClosedHasLine(g, seen, line[..|line| - 1]); }
  }

  lemma ClosedHasAll(g: Graph, seen: set<Id>)
    requires Covered(g, Root, seen) && forall p | p in seen && g.expands(p) :: Covered(g, Children(p), seen)
    ensures forall id | Reachable(g, id) :: id in seen
  {
    hide Holds;
    forall id | Reachable(g, id) ensures id in seen {
      var line :| Line(g, line) && line[|line| - 1] == id;
      ClosedHasLine(g, seen, line);
    }
  }

  // ---------- The worklist ----------

  ghost predicate Distinct(folders: seq<Folder>)
  {
    forall i, j | 0 <= i < j < |folders| :: folders[i].id != folders[j].id
  }

  /** The folders reported so far: every seen one that may be shown, once. */
  ghost predicate Reports(g: Graph, includeHidden: bool, folders: seq<Folder>, seen: set<Id>)
  {
    && Distinct(folders)
    && (forall i | 0 <= i < |folders| :: folders[i].id in seen && folders[i].isHidden == g.hidden(folders[i].id))
    && (forall i | 0 <= i < |folders| :: Origin(g, folders[i]))
    && (forall id | id in seen :: (includeHidden || !g.hidden(id)) <==> exists i :: 0 <= i < |folders| && folders[i].id == id)
  }

  /** Seen folders are reachable, and the listings of those with children are read, being read, or queued. */
  ghost predicate Pending(g: Graph, seen: set<Id>, queue: seq<Listing>, done: set<Listing>)
  {
    && (forall id | id in seen :: id != [] && Reachable(g, id))
    && (forall l | l in queue :: Open(g, l))
    && (Root in queue || Root in done)
    && (forall p | p in seen && g.expands(p) :: Children(p) in queue || Children(p) in done)
  }

  ghost predicate Read(g: Graph, done: set<Listing>, seen: set<Id>)
  {
    forall l | l in done :: Covered(g, l, seen)
  }

  /** One record of a page. */
  method Visit(ghost g: Graph, raw: Raw, parentId: Id, includeHidden: bool, folders: seq<Folder>, seen: set<Id>,
               queue: seq<Listing>, ghost done: set<Listing>)
      returns (folders': seq<Folder>, seen': set<Id>, queue': seq<Listing>)
    requires Pending(g, seen, queue, done) && Reports(g, includeHidden, folders, seen)
    requires (raw.id != [] ==> Reachable(g, raw.id)) && Origin(g, FolderOf(raw, parentId))
    requires raw.hasChildren == g.expands(raw.id) && raw.isHidden == g.hidden(raw.id)
    ensures Pending(g, seen', queue', done) && Reports(g, includeHidden, folders', seen')
    ensures seen <= seen' <= seen + {raw.id} && (raw.id != [] ==> raw.id in seen')
    ensures seen' == seen ==> queue' == queue
  {
    hide Reachable, Origin;
    folders', seen', queue' := folders, seen, queue;
    if raw.id == [] || raw.id in seen { return; }
    seen' := seen + {raw.id};
    var folder := FolderOf(raw, parentId);
    if includeHidden || !folder.isHidden { folders' := folders + [folder]; }
    if raw.hasChildren { queue' := queue + [Children(raw.id)]; }
    ReportsMore(g, includeHidden, folders, seen, folder);
  }

  lemma ReportsMore(g: Graph, includeHidden: bool, folders: seq<Folder>, seen: set<Id>, folder: Folder)
    requires Reports(g, includeHidden, folders, seen) && folder.id !in seen && folder.isHidden == g.hidden(folder.id)
    requires Origin(g, folder)
    ensures Reports(g, includeHidden, if includeHidden || !folder.isHidden then folders + [folder] else folders,
                    seen + {folder.id})
  {
    hide Origin;
    var more := if includeHidden || !folder.isHidden then folders + [folder] else folders;
    forall id | id in seen + {folder.id}
      ensures (includeHidden || !g.hidden(id)) <==> exists i :: 0 <= i < |more| && more[i].id == id
    {
      if id == folder.id {
        if includeHidden || !folder.isHidden { assert more[|folders|].id == id; }
      } else if includeHidden || !g.hidden(id) {
        var i :| 0 <= i < |folders| && folders[i].id == id;
        assert more[i].id == id;
      }
    }
  }

  datatype Walk = Walk(folders: seq<Folder>, seen: set<Id>, queue: seq<Listing>)

  /** Reading one listing page by page. */
  method ReadListing(g: Graph, l: Listing, includeHidden: bool, boundedMax: nat, start: Walk, ghost done: set<Listing>)
      returns (r: Result<Walk, Error>)
    requires FiniteListings(g) && Steady(g) && Open(g, l) && |start.seen| <= boundedMax
    requires Pending(g, start.seen, start.queue, done + {l}) && Reports(g, includeHidden, start.folders, start.seen)
    ensures r.Ok? ==>
      && Pending(g, r.value.seen, r.value.queue, done + {l})
      && Reports(g, includeHidden, r.value.folders, r.value.seen)
      && start.seen <= r.value.seen && |r.value.seen| <= boundedMax && Covered(g, l, r.value.seen)
      && (r.value.seen == start.seen ==> r.value.queue == start.queue)
    ensures r == Err(MaxFoldersExceeded) ==>
      exists found: set<Id> :: |found| > boundedMax && forall id | id in found :: Reachable(g, id)
    ensures r == Err(RequestFailed) ==> Broken(g, l)
  {
    hide Pending, Reports, Covered, FiniteListings, Steady, Reachable, Open, Origin;
    var first := g.first(l);
    ghost var all := PathOf(g, l);
    ghost var path: seq<Text> := [];
    var url := first;
    var folders, seen, queue := start.folders, start.seen, start.queue;
    var parentId := ParentOf(l);
    while url != []
      invariant g.web.Chain(first, path) && path <= all && url == g.web.NextOf(first, path)
      invariant Pending(g, seen, queue, done + {l}) && Reports(g, includeHidden, folders, seen)
      invariant start.seen <= seen && |seen| <= boundedMax && (seen == start.seen ==> queue == start.queue)
      invariant PagesSeen(g, path, seen)
      decreases |all| - |path|
    {
      if !g.web.Readable(url) {
        assert RunsOut(g, l, path);
        return Err(RequestFailed);
      }
      var page := g.web.page(url);
      WithinPath(g, l, path, all);
      var i := 0;
      while i < |page.items|
        invariant 0 <= i <= |page.items|
        invariant Pending(g, seen, queue, done + {l}) && Reports(g, includeHidden, folders, seen)
        invariant start.seen <= seen && |seen| <= boundedMax && (seen == start.seen ==> queue == start.queue)
        invariant PagesSeen(g, path, seen) && forall k | 0 <= k < i :: page.items[k].id == [] || page.items[k].id in seen
      {
        RecordFacts(g, l, path, url, i);
        ghost var before := seen;
        var found;
        folders, found, queue := Visit(g, page.items[i], parentId, includeHidden, folders, seen, queue, done + {l});
        seen := found;
        SeenGrows(g, path, before, seen);
        if |seen| > boundedMax {
          PendingReach(g, seen, queue, done + {l});
          return Err(MaxFoldersExceeded);
        }
        i := i + 1;
      }
      PageSeen(g, path, url, seen);
      assert (path + [url])[..|path|] == path;
      path := path + [url];
      url := page.next.value;
    }
    AllSeen(g, l, path, seen);
    return Ok(Walk(folders, seen, queue));
  }

  /** Every record of every page of a chain is in `seen`. */
  ghost predicate PagesSeen(g: Graph, path: seq<Text>, seen: set<Id>)
  {
    forall k, i | 0 <= k < |path| && g.web.page(path[k]).Listed? && 0 <= i < |g.web.page(path[k]).items| ::
      g.web.page(path[k]).items[i].id == [] || g.web.page(path[k]).items[i].id in seen
  }

  lemma SeenGrows(g: Graph, path: seq<Text>, seen: set<Id>, seen': set<Id>)
    requires PagesSeen(g, path, seen) && seen <= seen'
    ensures PagesSeen(g, path, seen')
  {
  }

  lemma PageSeen(g: Graph, path: seq<Text>, url: Text, seen: set<Id>)
    requires PagesSeen(g, path, seen) && g.web.page(url).Listed?
    requires forall k | 0 <= k < |g.web.page(url).items| ::
      g.web.page(url).items[k].id == [] || g.web.page(url).items[k].id in seen
    ensures PagesSeen(g, path + [url], seen)
  {
  }

  /** Some way to read the listing to where it runs out. */
  lemma PathOf(g: Graph, l: Listing) returns (all: seq<Text>)
    requires FiniteListings(g) && Open(g, l)
    ensures RunsOut(g, l, all)
  {
    hide RunsOut, Open;
    assert Finite(g, l);
    all :| RunsOut(g, l, all);
  }

  /** A chain that can go on has not reached the end of its listing. */
  lemma NotAtEnd(g: Graph, l: Listing, path: seq<Text>, all: seq<Text>)
    requires RunsOut(g, l, all) && path <= all && g.web.Readable(g.web.NextOf(g.first(l), path))
    ensures |path| < |all|
  {
    hide Web.Chain, Web.NextOf;
    if |path| == |all| { SamePath(path, all); }
  }

  lemma SamePath(path: seq<Text>, all: seq<Text>)
    requires path <= all && |path| == |all|
    ensures path == all
  {
  }

  /** The next page of a chain is the next page of the whole listing. */
  lemma WithinPath(g: Graph, l: Listing, path: seq<Text>, all: seq<Text>)
    requires RunsOut(g, l, all) && path <= all && g.web.Readable(g.web.NextOf(g.first(l), path))
    ensures var url := g.web.NextOf(g.first(l), path);
            && |path| < |all| && all[|path|] == url
            && g.web.Chain(g.first(l), path + [url]) && path + [url] <= all
  {
    NotAtEnd(g, l, path, all);
    ExtendPath(path, all);
    hide Web.Chain, Web.NextOf, Web.Readable;
    ChainAt(g.web, g.first(l), all, |path|);
    ChainPrefix(g.web, g.first(l), all, |path| + 1);
  }

  lemma ExtendPath(path: seq<Text>, all: seq<Text>)
    requires path <= all && |path| < |all|
    ensures all[..|path|] == path && all[..|path| + 1] == path + [all[|path|]]
  {
  }

  lemma RecordFacts(g: Graph, l: Listing, path: seq<Text>, url: Text, i: nat)
    requires Steady(g) && Open(g, l) && g.web.Chain(g.first(l), path + [url])
    requires g.web.page(url).Listed? && i < |g.web.page(url).items|
    ensures var raw := g.web.page(url).items[i];
            && (raw.id != [] ==> Reachable(g, raw.id)) && Origin(g, FolderOf(raw, ParentOf(l)))
            && raw.hasChildren == g.expands(raw.id) && raw.isHidden == g.hidden(raw.id)
  {
    var raw := g.web.page(url).items[i];
    var longer := path + [url];
    assert longer[|path|] == url;
    assert Holds(g, l, raw.id);
    assert Record(g, l, raw);
    hide Holds, Record, Reachable;
    if raw.id != [] {
      if l.Root? { ReachRoot(g, raw.id); } else { ReachChild(g, l.of, raw.id); }
    }
  }

  lemma PendingReach(g: Graph, seen: set<Id>, queue: seq<Listing>, done: set<Listing>)
    requires Pending(g, seen, queue, done)
    ensures forall id | id in seen :: Reachable(g, id)
  {
  }

  lemma AllSeen(g: Graph, l: Listing, path: seq<Text>, seen: set<Id>)
    requires g.web.Complete(g.first(l), path) && PagesSeen(g, path, seen)
    ensures Covered(g, l, seen)
  {
    forall id | id != [] && Holds(g, l, id) ensures id in seen {
      var p, k, i :|
        && g.web.Chain(g.first(l), p) && 0 <= k < |p|
        && g.web.page(p[k]).Listed? && 0 <= i < |g.web.page(p[k]).items|
        && g.web.page(p[k]).items[i].id == id;
      CompleteExtends(g.web, g.first(l), p, path);
      assert path[k] == p[k];
    }
  }

  /**
   `listMailFolders` stops when the page chains are finite.  What it returns is every reachable folder exactly
   once, hidden ones left out on request but still descended into, and there are then no more than the bound;
   it reports the limit only when more
   folders than the bound are reachable, and a failed request only when a page it needs cannot be had.
   */
  method ListMailFolders(g: Graph, includeHidden: bool, boundedMax: nat) returns (r: Result<seq<Folder>, Error>)
    requires FiniteListings(g) && Steady(g)
    ensures r.Ok? ==>
      && Distinct(r.value) && (forall i | 0 <= i < |r.value| :: Origin(g, r.value[i]))
      && (forall id :: (exists i :: 0 <= i < |r.value| && r.value[i].id == id) <==>
            Reachable(g, id) && (includeHidden || !g.hidden(id)))
      && exists all: set<Id> :: |all| <= boundedMax && forall id :: id in all <==> Reachable(g, id)
    ensures r == Err(MaxFoldersExceeded) ==>
      exists found: set<Id> :: |found| > boundedMax && forall id | id in found :: Reachable(g, id)
    ensures r == Err(RequestFailed) ==> exists l :: Broken(g, l)
  {
    hide Reachable, Covered, FiniteListings, Steady, Holds, Broken, Origin;
    var queue := [Root];
    var folders: seq<Folder> := [];
    var seen: set<Id> := {};
    ghost var done: set<Listing> := {};
    while queue != []
      invariant Pending(g, seen, queue, done) && Reports(g, includeHidden, folders, seen) && Read(g, done, seen)
      invariant |seen| <= boundedMax
      decreases boundedMax - |seen|, |queue|
    {
      var l := queue[0];
      ghost var before := seen;
      Dequeue(g, seen, queue, done);
      var walk := ReadListing(g, l, includeHidden, boundedMax, Walk(folders, seen, queue[1..]), done);
      if walk.Err? { return Err(walk.error); }
      folders, seen, queue := walk.value.folders, walk.value.seen, walk.value.queue;
      StillRead(g, done, before, seen, l);
      done := done + {l};
      Subset(before, seen);
    }
    Finished(g, seen, done);
    ReportedExactly(g, includeHidden, folders, seen);
    return Ok(folders);
  }

  lemma Dequeue(g: Graph, seen: set<Id>, queue: seq<Listing>, done: set<Listing>)
    requires Pending(g, seen, queue, done) && queue != []
    ensures Open(g, queue[0]) && Pending(g, seen, queue[1..], done + {queue[0]})
  {
    hide Reachable;
    assert queue == [queue[0]] + queue[1..];
  }

  lemma StillRead(g: Graph, done: set<Listing>, seen: set<Id>, seen': set<Id>, l: Listing)
    requires Read(g, done, seen) && seen <= seen' && Covered(g, l, seen')
    ensures Read(g, done + {l}, seen')
  {
    hide Holds;
  }

  lemma Subset(a: set<Id>, b: set<Id>)
    requires a <= b
    ensures |a| <= |b| && (|a| == |b| ==> a == b)
  {
    assert b == a + (b - a);
  }

  lemma Finished(g: Graph, seen: set<Id>, done: set<Listing>)
    requires Pending(g, seen, [], done) && Read(g, done, seen)
    ensures forall id :: id in seen <==> Reachable(g, id)
  {
    hide Reachable, Covered;
    ClosedHasAll(g, seen);
  }

  lemma ReportedExactly(g: Graph, includeHidden: bool, folders: seq<Folder>, seen: set<Id>)
    requires Reports(g, includeHidden, folders, seen) && forall id :: id in seen <==> Reachable(g, id)
    ensures forall id :: (exists i :: 0 <= i < |folders| && folders[i].id == id) <==>
                           Reachable(g, id) && (includeHidden || !g.hidden(id))
  {
    hide Reachable, Origin;
  }
}
