/**
 * OPML export (buildExportOutlines, buildFolderOutline, buildFeedOutline):
 * the folder table becomes a tree of folder nodes, each holding its
 * sub-folders and its feeds, and the tree is written out level by level,
 * sub-folders before feeds, each group ordered by its lower-cased label.
 */
module OpmlExport {
  import opened Wrappers
  import opened Text
  import opened Sorting
  import opened Store
  import opened Outlines

  /** folderNode: a folder with the nodes of its sub-folders and the feeds filed in it. */
  datatype Node = Node(folder: Folder, children: seq<Node>, feeds: seq<Feed>)

  /** The elements of `xs` satisfying `p`, in their order. */
  function Filter<T(!new)>(xs: seq<T>, p: T -> bool): (r: seq<T>)
    ensures forall x :: x in r <==> x in xs && p(x)
    ensures multiset(r) <= multiset(xs)
  {
    if |xs| == 0 then []
    else
      assert xs == [xs[0]] + xs[1..];
      (if p(xs[0]) then [xs[0]] else []) + Filter(xs[1..], p)
  }

  /**
   * The node a folder hangs under: its parent, when the parent key is set and
   * names an existing folder (nodeByID[*ParentID] is not nil).
   */
  function ParentOf(t: FolderTable, f: Folder): (r: Option<Folder>)
    ensures r.Some? <==> f.parentId.Some? && HasFolder(t, f.parentId.value)
    ensures r.Some? ==> r.value in t.rows && Some(r.value.id) == f.parentId
  {
    match f.parentId
    case None => None
    case Some(pid) => FolderById(t, pid)
  }

  /** A feed is exported at the top level when it has no folder or its folder does not exist. */
  predicate IsRootFeed(t: FolderTable, e: Feed) {
    e.folderId.None? || !HasFolder(t, e.folderId.value)
  }

  /** The folders exported at the top level: no parent, or a parent that does not exist. */
  function RootFolders(t: FolderTable): (r: seq<Folder>)
    ensures forall f :: f in r <==> f in t.rows && ParentOf(t, f).None?
    ensures multiset(r) <= multiset(t.rows)
  {
    Filter(t.rows, (f: Folder) => ParentOf(t, f).None?)
  }

  /** The folders whose parent key is `id`. */
  function ChildFolders(t: FolderTable, id: int): (r: seq<Folder>)
    ensures forall f :: f in r <==> f in t.rows && f.parentId == Some(id)
    ensures multiset(r) <= multiset(t.rows)
  {
    Filter(t.rows, (f: Folder) => f.parentId == Some(id))
  }

  /** The feeds filed in the folder with key `id`. */
  function FolderFeeds(feeds: seq<Feed>, id: int): (r: seq<Feed>)
    ensures forall e :: e in r <==> e in feeds && e.folderId == Some(id)
    ensures multiset(r) <= multiset(feeds)
  {
    Filter(feeds, (e: Feed) => e.folderId == Some(id))
  }

  /** The feeds exported at the top level. */
  function RootFeeds(t: FolderTable, feeds: seq<Feed>): (r: seq<Feed>)
    ensures forall e :: e in r <==> e in feeds && IsRootFeed(t, e)
    ensures multiset(r) <= multiset(feeds)
  {
    Filter(feeds, (e: Feed) => IsRootFeed(t, e))
  }

  /** The keys of all folders. */
  function FolderIds(t: FolderTable): set<int> {
    set f | f in t.rows :: f.id
  }

  /**
   * The node of folder `f` with its whole subtree. `avail` holds the keys not
   * yet on the path from the top level down to `f`; the walk starts from the
   * top-level folders, which no cycle of parent keys can reach, so the first
   * branch is never taken on the walk Export performs when the parent keys are
   * acyclic (ExportFoldersOnce relies on this).
   */
  function BuildNode(t: FolderTable, feeds: seq<Feed>, f: Folder, avail: set<int>): (n: Node)
    ensures n.folder == f
    ensures n.feeds == FolderFeeds(feeds, f.id)
    ensures f.id in avail ==> |n.children| == |ChildFolders(t, f.id)|
    ensures f.id in avail ==> forall i :: 0 <= i < |n.children| ==> n.children[i].folder == ChildFolders(t, f.id)[i]
    decreases avail
  {
    if f.id !in avail then Node(f, [], FolderFeeds(feeds, f.id))
    else
      var kids := ChildFolders(t, f.id);
      Node(f, seq(|kids|, i requires 0 <= i < |kids| => BuildNode(t, feeds, kids[i], avail - {f.id})),
        FolderFeeds(feeds, f.id))
  }

  /** The top-level nodes, one per top-level folder, in table order. */
  function Forest(t: FolderTable, feeds: seq<Feed>): (r: seq<Node>)
    ensures |r| == |RootFolders(t)|
    ensures forall i :: 0 <= i < |r| ==> r[i] == BuildNode(t, feeds, RootFolders(t)[i], FolderIds(t))
  {
    var roots := RootFolders(t);
    seq(|roots|, i requires 0 <= i < |roots| => BuildNode(t, feeds, roots[i], FolderIds(t)))
  }

  /** The sort key of a folder node and of a feed: the lower-cased name or title. */
  function NodeKey(n: Node): string {
    ToLower(n.folder.name)
  }

  function FeedKey(e: Feed): string {
    ToLower(e.title)
  }

  /** The label an outline is ordered by in an export. */
  function OutlineKey(o: Outline): string {
    ToLower(o.title)
  }

  /** buildFeedOutline: an rss outline carrying the feed's title, URL and site URL. */
  function FeedOutline(e: Feed): (o: Outline)
    ensures o.children == []
    ensures OutlineKey(o) == FeedKey(e)
  {
    Outline(e.title, e.title, "rss", e.url, if e.siteUrl.Some? then e.siteUrl.value else "", [])
  }

  function FeedOutlines(es: seq<Feed>): (r: seq<Outline>)
    ensures |r| == |es|
    ensures forall i :: 0 <= i < |es| ==> r[i] == FeedOutline(es[i])
  {
    seq(|es|, i requires 0 <= i < |es| => FeedOutline(es[i]))
  }

  /**
   * buildFolderOutline: an outline labelled with the folder name whose nested
   * outlines are the sub-folders ordered by key followed by the feeds ordered
   * by key.
   */
  function FolderOutline(n: Node): (o: Outline)
    ensures OutlineKey(o) == NodeKey(n)
    ensures |o.children| == |n.children| + |n.feeds|
    decreases n
  {
    var kids := SortBy(NodeKey, n.children);
    var feeds := SortBy(FeedKey, n.feeds);
    assert forall i :: 0 <= i < |kids| ==> kids[i] in multiset(n.children);
    Outline(n.folder.name, n.folder.name, "", "", "",
      seq(|kids|, i requires 0 <= i < |kids| => FolderOutline(kids[i])) + FeedOutlines(feeds))
  }

  function FolderOutlines(ns: seq<Node>): (r: seq<Outline>)
    ensures |r| == |ns|
    ensures forall i :: 0 <= i < |ns| ==> r[i] == FolderOutline(ns[i])
  {
    seq(|ns|, i requires 0 <= i < |ns| => FolderOutline(ns[i]))
  }

  /** buildExportOutlines: the top-level folders ordered by key, then the top-level feeds ordered by key. */
  function Export(t: FolderTable, feeds: FeedTable): (r: seq<Outline>)
    ensures |r| == |RootFolders(t)| + |RootFeeds(t, feeds.rows)|
  {
    FolderOutlines(SortBy(NodeKey, Forest(t, feeds.rows)))
      + FeedOutlines(SortBy(FeedKey, RootFeeds(t, feeds.rows)))
  }
}
