/**
 * Export followed by import: importing the document Export writes into the
 * database it was written from finds every folder and every feed already
 * stored, so nothing is created and every outline is counted as skipped.
 */
module OpmlRoundTrip {
  import opened Wrappers
  import opened Text
  import opened Sorting
  import opened Store
  import opened Outlines
  import opened OpmlImport
  import opened OpmlImportFacts
  import opened OpmlExport
  import opened OpmlExportFacts

  /**
   * The tables import can read an export of back without creating anything:
   * no folder name is blank (import would look for "Untitled"), every parent
   * key names a stored folder (import looks for a top-level folder with no
   * parent), and every stored URL is already trimmed (import looks URLs up
   * trimmed).
   */
  predicate Reimportable(t: FolderTable, feeds: FeedTable) {
    && SiblingNamesUnique(t.rows)
    && (forall f :: f in t.rows ==> !IsBlank(f.name))
    && (forall f :: f in t.rows && f.parentId.Some? ==> HasFolder(t, f.parentId.value))
    && (forall e :: e in feeds.rows ==> TrimSpace(e.url) == e.url)
  }

  /** A node whose folder and feeds are stored and whose children are nodes of its folder's children. */
  ghost predicate WellBuilt(t: FolderTable, feeds: FeedTable, n: Node)
    decreases n
  {
    && n.folder in t.rows
    && (forall e :: e in n.feeds ==> e in feeds.rows)
    && forall i :: 0 <= i < |n.children| ==>
         n.children[i].folder.parentId == Some(n.folder.id) && WellBuilt(t, feeds, n.children[i])
  }

  lemma {:induction false} BuildNodeWellBuilt(t: FolderTable, feeds: FeedTable, f: Folder, avail: set<int>)
    requires f in t.rows
    ensures WellBuilt(t, feeds, BuildNode(t, feeds.rows, f, avail))
    decreases avail
  {
    var n := BuildNode(t, feeds.rows, f, avail);
    if f.id in avail {
      var kids := ChildFolders(t, f.id);
      forall i | 0 <= i < |n.children|
        ensures n.children[i].folder.parentId == Some(f.id) && WellBuilt(t, feeds, n.children[i])
      {
        assert kids[i] in kids;
        assert n.children[i] == BuildNode(t, feeds.rows, kids[i], avail - {f.id});
        BuildNodeWellBuilt(t, feeds, kids[i], avail - {f.id});
      }
    }
  }

  /** With sibling names unique, looking a stored folder up by its own name and parent finds it. */
  lemma FindsItself(t: FolderTable, f: Folder)
    requires SiblingNamesUnique(t.rows) && f in t.rows
    ensures FindFolderByName(t, f.name, f.parentId) == Some(f)
  {
    var i :| 0 <= i < |t.rows| && t.rows[i] == f;
    assert HasSibling(t, f.name, f.parentId);
    var g := FindFolderByName(t, f.name, f.parentId).value;
    var j :| 0 <= j < |t.rows| && t.rows[j] == g;
    assert !(i < j) && !(j < i);
  }

  lemma {:induction false} CoveredInAll(os: seq<Outline>, parentId: Option<int>, db: Db)
    requires forall i :: 0 <= i < |os| ==> Covered(os[i], parentId, db)
    ensures CoveredIn(os, parentId, db)
  {
    if |os| > 0 {
      CoveredInAll(os[1..], parentId, db);
    }
  }

  lemma FeedOutlineCovered(e: Feed, parentId: Option<int>, t: FolderTable, feeds: FeedTable)
    requires Reimportable(t, feeds) && e in feeds.rows
    ensures Covered(FeedOutline(e), parentId, Db(t, feeds))
  {
    FeedOutlineIsFeed(e);
    var i :| 0 <= i < |feeds.rows| && feeds.rows[i] == e;
    assert HasFeedUrl(feeds, e.url);
  }

  /** The feed outlines of stored feeds are all found again. */
  lemma FeedOutlinesCovered(es: seq<Feed>, parentId: Option<int>, t: FolderTable, feeds: FeedTable)
    requires Reimportable(t, feeds)
    requires forall e :: e in es ==> e in feeds.rows
    ensures forall i :: 0 <= i < |es| ==> Covered(FeedOutlines(es)[i], parentId, Db(t, feeds))
  {
    forall i | 0 <= i < |es|
      ensures Covered(FeedOutlines(es)[i], parentId, Db(t, feeds))
    {
      FeedOutlineCovered(es[i], parentId, t, feeds);
    }
  }

  /** Sorting nodes keeps every one of them covered. */
  lemma SortedNodesCovered(ns: seq<Node>, parentId: Option<int>, db: Db)
    requires forall i :: 0 <= i < |ns| ==> Covered(FolderOutline(ns[i]), parentId, db)
    ensures forall i :: 0 <= i < |SortBy(NodeKey, ns)| ==> Covered(FolderOutlines(SortBy(NodeKey, ns))[i], parentId, db)
  {
    var kids := SortBy(NodeKey, ns);
    forall i | 0 <= i < |kids|
      ensures Covered(FolderOutline(kids[i]), parentId, db)
    {
      assert kids[i] in multiset(ns);
    }
  }

  /** A folder outline is covered when its folder is stored under the import's parent and its nested outlines are covered. */
  lemma FolderOutlineCoveredStep(n: Node, t: FolderTable, feeds: FeedTable)
    requires Reimportable(t, feeds) && n.folder in t.rows
    requires CoveredIn(FolderOutline(n).children, Some(n.folder.id), Db(t, feeds))
    ensures Covered(FolderOutline(n), n.folder.parentId, Db(t, feeds))
  {
    FolderOutlineIsFolder(n);
    FindsItself(t, n.folder);
    assert PickOutlineTitle(FolderOutline(n)) == n.folder.name;
  }

  lemma ConcatCovered(a: seq<Outline>, b: seq<Outline>, parentId: Option<int>, db: Db)
    requires forall i :: 0 <= i < |a| ==> Covered(a[i], parentId, db)
    requires forall i :: 0 <= i < |b| ==> Covered(b[i], parentId, db)
    ensures CoveredIn(a + b, parentId, db)
  {
    var c := a + b;
    forall i | 0 <= i < |c|
      ensures Covered(c[i], parentId, db)
    {
      if i >= |a| {
        assert c[i] == b[i - |a|];
      }
    }
    CoveredInAll(c, parentId, db);
  }

  /** Every outline of an exported folder is found again under the folder's own parent. */
  lemma {:induction false} FolderOutlineCovered(n: Node, t: FolderTable, feeds: FeedTable)
    requires Reimportable(t, feeds) && WellBuilt(t, feeds, n)
    ensures Covered(FolderOutline(n), n.folder.parentId, Db(t, feeds))
    decreases n
  {
    var db := Db(t, feeds);
    forall i | 0 <= i < |n.children|
      ensures Covered(FolderOutline(n.children[i]), Some(n.folder.id), db)
    {
      FolderOutlineCovered(n.children[i], t, feeds);
    }
    SortedNodesCovered(n.children, Some(n.folder.id), db);
    var fs := SortBy(FeedKey, n.feeds);
    assert forall e :: e in fs ==> e in multiset(n.feeds);
    FeedOutlinesCovered(fs, Some(n.folder.id), t, feeds);
    ConcatCovered(FolderOutlines(SortBy(NodeKey, n.children)), FeedOutlines(fs), Some(n.folder.id), db);
    FolderOutlineChildren(n);
    FolderOutlineCoveredStep(n, t, feeds);
  }

  /** Import finds every outline of an export of reimportable tables already stored. */
  lemma ExportCovered(t: FolderTable, feeds: FeedTable)
    requires Reimportable(t, feeds)
    ensures CoveredIn(Export(t, feeds), None, Db(t, feeds))
  {
    var db := Db(t, feeds);
    var forest := Forest(t, feeds.rows);
    forall i | 0 <= i < |forest|
      ensures Covered(FolderOutline(forest[i]), None, db)
    {
      var f := RootFolders(t)[i];
      assert f in RootFolders(t);
      BuildNodeWellBuilt(t, feeds, f, FolderIds(t));
      FolderOutlineCovered(forest[i], t, feeds);
    }
    SortedNodesCovered(forest, None, db);
    var top := SortBy(FeedKey, RootFeeds(t, feeds.rows));
    assert forall e :: e in top ==> e in multiset(RootFeeds(t, feeds.rows));
    FeedOutlinesCovered(top, None, t, feeds);
    ConcatCovered(FolderOutlines(SortBy(NodeKey, forest)), FeedOutlines(top), None, db);
  }

  /**
   * Importing an export back into the valid, acyclic, reimportable tables it
   * was written from changes nothing and reports every stored folder and
   * every stored feed as skipped.
   */
  lemma ExportThenImportSkipsAll(t: FolderTable, feeds: FeedTable, fails: Request -> bool)
    requires FolderTableValid(t) && Acyclic(t) && FeedTableValid(feeds) && Reimportable(t, feeds)
    requires NoFaults(fails)
    ensures Import(Some(Export(t, feeds)), Db(t, feeds), fails)
      == ImportOutcome(Counts(0, |t.rows|, 0, |feeds.rows|), None, Db(t, feeds))
  {
    ExportCovered(t, feeds);
    ReimportSkipsAll(Export(t, feeds), Db(t, feeds), fails);
    ExportCounts(t, feeds);
  }

  /**
   * A well-formed feed survives export and import: importing the outline
   * Export writes for it, into a table without its URL, appends the same
   * feed again under the next key, with the same title, URL and site URL.
   */
  lemma FeedRoundTrip(e: Feed, folderId: Option<int>, t: FeedTable, c: Counts, fails: Request -> bool)
    requires WellFormedFeed(e) && NoFaults(fails) && !HasFeedUrl(t, e.url)
    ensures ImportFeed(FeedOutline(e), folderId, t, c, fails)
      == Success((FeedTable(t.rows + [e.(id := t.nextId, folderId := folderId)], t.nextId + 1),
                  c.(feedsCreated := c.feedsCreated + 1)))
  {
    var o := FeedOutline(e);
    FeedOutlineIsFeed(e);
    assert TrimSpace(o.xmlUrl) == e.url;
    assert FeedTitle(o, e.url) == e.title;
    assert OptionalString(o.htmlUrl) == e.siteUrl;
    assert !fails(FindFeed(e.url));
  }

  /**
   * Folders whose parent keys form a cycle, which Update lets through
   * (Folders.UpdateAllowsCycle), hang under each other and never under the
   * top level, so the export leaves them out altogether.
   */
  lemma ExportDropsCycle()
    ensures
      var t := FolderTable([Folder(1, "a", Some(2)), Folder(2, "b", Some(1))], 3);
      && |t.rows| == 2
      && Export(t, FeedTable([], 1)) == []
  {
    var t := FolderTable([Folder(1, "a", Some(2)), Folder(2, "b", Some(1))], 3);
    assert HasFolder(t, 2) by { assert t.rows[1].id == 2; }
    assert HasFolder(t, 1) by { assert t.rows[0].id == 1; }
    assert ParentOf(t, t.rows[0]).Some? && ParentOf(t, t.rows[1]).Some?;
    assert forall f :: f in t.rows ==> ParentOf(t, f).Some?;
  }
}
