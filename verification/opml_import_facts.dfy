/**
 * What a whole import guarantees beyond one call: the tables stay valid, and
 * importing a document that is already stored creates nothing (every outline
 * of it is counted as skipped).
 */
module OpmlImportFacts {
  import opened Wrappers
  import opened Errors
  import opened Text
  import opened Store
  import opened Outlines
  import opened OpmlImport

  // --------------------------------------------------------- stored values

  /**
   * Given the trimmed, non-blank URL importFeed passes in, the title a new
   * feed is stored with is never blank and has no surrounding white space.
   */
  lemma FeedTitleUsable(o: Outline, url: string)
    ensures url != "" && TrimSpace(url) == url ==>
      FeedTitle(o, url) != "" && TrimSpace(FeedTitle(o, url)) == FeedTitle(o, url)
  {
    TrimSpaceIdempotent(o.title);
    TrimSpaceIdempotent(o.text);
  }

  /**
   * A stored site URL is never empty and has no surrounding white space, and
   * trimming the attribute first makes no difference.
   */
  lemma OptionalStringNormalized(s: string)
    ensures OptionalString(s).Some? ==>
      OptionalString(s).value != "" && TrimSpace(OptionalString(s).value) == OptionalString(s).value
    ensures OptionalString(TrimSpace(s)) == OptionalString(s)
  {
    TrimSpaceIdempotent(s);
  }

  /** A feed row as import writes it: URL and title non-empty and trimmed, site URL absent or non-empty and trimmed. */
  predicate WellFormedFeed(e: Feed) {
    && e.url != "" && TrimSpace(e.url) == e.url
    && e.title != "" && TrimSpace(e.title) == e.title
    && (e.siteUrl.Some? ==> e.siteUrl.value != "" && TrimSpace(e.siteUrl.value) == e.siteUrl.value)
  }

  /** Every feed importFeed creates is well formed. */
  lemma ImportFeedWellFormed(o: Outline, folderId: Option<int>, t: FeedTable, c: Counts, fails: Request -> bool)
    ensures var r := ImportFeed(o, folderId, t, c, fails);
      r.Success? && |r.value.0.rows| > |t.rows| ==> WellFormedFeed(r.value.0.rows[|t.rows|])
  {
    var url := TrimSpace(o.xmlUrl);
    TrimSpaceIdempotent(o.xmlUrl);
    FeedTitleUsable(o, url);
    OptionalStringNormalized(o.htmlUrl);
  }

  // ------------------------------------------------------------- validity

  /** ensureFolder keeps keys distinct and sibling names unique. */
  lemma EnsureFolderKeepsValid(name: string, parentId: Option<int>, t: FolderTable, fails: Request -> bool)
    requires FolderTableValid(t)
    ensures EnsureFolder(name, parentId, t, fails).Success? ==> FolderTableValid(EnsureFolder(name, parentId, t, fails).value.2)
  {
    InsertFolderKeepsValid(t, FolderNameOrUntitled(name), parentId);
  }

  /** importFeed keeps keys distinct and URLs unique. */
  lemma ImportFeedKeepsValid(o: Outline, folderId: Option<int>, t: FeedTable, c: Counts, fails: Request -> bool)
    requires FeedTableValid(t)
    ensures ImportFeed(o, folderId, t, c, fails).Success? ==> FeedTableValid(ImportFeed(o, folderId, t, c, fails).value.0)
  {
  }

  lemma {:induction false} ImportOutlineKeepsValid(o: Outline, parentId: Option<int>, db: Db, c: Counts, fails: Request -> bool)
    requires DbValid(db)
    ensures ImportOutline(o, parentId, db, c, fails).Success? ==> DbValid(ImportOutline(o, parentId, db, c, fails).value.0)
    decreases o, 1
  {
    if IsFeedOutline(o) {
      ImportFeedKeepsValid(o, parentId, db.feeds, c, fails);
    } else {
      EnsureFolderKeepsValid(PickOutlineTitle(o), parentId, db.folders, fails);
      match EnterFolder(PickOutlineTitle(o), parentId, db, c, fails)
      case Failure(_) =>
      case Success((id, db', c')) => ImportOutlinesKeepsValid(o.children, Some(id), db', c', fails);
    }
  }

  lemma {:induction false} ImportOutlinesKeepsValid(os: seq<Outline>, parentId: Option<int>, db: Db, c: Counts, fails: Request -> bool)
    requires DbValid(db)
    ensures ImportOutlines(os, parentId, db, c, fails).Success? ==> DbValid(ImportOutlines(os, parentId, db, c, fails).value.0)
    decreases os, 0
  {
    if |os| > 0 {
      ImportOutlineKeepsValid(os[0], parentId, db, c, fails);
      match ImportOutline(os[0], parentId, db, c, fails)
      case Failure(_) =>
      case Success((db', c')) => ImportOutlinesKeepsValid(os[1..], parentId, db', c', fails);
    }
  }

  /** Import leaves valid tables valid, whether it commits or rolls back. */
  lemma ImportKeepsValid(doc: Option<seq<Outline>>, db: Db, fails: Request -> bool)
    requires DbValid(db)
    ensures DbValid(Import(doc, db, fails).db)
  {
    if doc.Some? && !fails(BeginTx) {
      ImportOutlinesKeepsValid(doc.value, None, db, NoCounts, fails);
    }
  }

  // ------------------------------------------------------------ re-import

  /** The database answers every request without error. */
  ghost predicate NoFaults(fails: Request -> bool) {
    forall q :: !fails(q)
  }

  /**
   * Everything `o` would import under `parentId` is stored already: a feed
   * outline's URL is blank or present, and a folder outline's folder is found
   * by name with its nested outlines covered under it.
   */
  predicate Covered(o: Outline, parentId: Option<int>, db: Db)
    decreases o
  {
    if IsFeedOutline(o) then IsBlank(o.xmlUrl) || HasFeedUrl(db.feeds, TrimSpace(o.xmlUrl))
    else match FindFolderByName(db.folders, FolderNameOrUntitled(PickOutlineTitle(o)), parentId)
      case None => false
      case Some(f) => CoveredIn(o.children, Some(f.id), db)
  }

  predicate CoveredIn(os: seq<Outline>, parentId: Option<int>, db: Db)
    decreases os
  {
    |os| == 0 || (Covered(os[0], parentId, db) && CoveredIn(os[1..], parentId, db))
  }

  /** The counters after `folders` folder outlines and `feeds` feed outlines were all skipped. */
  function SkipAll(c: Counts, folders: nat, feeds: nat): Counts {
    c.(foldersSkipped := c.foldersSkipped + folders, feedsSkipped := c.feedsSkipped + feeds)
  }

  /** The folder ensureFolder hands back is the one FindByName finds afterwards. */
  lemma EnsureFolderFinds(name: string, parentId: Option<int>, t: FolderTable, fails: Request -> bool)
    ensures EnsureFolder(name, parentId, t, fails).Success? ==>
      var (folder, _, t') := EnsureFolder(name, parentId, t, fails).value;
      FindFolderByName(t', FolderNameOrUntitled(name), parentId) == Some(folder)
  {
    var name' := FolderNameOrUntitled(name);
    var p := (f: Folder) => f.name == name' && f.parentId == parentId;
    var r := EnsureFolder(name, parentId, t, fails);
    if r.Success? && r.value.1 {
      FindIndexExtend(t.rows, [r.value.0], p);
      assert FindIndex([r.value.0], p) == Some(0);
    }
  }

  /** After a successful importFeed the outline's URL is blank or stored. */
  lemma ImportFeedCovers(o: Outline, folderId: Option<int>, t: FeedTable, c: Counts, fails: Request -> bool)
    ensures ImportFeed(o, folderId, t, c, fails).Success? ==>
      IsBlank(o.xmlUrl) || HasFeedUrl(ImportFeed(o, folderId, t, c, fails).value.0, TrimSpace(o.xmlUrl))
  {
    var r := ImportFeed(o, folderId, t, c, fails);
    if r.Success? && !IsBlank(o.xmlUrl) && r.value.0 != t {
      assert r.value.0.rows[|t.rows|].url == TrimSpace(o.xmlUrl);
    }
  }

  /** Appending rows keeps a covered outline covered. */
  lemma {:induction false} CoveredExtends(o: Outline, parentId: Option<int>, db: Db, db': Db)
    requires Covered(o, parentId, db) && Extends(db, db')
    ensures Covered(o, parentId, db')
    decreases o
  {
    if IsFeedOutline(o) {
      if !IsBlank(o.xmlUrl) {
        var url := TrimSpace(o.xmlUrl);
        var i :| 0 <= i < |db.feeds.rows| && db.feeds.rows[i].url == url;
        assert db'.feeds.rows[i] == db.feeds.rows[i];
      }
    } else {
      var name := FolderNameOrUntitled(PickOutlineTitle(o));
      FindFolderByNameExtend(db.folders, db'.folders, name, parentId);
      CoveredInExtends(o.children, Some(FindFolderByName(db.folders, name, parentId).value.id), db, db');
    }
  }

  lemma {:induction false} CoveredInExtends(os: seq<Outline>, parentId: Option<int>, db: Db, db': Db)
    requires CoveredIn(os, parentId, db) && Extends(db, db')
    ensures CoveredIn(os, parentId, db')
    decreases os
  {
    if |os| > 0 {
      CoveredExtends(os[0], parentId, db, db');
      CoveredInExtends(os[1..], parentId, db, db');
    }
  }

  /** A successful import leaves its outline covered. */
  lemma {:induction false} ImportOutlineCovers(o: Outline, parentId: Option<int>, db: Db, c: Counts, fails: Request -> bool)
    requires ImportOutline(o, parentId, db, c, fails).Success?
    ensures Covered(o, parentId, ImportOutline(o, parentId, db, c, fails).value.0)
    decreases o
  {
    if IsFeedOutline(o) {
      ImportFeedCovers(o, parentId, db.feeds, c, fails);
    } else {
      var name := PickOutlineTitle(o);
      EnsureFolderFinds(name, parentId, db.folders, fails);
      var Success((id, db1, c1)) := EnterFolder(name, parentId, db, c, fails);
      ImportOutlinesCovers(o.children, Some(id), db1, c1, fails);
      var db2 := ImportOutlines(o.children, Some(id), db1, c1, fails).value.0;
      FindFolderByNameExtend(db1.folders, db2.folders, FolderNameOrUntitled(name), parentId);
    }
  }

  lemma {:induction false} ImportOutlinesCovers(os: seq<Outline>, parentId: Option<int>, db: Db, c: Counts, fails: Request -> bool)
    requires ImportOutlines(os, parentId, db, c, fails).Success?
    ensures CoveredIn(os, parentId, ImportOutlines(os, parentId, db, c, fails).value.0)
    decreases os
  {
    if |os| > 0 {
      ImportOutlineCovers(os[0], parentId, db, c, fails);
      var Success((db1, c1)) := ImportOutline(os[0], parentId, db, c, fails);
      ImportOutlinesCovers(os[1..], parentId, db1, c1, fails);
      CoveredExtends(os[0], parentId, db1, ImportOutlines(os[1..], parentId, db1, c1, fails).value.0);
    }
  }

  /** Without database faults an import never fails. */
  lemma {:induction false} ImportOutlineSucceeds(o: Outline, parentId: Option<int>, db: Db, c: Counts, fails: Request -> bool)
    requires NoFaults(fails)
    ensures ImportOutline(o, parentId, db, c, fails).Success?
    decreases o
  {
    var name := FolderNameOrUntitled(PickOutlineTitle(o));
    assert !fails(FindFolder(name, parentId)) && !fails(CreateFolder(name, parentId));
    assert !fails(FindFeed(TrimSpace(o.xmlUrl))) && !fails(CreateFeed(TrimSpace(o.xmlUrl)));
    if !IsFeedOutline(o) {
      var Success((id, db1, c1)) := EnterFolder(PickOutlineTitle(o), parentId, db, c, fails);
      ImportOutlinesSucceed(o.children, Some(id), db1, c1, fails);
    }
  }

  lemma {:induction false} ImportOutlinesSucceed(os: seq<Outline>, parentId: Option<int>, db: Db, c: Counts, fails: Request -> bool)
    requires NoFaults(fails)
    ensures ImportOutlines(os, parentId, db, c, fails).Success?
    decreases os
  {
    if |os| > 0 {
      ImportOutlineSucceeds(os[0], parentId, db, c, fails);
      var Success((db1, c1)) := ImportOutline(os[0], parentId, db, c, fails);
      ImportOutlinesSucceed(os[1..], parentId, db1, c1, fails);
    }
  }

  /** A feed outline whose URL is blank or stored is only counted as skipped. */
  lemma ReimportFeedSkips(o: Outline, parentId: Option<int>, db: Db, c: Counts, fails: Request -> bool)
    requires IsFeedOutline(o) && Covered(o, parentId, db) && NoFaults(fails)
    ensures ImportOutline(o, parentId, db, c, fails) == Success((db, SkipAll(c, 0, 1)))
  {
    assert !fails(FindFeed(TrimSpace(o.xmlUrl)));
    assert ImportFeed(o, parentId, db.feeds, c, fails) == Success((db.feeds, SkipAll(c, 0, 1)));
  }

  /** A folder outline whose folder is stored finds it and is counted as skipped. */
  lemma ReenterFolderSkips(name: string, parentId: Option<int>, db: Db, c: Counts, fails: Request -> bool)
    requires FindFolderByName(db.folders, FolderNameOrUntitled(name), parentId).Some? && NoFaults(fails)
    ensures EnterFolder(name, parentId, db, c, fails) ==
      Success((FindFolderByName(db.folders, FolderNameOrUntitled(name), parentId).value.id, db, SkipAll(c, 1, 0)))
  {
    assert !fails(FindFolder(FolderNameOrUntitled(name), parentId));
  }

  /** Importing a covered outline without faults changes nothing and only counts skips. */
  lemma {:induction false} ReimportOutlineSkips(o: Outline, parentId: Option<int>, db: Db, c: Counts, fails: Request -> bool)
    requires Covered(o, parentId, db) && NoFaults(fails)
    ensures ImportOutline(o, parentId, db, c, fails) == Success((db, SkipAll(c, FolderOutlineCount(o), FeedOutlineCount(o))))
    decreases o
  {
    if IsFeedOutline(o) {
      assert FolderOutlineCount(o) == 0 && FeedOutlineCount(o) == 1;
      ReimportFeedSkips(o, parentId, db, c, fails);
    } else {
      var name := PickOutlineTitle(o);
      var folder := FindFolderByName(db.folders, FolderNameOrUntitled(name), parentId).value;
      var folders, feeds := FolderOutlineCountIn(o.children), FeedOutlineCountIn(o.children);
      assert ImportOutline(o, parentId, db, c, fails) == ImportOutlines(o.children, Some(folder.id), db, SkipAll(c, 1, 0), fails) by {
        ReenterFolderSkips(name, parentId, db, c, fails);
      }
      assert ImportOutlines(o.children, Some(folder.id), db, SkipAll(c, 1, 0), fails)
          == Success((db, SkipAll(SkipAll(c, 1, 0), folders, feeds))) by {
        ReimportOutlinesSkips(o.children, Some(folder.id), db, SkipAll(c, 1, 0), fails);
      }
      assert SkipAll(SkipAll(c, 1, 0), folders, feeds) == SkipAll(c, FolderOutlineCount(o), FeedOutlineCount(o)) by {
        SkipAllAdd(c, 1, 0, folders, feeds);
        assert FolderOutlineCount(o) == 1 + folders && FeedOutlineCount(o) == feeds;
      }
    }
  }

  lemma {:induction false} ReimportOutlinesSkips(os: seq<Outline>, parentId: Option<int>, db: Db, c: Counts, fails: Request -> bool)
    requires CoveredIn(os, parentId, db) && NoFaults(fails)
    ensures ImportOutlines(os, parentId, db, c, fails) == Success((db, SkipAll(c, FolderOutlineCountIn(os), FeedOutlineCountIn(os))))
    decreases os
  {
    if |os| > 0 {
      var c1 := SkipAll(c, FolderOutlineCount(os[0]), FeedOutlineCount(os[0]));
      ReimportOutlineSkips(os[0], parentId, db, c, fails);
      ReimportOutlinesSkips(os[1..], parentId, db, c1, fails);
      SkipsCompose(os, parentId, db, c, fails);
    } else {
      assert SkipAll(c, 0, 0) == c;
    }
  }

  /** A skipped first outline followed by skipped remaining outlines skips them all. */
  lemma SkipsCompose(os: seq<Outline>, parentId: Option<int>, db: Db, c: Counts, fails: Request -> bool)
    requires |os| > 0
    requires ImportOutline(os[0], parentId, db, c, fails)
      == Success((db, SkipAll(c, FolderOutlineCount(os[0]), FeedOutlineCount(os[0]))))
    requires var c1 := SkipAll(c, FolderOutlineCount(os[0]), FeedOutlineCount(os[0]));
      ImportOutlines(os[1..], parentId, db, c1, fails)
        == Success((db, SkipAll(c1, FolderOutlineCountIn(os[1..]), FeedOutlineCountIn(os[1..]))))
    ensures ImportOutlines(os, parentId, db, c, fails) == Success((db, SkipAll(c, FolderOutlineCountIn(os), FeedOutlineCountIn(os))))
  {
    var a, b := FolderOutlineCount(os[0]), FeedOutlineCount(os[0]);
    var folders, feeds := FolderOutlineCountIn(os[1..]), FeedOutlineCountIn(os[1..]);
    var c1 := SkipAll(c, a, b);
    assert ImportOutlines(os, parentId, db, c, fails) == ImportOutlines(os[1..], parentId, db, c1, fails) by {
      ImportOutlinesCons(os, parentId, db, c, fails, db, c1);
    }
    assert SkipAll(c1, folders, feeds) == SkipAll(c, FolderOutlineCountIn(os), FeedOutlineCountIn(os)) by {
      SkipAllAdd(c, a, b, folders, feeds);
      assert FolderOutlineCountIn(os) == a + folders;
      assert FeedOutlineCountIn(os) == b + feeds;
    }
  }

  /** Importing a list whose first outline imports is importing the rest from there. */
  lemma ImportOutlinesCons(os: seq<Outline>, parentId: Option<int>, db: Db, c: Counts, fails: Request -> bool, db': Db, c': Counts)
    requires |os| > 0
    requires ImportOutline(os[0], parentId, db, c, fails) == Success((db', c'))
    ensures ImportOutlines(os, parentId, db, c, fails) == ImportOutlines(os[1..], parentId, db', c', fails)
  {
  }

  /** Skipping in two rounds is skipping the sum. */
  lemma SkipAllAdd(c: Counts, folders: nat, feeds: nat, folders': nat, feeds': nat)
    ensures SkipAll(SkipAll(c, folders, feeds), folders', feeds') == SkipAll(c, folders + folders', feeds + feeds')
  {
  }

  /** When the transaction opens and commits, Import returns what the walk over the outlines produced. */
  lemma ImportCommits(doc: seq<Outline>, db: Db, fails: Request -> bool)
    requires !fails(BeginTx) && !fails(Commit) && ImportOutlines(doc, None, db, NoCounts, fails).Success?
    ensures var (db', c) := ImportOutlines(doc, None, db, NoCounts, fails).value;
      Import(Some(doc), db, fails) == ImportOutcome(c, None, db')
  {
  }

  /** Importing a covered document without faults commits, stores nothing and counts only skips. */
  lemma ReimportSkipsAll(doc: seq<Outline>, db: Db, fails: Request -> bool)
    requires CoveredIn(doc, None, db) && NoFaults(fails)
    ensures Import(Some(doc), db, fails) ==
      ImportOutcome(Counts(0, FolderOutlineCountIn(doc), 0, FeedOutlineCountIn(doc)), None, db)
  {
    assert !fails(BeginTx) && !fails(Commit);
    assert ImportOutlines(doc, None, db, NoCounts, fails)
        == Success((db, Counts(0, FolderOutlineCountIn(doc), 0, FeedOutlineCountIn(doc)))) by {
      ReimportOutlinesSkips(doc, None, db, NoCounts, fails);
      SkipAllFromNoCounts(FolderOutlineCountIn(doc), FeedOutlineCountIn(doc));
    }
    ImportCommits(doc, db, fails);
  }

  lemma SkipAllFromNoCounts(folders: nat, feeds: nat)
    ensures SkipAll(NoCounts, folders, feeds) == Counts(0, folders, 0, feeds)
  {
  }

  /**
   * Importing the same document twice: without database faults the first
   * import commits, and the second stores nothing new and counts every
   * outline as skipped.
   */
  lemma ImportTwiceSkipsAll(doc: seq<Outline>, db: Db, fails: Request -> bool)
    requires NoFaults(fails)
    ensures Import(Some(doc), db, fails).err.None?
    ensures var db' := Import(Some(doc), db, fails).db;
      Import(Some(doc), db', fails) ==
        ImportOutcome(Counts(0, FolderOutlineCountIn(doc), 0, FeedOutlineCountIn(doc)), None, db')
  {
    assert !fails(BeginTx) && !fails(Commit);
    ImportOutlinesSucceed(doc, None, db, NoCounts, fails);
    ImportOutlinesCovers(doc, None, db, NoCounts, fails);
    ReimportSkipsAll(doc, ImportOutlines(doc, None, db, NoCounts, fails).value.0, fails);
  }
}
