/**
 * OPML import (opmlService.Import and its helpers): walks the outline tree,
 * creating folders and feeds that are not stored yet, inside one transaction.
 * The database is the pair of tables; `fails` says which repository requests
 * the database answers with an error, standing for faults the code cannot
 * foresee.
 */
module OpmlImport {
  import opened Wrappers
  import opened Errors
  import opened Text
  import opened Store
  import opened Outlines

  /** ImportResult: the four counters import keeps. */
  datatype Counts = Counts(foldersCreated: nat, foldersSkipped: nat, feedsCreated: nat, feedsSkipped: nat)

  const NoCounts := Counts(0, 0, 0, 0)

  function FolderTally(c: Counts): nat {
    c.foldersCreated + c.foldersSkipped
  }

  function FeedTally(c: Counts): nat {
    c.feedsCreated + c.feedsSkipped
  }

  /** The two tables a transaction reads and writes. */
  datatype Db = Db(folders: FolderTable, feeds: FeedTable)

  predicate DbValid(db: Db) {
    FolderTableValid(db.folders) && FeedTableValid(db.feeds)
  }

  /** The repository requests import issues, each of which the database may answer with an error. */
  datatype Request =
    | BeginTx
    | FindFolder(name: string, parentId: Option<int>)
    | CreateFolder(name: string, parentId: Option<int>)
    | FindFeed(url: string)
    | CreateFeed(url: string)
    | Commit

  /** `db'` only appends rows to `db`: nothing already stored is changed or removed. */
  predicate Extends(db: Db, db': Db) {
    && db.folders.rows <= db'.folders.rows
    && db.feeds.rows <= db'.feeds.rows
    && db.folders.nextId <= db'.folders.nextId
    && db.feeds.nextId <= db'.feeds.nextId
  }

  /**
   * Going from (db, c) to (db', c') visited `folders` folder outlines and
   * `feeds` feed outlines: each bumped exactly one of its two counters, no
   * counter went down, and each "created" counted one appended row.
   */
  predicate Accounted(db: Db, c: Counts, db': Db, c': Counts, folders: nat, feeds: nat) {
    && c.foldersCreated <= c'.foldersCreated && c.foldersSkipped <= c'.foldersSkipped
    && c.feedsCreated <= c'.feedsCreated && c.feedsSkipped <= c'.feedsSkipped
    && FolderTally(c') == FolderTally(c) + folders
    && FeedTally(c') == FeedTally(c) + feeds
    && |db'.folders.rows| == |db.folders.rows| + (c'.foldersCreated - c.foldersCreated)
    && |db'.feeds.rows| == |db.feeds.rows| + (c'.feedsCreated - c.feedsCreated)
  }

  /** The name ensureFolder looks up and stores: a blank name becomes "Untitled". */
  function FolderNameOrUntitled(name: string): (r: string)
    ensures !IsBlank(r)
    ensures !IsBlank(name) ==> r == name
  {
    TrimSpaceOfTrimmed("Untitled");
    if IsBlank(name) then "Untitled" else name
  }

  /**
   * ensureFolder: the folder with this name under this parent, reused when it
   * exists (created = false, table unchanged) and otherwise created
   * (created = true, exactly one row appended).
   */
  function EnsureFolder(name: string, parentId: Option<int>, t: FolderTable, fails: Request -> bool)
    : (r: Result<(Folder, bool, FolderTable), ServiceError>)
    ensures r.Success? ==> r.value.0.name == FolderNameOrUntitled(name) && r.value.0.parentId == parentId
    ensures r.Success? && !r.value.1 ==> r.value.2 == t && r.value.0 in t.rows
    ensures r.Success? && r.value.1 ==>
      && !HasSibling(t, r.value.0.name, parentId)
      && r.value.0.id == t.nextId
      && r.value.2 == FolderTable(t.rows + [r.value.0], t.nextId + 1)
    ensures r.Success? ==>
      && t.rows <= r.value.2.rows && t.nextId <= r.value.2.nextId
      && |r.value.2.rows| == |t.rows| + (if r.value.1 then 1 else 0)
  {
    var name' := FolderNameOrUntitled(name);
    if fails(FindFolder(name', parentId)) then Failure(Wrapped("find folder"))
    else match FindFolderByName(t, name', parentId)
      case Some(existing) => Success((existing, false, t))
      case None =>
        if fails(CreateFolder(name', parentId)) then Failure(Wrapped("create folder"))
        else
          var (folder, t') := InsertFolder(t, name', parentId);
          Success((folder, true, t'))
  }

  /** The title a new feed gets: trimmed title, else trimmed text, else the URL. */
  function FeedTitle(o: Outline, url: string): (r: string)
    ensures !IsBlank(o.title) ==> r == TrimSpace(o.title)
    ensures IsBlank(o.title) && !IsBlank(o.text) ==> r == TrimSpace(o.text)
    ensures IsBlank(o.title) && IsBlank(o.text) ==> r == url
  {
    var title := TrimSpace(o.title);
    if title != "" then title
    else
      var text := TrimSpace(o.text);
      if text != "" then text else url
  }

  /** The optional site URL stored with a feed: absent when blank, trimmed otherwise. */
  function OptionalString(s: string): (r: Option<string>)
    ensures r.None? <==> IsBlank(s)
    ensures r.Some? ==> r.value == TrimSpace(s)
  {
    var trimmed := TrimSpace(s);
    if trimmed == "" then None else Some(trimmed)
  }

  /**
   * importFeed: a blank URL or one already stored only bumps feedsSkipped;
   * otherwise the feed is created and feedsCreated bumped (a create that
   * returns no row counts as skipped).
   */
  function ImportFeed(o: Outline, folderId: Option<int>, t: FeedTable, c: Counts, fails: Request -> bool)
    : (r: Result<(FeedTable, Counts), ServiceError>)
    ensures IsBlank(o.xmlUrl) ==> r == Success((t, c.(feedsSkipped := c.feedsSkipped + 1)))
    ensures r.Success? ==>
      || r.value == (t, c.(feedsSkipped := c.feedsSkipped + 1))
      || (&& r.value.1 == c.(feedsCreated := c.feedsCreated + 1)
          && !HasFeedUrl(t, TrimSpace(o.xmlUrl))
          && r.value.0 == FeedTable(t.rows + [Feed(t.nextId, folderId, FeedTitle(o, TrimSpace(o.xmlUrl)),
                                                   TrimSpace(o.xmlUrl), OptionalString(o.htmlUrl))], t.nextId + 1))
    ensures r.Success? && HasFeedUrl(t, TrimSpace(o.xmlUrl)) ==> r.value == (t, c.(feedsSkipped := c.feedsSkipped + 1))
  {
    var url := TrimSpace(o.xmlUrl);
    var skipped := c.(feedsSkipped := c.feedsSkipped + 1);
    if url == "" then Success((t, skipped))
    else if fails(FindFeed(url)) then Failure(Wrapped("check feed url"))
    else if FindFeedByUrl(t, url).Some? then Success((t, skipped))
    else if fails(CreateFeed(url)) then Failure(Wrapped("create feed"))
    else match InsertFeed(t, folderId, FeedTitle(o, url), url, OptionalString(o.htmlUrl))
      case None => Success((t, skipped))
      case Some((_, t')) => Success((t', c.(feedsCreated := c.feedsCreated + 1)))
  }

  /** The feed branch of importOutline, on the whole database. */
  function ImportFeedOutline(o: Outline, parentId: Option<int>, db: Db, c: Counts, fails: Request -> bool)
    : (r: Result<(Db, Counts), ServiceError>)
    ensures r.Success? ==> Extends(db, r.value.0)
    ensures r.Success? ==> Accounted(db, c, r.value.0, r.value.1, 0, 1)
  {
    match ImportFeed(o, parentId, db.feeds, c, fails)
    case Failure(e) => Failure(e)
    case Success((feeds', c')) => Success((db.(feeds := feeds'), c'))
  }

  /** The folder step of importOutline: find or create the folder and count it. */
  function EnterFolder(name: string, parentId: Option<int>, db: Db, c: Counts, fails: Request -> bool)
    : (r: Result<(int, Db, Counts), ServiceError>)
    ensures r.Success? ==> Extends(db, r.value.1)
    ensures r.Success? ==> Accounted(db, c, r.value.1, r.value.2, 1, 0)
  {
    var ensured := EnsureFolder(name, parentId, db.folders, fails);
    if ensured.Failure? then Failure(ensured.error)
    else Success((ensured.value.0.id, Db(ensured.value.2, db.feeds), CountFolder(c, ensured.value.1)))
  }

  /** Bump the "created" or the "skipped" folder counter. */
  function CountFolder(c: Counts, created: bool): (c': Counts)
    ensures c'.feedsCreated == c.feedsCreated && c'.feedsSkipped == c.feedsSkipped
    ensures c'.foldersCreated == c.foldersCreated + (if created then 1 else 0)
    ensures c'.foldersSkipped == c.foldersSkipped + (if created then 0 else 1)
  {
    if created then c.(foldersCreated := c.foldersCreated + 1)
    else c.(foldersSkipped := c.foldersSkipped + 1)
  }

  /**
   * importOutline: a feed outline is imported as a feed (its nested outlines
   * are ignored); any other outline becomes a folder, found or created, and its
   * nested outlines are imported under it.
   */
  function ImportOutline(o: Outline, parentId: Option<int>, db: Db, c: Counts, fails: Request -> bool)
    : (r: Result<(Db, Counts), ServiceError>)
    ensures r.Success? ==> Extends(db, r.value.0)
    ensures r.Success? ==> Accounted(db, c, r.value.0, r.value.1, FolderOutlineCount(o), FeedOutlineCount(o))
    decreases o
  {
    if IsFeedOutline(o) then ImportFeedOutline(o, parentId, db, c, fails)
    else match EnterFolder(PickOutlineTitle(o), parentId, db, c, fails)
      case Failure(e) => Failure(e)
      case Success((id, db', c')) => ImportOutlines(o.children, Some(id), db', c', fails)
  }

  /** The loop over sibling outlines: the first error stops the walk. */
  function ImportOutlines(os: seq<Outline>, parentId: Option<int>, db: Db, c: Counts, fails: Request -> bool)
    : (r: Result<(Db, Counts), ServiceError>)
    ensures r.Success? ==> Extends(db, r.value.0)
    ensures r.Success? ==> Accounted(db, c, r.value.0, r.value.1, FolderOutlineCountIn(os), FeedOutlineCountIn(os))
    decreases os
  {
    if |os| == 0 then Success((db, c))
    else match ImportOutline(os[0], parentId, db, c, fails)
      case Failure(e) => Failure(e)
      case Success((db', c')) => ImportOutlines(os[1..], parentId, db', c', fails)
  }

  /** What Import hands back: Go's (ImportResult, error) pair and the tables after the call. */
  datatype ImportOutcome = ImportOutcome(result: Counts, err: Option<ServiceError>, db: Db)

  /**
   * opmlService.Import. `doc` is the parsed body outlines, None when the
   * payload does not parse. All or nothing: any error rolls the transaction
   * back and returns zero counters.
   */
  function Import(doc: Option<seq<Outline>>, db: Db, fails: Request -> bool): (r: ImportOutcome)
    ensures r.err.Some? ==> r.result == NoCounts && r.db == db
    ensures doc.None? ==> r.err == Some(Invalid)
    ensures r.err.None? ==>
      && doc.Some?
      && Extends(db, r.db)
      && Accounted(db, NoCounts, r.db, r.result, FolderOutlineCountIn(doc.value), FeedOutlineCountIn(doc.value))
  {
    if doc.None? then ImportOutcome(NoCounts, Some(Invalid), db)
    else if fails(BeginTx) then ImportOutcome(NoCounts, Some(Wrapped("begin transaction")), db)
    else match ImportOutlines(doc.value, None, db, NoCounts, fails)
      case Failure(e) => ImportOutcome(NoCounts, Some(e), db)
      case Success((db', c)) =>
        if fails(Commit) then ImportOutcome(NoCounts, Some(Wrapped("commit transaction")), db)
        else ImportOutcome(c, None, db')
  }

  /** The nested outlines of a feed outline make no difference to its import. */
  lemma FeedChildrenIgnored(o: Outline, parentId: Option<int>, db: Db, c: Counts, fails: Request -> bool)
    requires IsFeedOutline(o)
    ensures ImportOutline(o, parentId, db, c, fails) == ImportOutline(o.(children := []), parentId, db, c, fails)
  {
    var o' := o.(children := []);
    assert IsFeedOutline(o');
    assert ImportFeed(o, parentId, db.feeds, c, fails) == ImportFeed(o', parentId, db.feeds, c, fails);
  }
}
