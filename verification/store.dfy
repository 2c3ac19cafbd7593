/**
 * In-memory stand-ins for the folder and feed repositories the services call.
 * A table is its rows in insertion order plus the next identifier the
 * database would assign; lookups return the first matching row.
 */
module Store {
  import opened Wrappers

  datatype Folder = Folder(id: int, name: string, parentId: Option<int>)

  datatype Feed = Feed(id: int, folderId: Option<int>, title: string, url: string, siteUrl: Option<string>)

  datatype FolderTable = FolderTable(rows: seq<Folder>, nextId: int)

  datatype FeedTable = FeedTable(rows: seq<Feed>, nextId: int)

  /** The index of the first row satisfying `p`, if any. */
  function FindIndex<T>(rows: seq<T>, p: T -> bool): (r: Option<nat>)
    ensures r.Some? ==> r.value < |rows| && p(rows[r.value])
    ensures r.Some? ==> forall i :: 0 <= i < r.value ==> !p(rows[i])
    ensures r.None? ==> forall i :: 0 <= i < |rows| ==> !p(rows[i])
  {
    if |rows| == 0 then None
    else if p(rows[0]) then Some(0)
    else match FindIndex(rows[1..], p)
      case None => None
      case Some(i) => Some(i + 1)
  }

  /** Appending rows never moves the first match, and finds the first appended match when there was none. */
  lemma FindIndexExtend<T>(rows: seq<T>, more: seq<T>, p: T -> bool)
    ensures FindIndex(rows, p).Some? ==> FindIndex(rows + more, p) == FindIndex(rows, p)
    ensures FindIndex(rows, p).None? && FindIndex(more, p).Some? ==>
      FindIndex(rows + more, p) == Some(|rows| + FindIndex(more, p).value)
  {
    assert forall k :: 0 <= k < |rows| ==> (rows + more)[k] == rows[k];
    assert forall k :: 0 <= k < |more| ==> (rows + more)[|rows| + k] == more[k];
  }

  // ---------------------------------------------------------------- folders

  /** Primary keys are distinct and below the next key to be assigned. */
  predicate FolderKeysValid(t: FolderTable) {
    && (forall i :: 0 <= i < |t.rows| ==> t.rows[i].id < t.nextId)
    && (forall i, j :: 0 <= i < j < |t.rows| ==> t.rows[i].id != t.rows[j].id)
  }

  /** No two folders under the same parent share a name. */
  predicate SiblingNamesUnique(rows: seq<Folder>) {
    forall i, j :: 0 <= i < j < |rows| ==> !(rows[i].name == rows[j].name && rows[i].parentId == rows[j].parentId)
  }

  predicate FolderTableValid(t: FolderTable) {
    FolderKeysValid(t) && SiblingNamesUnique(t.rows)
  }

  predicate HasFolder(t: FolderTable, id: int) {
    exists i :: 0 <= i < |t.rows| && t.rows[i].id == id
  }

  predicate HasSibling(t: FolderTable, name: string, parentId: Option<int>) {
    exists i :: 0 <= i < |t.rows| && t.rows[i].name == name && t.rows[i].parentId == parentId
  }

  /** FolderRepository.GetByID: the row with key `id`, or None for sql.ErrNoRows. */
  function FolderById(t: FolderTable, id: int): (r: Option<Folder>)
    ensures r.Some? <==> HasFolder(t, id)
    ensures r.Some? ==> r.value.id == id && r.value in t.rows
  {
    match FindIndex(t.rows, (f: Folder) => f.id == id)
    case None => None
    case Some(i) => Some(t.rows[i])
  }

  /** FolderRepository.FindByName: a folder with this exact name under this parent, or None. */
  function FindFolderByName(t: FolderTable, name: string, parentId: Option<int>): (r: Option<Folder>)
    ensures r.Some? <==> HasSibling(t, name, parentId)
    ensures r.Some? ==> r.value.name == name && r.value.parentId == parentId && r.value in t.rows
  {
    match FindIndex(t.rows, (f: Folder) => f.name == name && f.parentId == parentId)
    case None => None
    case Some(i) => Some(t.rows[i])
  }

  /** Once FindByName finds a folder, appending rows does not change what it finds. */
  lemma FindFolderByNameExtend(t: FolderTable, t': FolderTable, name: string, parentId: Option<int>)
    requires t.rows <= t'.rows
    ensures FindFolderByName(t, name, parentId).Some? ==>
      FindFolderByName(t', name, parentId) == FindFolderByName(t, name, parentId)
  {
    FindIndexExtend(t.rows, t'.rows[|t.rows|..], (f: Folder) => f.name == name && f.parentId == parentId);
    assert t'.rows == t.rows + t'.rows[|t.rows|..];
  }

  /** FolderRepository.Create: appends a folder under a freshly assigned key. */
  function InsertFolder(t: FolderTable, name: string, parentId: Option<int>): (r: (Folder, FolderTable))
    ensures r.0 == Folder(t.nextId, name, parentId)
    ensures r.1 == FolderTable(t.rows + [r.0], t.nextId + 1)
  {
    var f := Folder(t.nextId, name, parentId);
    (f, FolderTable(t.rows + [f], t.nextId + 1))
  }

  /** The freshly assigned key is unused, and appending a name not yet taken under its parent keeps the table valid. */
  lemma InsertFolderKeepsValid(t: FolderTable, name: string, parentId: Option<int>)
    requires FolderKeysValid(t)
    ensures !HasFolder(t, t.nextId)
    ensures FolderKeysValid(InsertFolder(t, name, parentId).1)
    ensures !HasSibling(t, name, parentId) && SiblingNamesUnique(t.rows) ==>
      SiblingNamesUnique(InsertFolder(t, name, parentId).1.rows)
  {
  }

  /** FolderRepository.Update: gives the folder with key `id` a new name and parent. */
  function ReplaceFolder(t: FolderTable, id: int, name: string, parentId: Option<int>): (r: FolderTable)
    ensures |r.rows| == |t.rows| && r.nextId == t.nextId
    ensures forall i :: 0 <= i < |t.rows| && t.rows[i].id != id ==> r.rows[i] == t.rows[i]
    ensures forall i :: 0 <= i < |t.rows| && t.rows[i].id == id ==> r.rows[i] == Folder(id, name, parentId)
  {
    FolderTable(seq(|t.rows|, i requires 0 <= i < |t.rows| =>
      if t.rows[i].id == id then Folder(id, name, parentId) else t.rows[i]), t.nextId)
  }

  /** FolderRepository.Delete: removes the folder with key `id`, keeping the others in order. */
  function RemoveFolder(t: FolderTable, id: int): (r: FolderTable)
    ensures r.nextId == t.nextId
    ensures forall f :: f in r.rows <==> f in t.rows && f.id != id
    ensures |r.rows| <= |t.rows|
    decreases |t.rows|
  {
    if |t.rows| == 0 then t
    else
      var rest := RemoveFolder(FolderTable(t.rows[1..], t.nextId), id);
      assert forall f :: f in t.rows <==> f == t.rows[0] || f in t.rows[1..];
      if t.rows[0].id == id then rest else FolderTable([t.rows[0]] + rest.rows, t.nextId)
  }

  // ------------------------------------------------------------------ feeds

  /** Primary keys are distinct and below the next key; no URL is stored twice. */
  predicate FeedTableValid(t: FeedTable) {
    && (forall i :: 0 <= i < |t.rows| ==> t.rows[i].id < t.nextId)
    && (forall i, j :: 0 <= i < j < |t.rows| ==> t.rows[i].id != t.rows[j].id)
    && (forall i, j :: 0 <= i < j < |t.rows| ==> t.rows[i].url != t.rows[j].url)
  }

  predicate HasFeedUrl(t: FeedTable, url: string) {
    exists i :: 0 <= i < |t.rows| && t.rows[i].url == url
  }

  /** FeedRepository.FindByURL: the feed stored under this URL, or None. */
  function FindFeedByUrl(t: FeedTable, url: string): (r: Option<Feed>)
    ensures r.Some? <==> HasFeedUrl(t, url)
    ensures r.Some? ==> r.value.url == url && r.value in t.rows
  {
    match FindIndex(t.rows, (f: Feed) => f.url == url)
    case None => None
    case Some(i) => Some(t.rows[i])
  }

  /**
   * FeedRepository.Create: appends the feed under a fresh key, or returns None
   * (sql.ErrNoRows, no row inserted) when the URL is already stored.
   */
  function InsertFeed(t: FeedTable, folderId: Option<int>, title: string, url: string, siteUrl: Option<string>): (r: Option<(Feed, FeedTable)>)
    ensures r.None? <==> HasFeedUrl(t, url)
    ensures r.Some? ==> r.value.0 == Feed(t.nextId, folderId, title, url, siteUrl)
    ensures r.Some? ==> r.value.1 == FeedTable(t.rows + [r.value.0], t.nextId + 1)
    ensures r.Some? && FeedTableValid(t) ==> FeedTableValid(r.value.1)
  {
    if FindFeedByUrl(t, url).Some? then None
    else
      var f := Feed(t.nextId, folderId, title, url, siteUrl);
      Some((f, FeedTable(t.rows + [f], t.nextId + 1)))
  }
}
