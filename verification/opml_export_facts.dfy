/**
 * What an export guarantees: how its outlines are classified when read back,
 * the order of every level, and (for an acyclic folder table) that every
 * folder and every feed is written exactly once.
 */
module OpmlExportFacts {
  import opened Wrappers
  import opened Text
  import opened Sorting
  import opened Store
  import opened Outlines
  import opened OpmlExport

  // ------------------------------------------------------- classification

  /** An exported feed reads back as a feed outline with the feed's title, URL and site URL. */
  lemma FeedOutlineIsFeed(e: Feed)
    ensures IsFeedOutline(FeedOutline(e))
    ensures PickOutlineTitle(FeedOutline(e)) == e.title
    ensures FeedOutline(e).xmlUrl == e.url
    ensures FeedOutline(e).htmlUrl == (if e.siteUrl.Some? then e.siteUrl.value else "")
  {
    TrimSpaceOfTrimmed("rss");
    assert ToLower("rss") == "rss";
  }

  /** An exported folder reads back as a folder outline named after the folder. */
  lemma FolderOutlineIsFolder(n: Node)
    ensures !IsFeedOutline(FolderOutline(n))
    ensures FolderOutline(n).title == n.folder.name && FolderOutline(n).text == n.folder.name
  {
    assert TrimSpace("") == "";
    assert ToLower("") == "";
  }

  /** The nested outlines of a folder outline: its sorted sub-folders, then its sorted feeds. */
  lemma FolderOutlineChildren(n: Node)
    ensures FolderOutline(n).children
      == FolderOutlines(SortBy(NodeKey, n.children)) + FeedOutlines(SortBy(FeedKey, n.feeds))
  {
  }

  // ------------------------------------------------------------- ordering

  /**
   * One level of an export: no folder outline follows a feed outline, and
   * within each kind the lower-cased titles never decrease.
   */
  predicate LevelOrdered(os: seq<Outline>) {
    && (forall i, j :: 0 <= i < j < |os| && IsFeedOutline(os[i]) ==> IsFeedOutline(os[j]))
    && (forall i, j :: 0 <= i < j < |os| && IsFeedOutline(os[i]) == IsFeedOutline(os[j]) ==>
          LexLeq(OutlineKey(os[i]), OutlineKey(os[j])))
  }

  /** Every level below an outline is ordered. */
  predicate Ordered(o: Outline)
    decreases o
  {
    && LevelOrdered(o.children)
    && forall i :: 0 <= i < |o.children| ==> Ordered(o.children[i])
  }

  /** Folder outlines sorted by title followed by feed outlines sorted by title form an ordered level. */
  lemma ConcatOrdered(a: seq<Outline>, b: seq<Outline>)
    requires forall i :: 0 <= i < |a| ==> !IsFeedOutline(a[i]) && Ordered(a[i])
    requires forall i :: 0 <= i < |b| ==> IsFeedOutline(b[i]) && Ordered(b[i])
    requires SortedBy(OutlineKey, a) && SortedBy(OutlineKey, b)
    ensures LevelOrdered(a + b)
    ensures forall i :: 0 <= i < |a + b| ==> Ordered((a + b)[i])
  {
    var c := a + b;
    forall i, j | 0 <= i < j < |c| && IsFeedOutline(c[i]) == IsFeedOutline(c[j])
      ensures LexLeq(OutlineKey(c[i]), OutlineKey(c[j]))
    {
      if j < |a| {
        assert c[i] == a[i] && c[j] == a[j];
      } else {
        assert c[j] == b[j - |a|];
        assert i >= |a|;
        assert c[i] == b[i - |a|];
      }
    }
    forall i | 0 <= i < |c|
      ensures Ordered(c[i])
    {
      if i >= |a| {
        assert c[i] == b[i - |a|];
      }
    }
  }

  lemma FolderOutlinesSorted(ns: seq<Node>)
    requires SortedBy(NodeKey, ns)
    ensures SortedBy(OutlineKey, FolderOutlines(ns))
    ensures forall i :: 0 <= i < |ns| ==> !IsFeedOutline(FolderOutlines(ns)[i])
  {
    forall i | 0 <= i < |ns|
      ensures !IsFeedOutline(FolderOutlines(ns)[i])
    {
      FolderOutlineIsFolder(ns[i]);
    }
  }

  lemma FeedOutlinesSorted(es: seq<Feed>)
    requires SortedBy(FeedKey, es)
    ensures SortedBy(OutlineKey, FeedOutlines(es))
    ensures forall i :: 0 <= i < |es| ==> IsFeedOutline(FeedOutlines(es)[i]) && Ordered(FeedOutlines(es)[i])
  {
    forall i | 0 <= i < |es|
      ensures IsFeedOutline(FeedOutlines(es)[i])
    {
      FeedOutlineIsFeed(es[i]);
    }
  }

  /** Every level of an exported folder is ordered: sub-folders first, each kind by lower-cased title. */
  lemma {:induction false} FolderOutlineOrdered(n: Node)
    ensures Ordered(FolderOutline(n))
    decreases n
  {
    var kids := SortBy(NodeKey, n.children);
    var feeds := SortBy(FeedKey, n.feeds);
    forall i | 0 <= i < |kids|
      ensures Ordered(FolderOutlines(kids)[i])
    {
      assert kids[i] in multiset(n.children);
      FolderOutlineOrdered(kids[i]);
    }
    FolderOutlinesSorted(kids);
    FeedOutlinesSorted(feeds);
    ConcatOrdered(FolderOutlines(kids), FeedOutlines(feeds));
    FolderOutlineChildren(n);
  }

  /**
   * An export is ordered at every level: top-level folders before top-level
   * feeds, each group by lower-cased title, and likewise inside every folder.
   */
  lemma ExportOrdered(t: FolderTable, feeds: FeedTable)
    ensures LevelOrdered(Export(t, feeds))
    ensures forall i :: 0 <= i < |Export(t, feeds)| ==> Ordered(Export(t, feeds)[i])
  {
    var roots := SortBy(NodeKey, Forest(t, feeds.rows));
    var top := SortBy(FeedKey, RootFeeds(t, feeds.rows));
    forall i | 0 <= i < |roots|
      ensures Ordered(FolderOutlines(roots)[i])
    {
      FolderOutlineOrdered(roots[i]);
    }
    FolderOutlinesSorted(roots);
    FeedOutlinesSorted(top);
    ConcatOrdered(FolderOutlines(roots), FeedOutlines(top));
  }

  // ------------------------------------------------- duplicate-free lists

  /** No element occurs twice. */
  ghost predicate NoDup<T(!new)>(xs: seq<T>) {
    forall x :: multiset(xs)[x] <= 1
  }

  lemma NoDupConcat<T(!new)>(a: seq<T>, b: seq<T>)
    requires NoDup(a) && NoDup(b)
    requires forall x :: x in a ==> x !in b
    ensures NoDup(a + b)
  {
    assert multiset(a + b) == multiset(a) + multiset(b);
    forall x
      ensures multiset(a + b)[x] <= 1
    {
      if x in a {
        assert x !in multiset(b);
      }
    }
  }

  lemma {:induction false} NoDupByIndex<T(!new)>(xs: seq<T>)
    requires forall i, j :: 0 <= i < j < |xs| ==> xs[i] != xs[j]
    ensures NoDup(xs)
  {
    if |xs| > 0 {
      NoDupByIndex(xs[1..]);
      assert xs == [xs[0]] + xs[1..];
      NoDupConcat([xs[0]], xs[1..]);
    }
  }

  lemma NoDupIndex<T(!new)>(xs: seq<T>, i: int, j: int)
    requires NoDup(xs) && 0 <= i < j < |xs|
    ensures xs[i] != xs[j]
  {
    assert xs == xs[..j] + [xs[j]] + xs[j + 1..];
    assert xs[..j][i] == xs[i];
    assert multiset(xs) == multiset(xs[..j]) + multiset{xs[j]} + multiset(xs[j + 1..]);
    assert multiset(xs[..j])[xs[i]] >= 1;
    assert multiset(xs)[xs[j]] >= multiset(xs[..j])[xs[j]] + 1;
  }

  /** Two duplicate-free lists with the same elements are permutations of each other. */
  lemma SameMembersPermutation<T(!new)>(a: seq<T>, b: seq<T>)
    requires NoDup(a) && NoDup(b)
    requires forall x :: x in a <==> x in b
    ensures multiset(a) == multiset(b)
  {
    forall x
      ensures multiset(a)[x] == multiset(b)[x]
    {
      if x in a {
        assert x in multiset(a) && x in multiset(b);
      } else {
        assert x !in multiset(a) && x !in multiset(b);
      }
    }
  }

  // ------------------------------------------------------ what a tree holds

  /** The folders of a node tree, each node before its subtrees. */
  function FoldersOf(n: Node): seq<Folder>
    decreases n
  {
    [n.folder] + FoldersOfAll(n.children)
  }

  function FoldersOfAll(ns: seq<Node>): seq<Folder>
    decreases ns
  {
    if |ns| == 0 then [] else FoldersOf(ns[0]) + FoldersOfAll(ns[1..])
  }

  lemma {:induction false} FoldersOfAllMember(ns: seq<Node>)
    ensures forall g :: g in FoldersOfAll(ns) <==> exists i :: 0 <= i < |ns| && g in FoldersOf(ns[i])
  {
    if |ns| > 0 {
      FoldersOfAllMember(ns[1..]);
      assert forall i :: 1 <= i < |ns| ==> ns[1..][i - 1] == ns[i];
    }
  }

  lemma {:induction false} FoldersOfAllNoDup(ns: seq<Node>)
    requires forall i :: 0 <= i < |ns| ==> NoDup(FoldersOf(ns[i]))
    requires forall i, j, g :: 0 <= i < j < |ns| && g in FoldersOf(ns[i]) ==> g !in FoldersOf(ns[j])
    ensures NoDup(FoldersOfAll(ns))
  {
    if |ns| > 0 {
      assert forall i :: 1 <= i < |ns| ==> ns[1..][i - 1] == ns[i];
      FoldersOfAllNoDup(ns[1..]);
      FoldersOfAllMember(ns[1..]);
      NoDupConcat(FoldersOf(ns[0]), FoldersOfAll(ns[1..]));
    }
  }

  // ------------------------------------------------------------- acyclicity

  /** A rank that grows strictly from every folder to its parent: a witness that parent keys form no cycle. */
  ghost predicate RankOk(t: FolderTable, rank: int -> nat) {
    forall f {:trigger ParentOf(t, f)} :: f in t.rows && ParentOf(t, f).Some? ==> rank(f.id) < rank(ParentOf(t, f).value.id)
  }

  ghost predicate Acyclic(t: FolderTable) {
    exists rank: int -> nat :: RankOk(t, rank)
  }

  /**
   * `s` lists the folders of a subtree rooted at `c`: all are stored, none
   * ranks above `c`, and every member other than `c` has its parent in `s`.
   */
  ghost predicate Subtree(t: FolderTable, rank: int -> nat, c: Folder, s: seq<Folder>) {
    && c in s
    && (forall g :: g in s ==> g in t.rows && rank(g.id) <= rank(c.id))
    && (forall g {:trigger ParentOf(t, g)} :: g in s && g != c ==> ParentOf(t, g).Some? && ParentOf(t, g).value in s)
  }

  /** Every stored folder whose parent is in `s` is in `s` too. */
  ghost predicate ChildClosed(t: FolderTable, s: seq<Folder>) {
    forall g {:trigger ParentOf(t, g)} :: g in t.rows && ParentOf(t, g).Some? && ParentOf(t, g).value in s ==> g in s
  }

  lemma KeyDetermines(t: FolderTable, f: Folder, g: Folder)
    requires FolderKeysValid(t) && f in t.rows && g in t.rows && f.id == g.id
    ensures f == g
  {
    var i :| 0 <= i < |t.rows| && t.rows[i] == f;
    var j :| 0 <= j < |t.rows| && t.rows[j] == g;
    assert !(i < j) && !(j < i);
  }

  lemma ParentOfChild(t: FolderTable, f: Folder, g: Folder)
    requires FolderKeysValid(t) && f in t.rows && g.parentId == Some(f.id)
    ensures ParentOf(t, g) == Some(f)
  {
    var i :| 0 <= i < |t.rows| && t.rows[i] == f;
    assert HasFolder(t, f.id);
    KeyDetermines(t, f, ParentOf(t, g).value);
  }

  lemma RowsNoDup(t: FolderTable)
    requires FolderKeysValid(t)
    ensures NoDup(t.rows)
  {
    NoDupByIndex(t.rows);
  }

  /** Subtrees rooted at two different folders with the same parent (or both at the top) share no folder. */
  lemma DisjointSubtrees(t: FolderTable, rank: int -> nat, c1: Folder, s1: seq<Folder>, c2: Folder, s2: seq<Folder>, g: Folder)
    requires RankOk(t, rank)
    requires Subtree(t, rank, c1, s1) && Subtree(t, rank, c2, s2)
    requires c1 != c2 && ParentOf(t, c1) == ParentOf(t, c2)
    ensures !(g in s1 && g in s2)
    decreases if g in s1 then rank(c1.id) - rank(g.id) else 0
  {
    if g in s1 && g in s2 && g != c1 && g != c2 {
      var p := ParentOf(t, g).value;
      DisjointSubtrees(t, rank, c1, s1, c2, s2, p);
    }
  }

  /** The subtrees of distinct children of one folder share no folder. */
  lemma SiblingsDisjoint(t: FolderTable, rank: int -> nat, f: Folder, kids: seq<Folder>, subs: seq<seq<Folder>>)
    requires RankOk(t, rank) && NoDup(kids) && |subs| == |kids|
    requires forall i :: 0 <= i < |kids| ==> ParentOf(t, kids[i]) == Some(f) && Subtree(t, rank, kids[i], subs[i])
    ensures forall i, j, g :: 0 <= i < j < |kids| && g in subs[i] ==> g !in subs[j]
  {
    forall i, j, g | 0 <= i < j < |kids| && g in subs[i]
      ensures g !in subs[j]
    {
      NoDupIndex(kids, i, j);
      DisjointSubtrees(t, rank, kids[i], subs[i], kids[j], subs[j], g);
    }
  }

  /** A folder followed by the subtrees of all its children is the subtree of that folder. */
  lemma AssembleSubtree(t: FolderTable, rank: int -> nat, f: Folder, kids: seq<Folder>, subs: seq<seq<Folder>>, rest: seq<Folder>)
    requires f in t.rows && |subs| == |kids|
    requires forall g :: g in kids <==> g in t.rows && g.parentId == Some(f.id)
    requires forall i :: 0 <= i < |kids| ==>
      && ParentOf(t, kids[i]) == Some(f) && rank(kids[i].id) < rank(f.id)
      && Subtree(t, rank, kids[i], subs[i]) && ChildClosed(t, subs[i])
    requires forall g :: g in rest <==> exists i :: 0 <= i < |kids| && g in subs[i]
    ensures Subtree(t, rank, f, [f] + rest) && ChildClosed(t, [f] + rest)
    ensures f !in rest
  {
    var s := [f] + rest;
    forall g | g in t.rows && ParentOf(t, g).Some? && ParentOf(t, g).value in s
      ensures g in s
    {
      var p := ParentOf(t, g).value;
      if p == f {
        assert g in kids;
        var i :| 0 <= i < |kids| && kids[i] == g;
        assert g in subs[i];
      } else {
        assert p in rest;
        var i :| 0 <= i < |kids| && p in subs[i];
        assert g in subs[i];
      }
    }
  }

  /** What BuildNodeSubtree establishes for the node of a child `c` of folder `f`. */
  ghost predicate ChildFacts(t: FolderTable, rank: int -> nat, f: Folder, c: Node) {
    && ParentOf(t, c.folder) == Some(f) && rank(c.folder.id) < rank(f.id)
    && Subtree(t, rank, c.folder, FoldersOf(c)) && NoDup(FoldersOf(c)) && ChildClosed(t, FoldersOf(c))
  }

  /** The facts NodeSubtree starts from: every child of the node is the subtree of one child folder. */
  ghost predicate ChildrenFacts(t: FolderTable, rank: int -> nat, n: Node) {
    && FolderKeysValid(t) && RankOk(t, rank) && n.folder in t.rows
    && |n.children| == |ChildFolders(t, n.folder.id)|
    && forall i :: 0 <= i < |n.children| ==>
         n.children[i].folder == ChildFolders(t, n.folder.id)[i] && ChildFacts(t, rank, n.folder, n.children[i])
  }

  /** The folders below a node are those of its children's subtrees. */
  lemma ChildrenMembers(n: Node, subs: seq<seq<Folder>>)
    requires |subs| == |n.children|
    requires forall i :: 0 <= i < |n.children| ==> subs[i] == FoldersOf(n.children[i])
    ensures FoldersOf(n) == [n.folder] + FoldersOfAll(n.children)
    ensures forall g :: g in FoldersOfAll(n.children) <==> exists i :: 0 <= i < |subs| && g in subs[i]
  {
    FoldersOfAllMember(n.children);
  }

  lemma NodeSubtreeShape(t: FolderTable, rank: int -> nat, n: Node)
    requires ChildrenFacts(t, rank, n)
    ensures Subtree(t, rank, n.folder, FoldersOf(n))
    ensures ChildClosed(t, FoldersOf(n))
    ensures n.folder !in FoldersOfAll(n.children)
  {
    var subs := seq(|n.children|, i requires 0 <= i < |n.children| => FoldersOf(n.children[i]));
    ChildrenMembers(n, subs);
    AssembleSubtree(t, rank, n.folder, ChildFolders(t, n.folder.id), subs, FoldersOfAll(n.children));
  }

  lemma ChildrenNoDup(t: FolderTable, rank: int -> nat, n: Node)
    requires ChildrenFacts(t, rank, n)
    ensures NoDup(FoldersOfAll(n.children))
  {
    var kids := ChildFolders(t, n.folder.id);
    var subs := seq(|n.children|, i requires 0 <= i < |n.children| => FoldersOf(n.children[i]));
    RowsNoDup(t);
    SiblingsDisjoint(t, rank, n.folder, kids, subs);
    FoldersOfAllNoDup(n.children);
  }

  lemma NodeSubtreeNoDup(t: FolderTable, rank: int -> nat, n: Node)
    requires ChildrenFacts(t, rank, n)
    requires n.folder !in FoldersOfAll(n.children)
    ensures NoDup(FoldersOf(n))
  {
    ChildrenNoDup(t, rank, n);
    assert FoldersOf(n) == [n.folder] + FoldersOfAll(n.children);
    NoDupConcat([n.folder], FoldersOfAll(n.children));
  }

  /**
   * On an acyclic table the node BuildNode makes for a stored folder, given
   * every key of rank up to its own as available, lists that folder's whole
   * subtree, each folder once.
   */
  lemma {:induction false} BuildNodeSubtree(t: FolderTable, feeds: seq<Feed>, rank: int -> nat, f: Folder, avail: set<int>)
    requires FolderKeysValid(t) && RankOk(t, rank) && f in t.rows
    requires forall g :: g in t.rows && rank(g.id) <= rank(f.id) ==> g.id in avail
    ensures Subtree(t, rank, f, FoldersOf(BuildNode(t, feeds, f, avail)))
    ensures NoDup(FoldersOf(BuildNode(t, feeds, f, avail)))
    ensures ChildClosed(t, FoldersOf(BuildNode(t, feeds, f, avail)))
    decreases rank(f.id)
  {
    var n := BuildNode(t, feeds, f, avail);
    var kids := ChildFolders(t, f.id);
    var avail' := avail - {f.id};
    assert f.id in avail;
    forall i | 0 <= i < |kids|
      ensures ChildFacts(t, rank, f, n.children[i])
    {
      assert n.children[i] == BuildNode(t, feeds, kids[i], avail');
      ParentOfChild(t, f, kids[i]);
      BuildNodeSubtree(t, feeds, rank, kids[i], avail');
    }
    NodeSubtreeShape(t, rank, n);
    NodeSubtreeNoDup(t, rank, n);
  }

  /** Every top-level node of an acyclic table lists the subtree of its folder, each folder once. */
  lemma ForestSubtrees(t: FolderTable, feeds: seq<Feed>, rank: int -> nat)
    requires FolderKeysValid(t) && RankOk(t, rank)
    ensures forall i :: 0 <= i < |Forest(t, feeds)| ==>
      && Subtree(t, rank, RootFolders(t)[i], FoldersOf(Forest(t, feeds)[i]))
      && NoDup(FoldersOf(Forest(t, feeds)[i]))
      && ChildClosed(t, FoldersOf(Forest(t, feeds)[i]))
  {
    var roots := RootFolders(t);
    forall i | 0 <= i < |roots|
      ensures Subtree(t, rank, roots[i], FoldersOf(Forest(t, feeds)[i]))
      ensures NoDup(FoldersOf(Forest(t, feeds)[i])) && ChildClosed(t, FoldersOf(Forest(t, feeds)[i]))
    {
      assert forall g :: g in t.rows ==> g.id in FolderIds(t);
      BuildNodeSubtree(t, feeds, rank, roots[i], FolderIds(t));
    }
  }

  lemma ForestNoDup(t: FolderTable, feeds: seq<Feed>, rank: int -> nat)
    requires FolderKeysValid(t) && RankOk(t, rank)
    ensures NoDup(FoldersOfAll(Forest(t, feeds)))
  {
    var forest := Forest(t, feeds);
    var roots := RootFolders(t);
    ForestSubtrees(t, feeds, rank);
    RowsNoDup(t);
    forall i, j, g | 0 <= i < j < |forest| && g in FoldersOf(forest[i])
      ensures g !in FoldersOf(forest[j])
    {
      NoDupIndex(roots, i, j);
      DisjointSubtrees(t, rank, roots[i], FoldersOf(forest[i]), roots[j], FoldersOf(forest[j]), g);
    }
    FoldersOfAllNoDup(forest);
  }

  /** A bound on the rank of every stored folder. */
  lemma MaxRank(rows: seq<Folder>, rank: int -> nat) returns (m: nat)
    ensures forall g :: g in rows ==> rank(g.id) <= m
  {
    m := 0;
    for k := 0 to |rows|
      invariant forall g :: g in rows[..k] ==> rank(g.id) <= m
    {
      assert rows[..k + 1] == rows[..k] + [rows[k]];
      if rank(rows[k].id) > m {
        m := rank(rows[k].id);
      }
    }
    assert rows[..|rows|] == rows;
  }

  /** Following parents upwards from any stored folder ends at a top-level folder, so every folder is in some top-level subtree. */
  lemma {:induction false} ForestReaches(t: FolderTable, feeds: seq<Feed>, rank: int -> nat, m: nat, g: Folder)
    requires FolderKeysValid(t) && RankOk(t, rank) && g in t.rows
    requires forall h :: h in t.rows ==> rank(h.id) <= m
    ensures exists i :: 0 <= i < |Forest(t, feeds)| && g in FoldersOf(Forest(t, feeds)[i])
    decreases m - rank(g.id)
  {
    var forest := Forest(t, feeds);
    match ParentOf(t, g)
    case None =>
      var i :| 0 <= i < |RootFolders(t)| && RootFolders(t)[i] == g;
      assert FoldersOf(forest[i]) == [g] + FoldersOfAll(forest[i].children);
    case Some(p) =>
      ForestReaches(t, feeds, rank, m, p);
      var i :| 0 <= i < |forest| && p in FoldersOf(forest[i]);
      ForestSubtrees(t, feeds, rank);
      assert ChildClosed(t, FoldersOf(forest[i]));
  }

  /** On an acyclic table with distinct keys the export tree holds every stored folder exactly once. */
  lemma ExportFoldersOnce(t: FolderTable, feeds: FeedTable)
    requires FolderKeysValid(t) && Acyclic(t)
    ensures multiset(FoldersOfAll(Forest(t, feeds.rows))) == multiset(t.rows)
  {
    var rank: int -> nat :| RankOk(t, rank);
    var forest := Forest(t, feeds.rows);
    ForestNoDup(t, feeds.rows, rank);
    ForestSubtrees(t, feeds.rows, rank);
    FoldersOfAllMember(forest);
    var m := MaxRank(t.rows, rank);
    forall g | g in t.rows
      ensures g in FoldersOfAll(forest)
    {
      ForestReaches(t, feeds.rows, rank, m, g);
    }
    RowsNoDup(t);
    SameMembersPermutation(FoldersOfAll(forest), t.rows);
  }

  // ------------------------------------------------------------------ feeds

  /** The feeds of a node tree, each node's own feeds before its subtrees'. */
  function FeedsOf(n: Node): seq<Feed>
    decreases n
  {
    n.feeds + FeedsOfAll(n.children)
  }

  function FeedsOfAll(ns: seq<Node>): seq<Feed>
    decreases ns
  {
    if |ns| == 0 then [] else FeedsOf(ns[0]) + FeedsOfAll(ns[1..])
  }

  /** Every node of the tree holds exactly the feeds filed in its folder. */
  ghost predicate FeedsFiled(feeds: seq<Feed>, n: Node)
    decreases n
  {
    && n.feeds == FolderFeeds(feeds, n.folder.id)
    && forall i :: 0 <= i < |n.children| ==> FeedsFiled(feeds, n.children[i])
  }

  lemma {:induction false} BuildNodeFiled(t: FolderTable, feeds: seq<Feed>, f: Folder, avail: set<int>)
    ensures FeedsFiled(feeds, BuildNode(t, feeds, f, avail))
    decreases avail
  {
    var n := BuildNode(t, feeds, f, avail);
    if f.id in avail {
      var kids := ChildFolders(t, f.id);
      forall i | 0 <= i < |n.children|
        ensures FeedsFiled(feeds, n.children[i])
      {
        assert n.children[i] == BuildNode(t, feeds, kids[i], avail - {f.id});
        BuildNodeFiled(t, feeds, kids[i], avail - {f.id});
      }
    }
  }

  lemma NoDupSplit<T(!new)>(a: seq<T>, b: seq<T>)
    requires NoDup(a + b)
    ensures NoDup(a) && NoDup(b)
    ensures forall x :: x in a ==> x !in b
  {
    assert multiset(a + b) == multiset(a) + multiset(b);
    forall x
      ensures multiset(a)[x] <= 1 && multiset(b)[x] <= 1
    {
      assert multiset(a + b)[x] <= 1;
    }
    forall x | x in a
      ensures x !in b
    {
      assert multiset(a)[x] >= 1;
      assert multiset(a + b)[x] <= 1;
    }
  }

  /** A feed is in a tree exactly when it is filed in one of the tree's folders. */
  lemma {:induction false} FeedsOfMember(feeds: seq<Feed>, n: Node)
    requires FeedsFiled(feeds, n)
    ensures forall e :: e in FeedsOf(n) <==> e in feeds && exists g :: g in FoldersOf(n) && e.folderId == Some(g.id)
    decreases n
  {
    FeedsOfAllMember(feeds, n.children);
    assert FoldersOf(n) == [n.folder] + FoldersOfAll(n.children);
  }

  lemma {:induction false} FeedsOfAllMember(feeds: seq<Feed>, ns: seq<Node>)
    requires forall i :: 0 <= i < |ns| ==> FeedsFiled(feeds, ns[i])
    ensures forall e :: e in FeedsOfAll(ns) <==> e in feeds && exists g :: g in FoldersOfAll(ns) && e.folderId == Some(g.id)
    decreases ns
  {
    if |ns| > 0 {
      FeedsOfMember(feeds, ns[0]);
      FeedsOfAllMember(feeds, ns[1..]);
      assert FoldersOfAll(ns) == FoldersOf(ns[0]) + FoldersOfAll(ns[1..]);
    }
  }

  /** Feeds filed in distinct folders of a duplicate-free tree are distinct. */
  lemma {:induction false} FeedsOfNoDup(t: FolderTable, feeds: seq<Feed>, n: Node)
    requires FeedsFiled(feeds, n) && NoDup(feeds) && FolderKeysValid(t)
    requires forall g :: g in FoldersOf(n) ==> g in t.rows
    requires NoDup(FoldersOf(n))
    ensures NoDup(FeedsOf(n))
    decreases n
  {
    var rest := FoldersOfAll(n.children);
    assert FoldersOf(n) == [n.folder] + rest;
    NoDupSplit([n.folder], rest);
    FeedsOfAllNoDup(t, feeds, n.children);
    FeedsOfAllMember(feeds, n.children);
    forall e | e in n.feeds
      ensures e !in FeedsOfAll(n.children)
    {
      if e in FeedsOfAll(n.children) {
        var g :| g in rest && e.folderId == Some(g.id);
        KeyDetermines(t, g, n.folder);
      }
    }
    NoDupConcat(n.feeds, FeedsOfAll(n.children));
  }

  lemma {:induction false} FeedsOfAllNoDup(t: FolderTable, feeds: seq<Feed>, ns: seq<Node>)
    requires forall i :: 0 <= i < |ns| ==> FeedsFiled(feeds, ns[i])
    requires NoDup(feeds) && FolderKeysValid(t)
    requires forall g :: g in FoldersOfAll(ns) ==> g in t.rows
    requires NoDup(FoldersOfAll(ns))
    ensures NoDup(FeedsOfAll(ns))
    decreases ns
  {
    if |ns| > 0 {
      var a := FoldersOf(ns[0]);
      var b := FoldersOfAll(ns[1..]);
      assert FoldersOfAll(ns) == a + b;
      NoDupSplit(a, b);
      FeedsOfNoDup(t, feeds, ns[0]);
      FeedsOfAllNoDup(t, feeds, ns[1..]);
      FeedsOfMember(feeds, ns[0]);
      FeedsOfAllMember(feeds, ns[1..]);
      forall e | e in FeedsOf(ns[0])
        ensures e !in FeedsOfAll(ns[1..])
      {
        if e in FeedsOfAll(ns[1..]) {
          var g :| g in a && e.folderId == Some(g.id);
          var h :| h in b && e.folderId == Some(h.id);
          KeyDetermines(t, g, h);
        }
      }
      NoDupConcat(FeedsOf(ns[0]), FeedsOfAll(ns[1..]));
    }
  }

  lemma FeedRowsNoDup(feeds: FeedTable)
    requires FeedTableValid(feeds)
    ensures NoDup(feeds.rows)
  {
    NoDupByIndex(feeds.rows);
  }

  /**
   * On an acyclic folder table with distinct keys and a valid feed table,
   * the export holds every stored feed exactly once: inside the node of its
   * folder, or at the top level when it has no folder or its folder is gone.
   */
  lemma ExportFeedsOnce(t: FolderTable, feeds: FeedTable)
    requires FolderKeysValid(t) && Acyclic(t) && FeedTableValid(feeds)
    ensures multiset(FeedsOfAll(Forest(t, feeds.rows)) + RootFeeds(t, feeds.rows)) == multiset(feeds.rows)
  {
    var rank: int -> nat :| RankOk(t, rank);
    var forest := Forest(t, feeds.rows);
    var top := RootFeeds(t, feeds.rows);
    var inner := FeedsOfAll(forest);
    ExportFoldersOnce(t, feeds);
    ForestNoDup(t, feeds.rows, rank);
    assert forall g :: g in FoldersOfAll(forest) <==> g in t.rows by {
      assert forall g :: g in FoldersOfAll(forest) <==> g in multiset(FoldersOfAll(forest));
    }
    forall i | 0 <= i < |forest|
      ensures FeedsFiled(feeds.rows, forest[i])
    {
      BuildNodeFiled(t, feeds.rows, RootFolders(t)[i], FolderIds(t));
    }
    FeedRowsNoDup(feeds);
    FeedsOfAllNoDup(t, feeds.rows, forest);
    FeedsOfAllMember(feeds.rows, forest);
    forall e | e in inner
      ensures e !in top
    {
      var g :| g in FoldersOfAll(forest) && e.folderId == Some(g.id);
      assert HasFolder(t, g.id);
    }
    NoDupConcat(inner, top);
    forall e | e in feeds.rows
      ensures e in inner + top
    {
      if !IsRootFeed(t, e) {
        var k :| 0 <= k < |t.rows| && t.rows[k].id == e.folderId.value;
        assert t.rows[k] in FoldersOfAll(forest);
      }
    }
    SameMembersPermutation(inner + top, feeds.rows);
  }

  // ------------------------------------------------- counts as import sees them

  /** Taking one tree out of a list takes out exactly its folders and feeds. */
  lemma {:induction false} TreesRemove(ys: seq<Node>, k: nat)
    requires k < |ys|
    ensures |FoldersOfAll(ys)| == |FoldersOf(ys[k])| + |FoldersOfAll(ys[..k] + ys[k + 1..])|
    ensures |FeedsOfAll(ys)| == |FeedsOf(ys[k])| + |FeedsOfAll(ys[..k] + ys[k + 1..])|
  {
    var r := ys[..k] + ys[k + 1..];
    if k == 0 {
      assert r == ys[1..];
    } else {
      TreesRemove(ys[1..], k - 1);
      assert r[0] == ys[0];
      assert r[1..] == ys[1..][..k - 1] + ys[1..][k..];
    }
  }

  /** Removing the same element from two permutations of each other leaves permutations of each other. */
  lemma PermutationRemove<T>(xs: seq<T>, ys: seq<T>, k: nat)
    requires multiset(xs) == multiset(ys) && |xs| > 0 && k < |ys| && ys[k] == xs[0]
    ensures multiset(xs[1..]) == multiset(ys[..k] + ys[k + 1..])
  {
    assert xs == [xs[0]] + xs[1..];
    assert ys == ys[..k] + [ys[k]] + ys[k + 1..];
    var rest := multiset(ys[..k] + ys[k + 1..]);
    assert multiset(ys) == rest + multiset{ys[k]};
    assert multiset(xs) == multiset(xs[1..]) + multiset{xs[0]};
    assert multiset(xs[1..]) == multiset(xs) - multiset{xs[0]};
    assert rest == multiset(ys) - multiset{ys[k]};
  }

  /** Reordering trees does not change how many folders and feeds they hold. */
  lemma {:induction false} TreesPermutation(xs: seq<Node>, ys: seq<Node>)
    requires multiset(xs) == multiset(ys)
    ensures |FoldersOfAll(xs)| == |FoldersOfAll(ys)|
    ensures |FeedsOfAll(xs)| == |FeedsOfAll(ys)|
    decreases |xs|
  {
    if |xs| == 0 {
      assert |ys| == |multiset(ys)| == 0;
    } else {
      var x := xs[0];
      assert x in multiset(ys);
      var k :| 0 <= k < |ys| && ys[k] == x;
      var ys' := ys[..k] + ys[k + 1..];
      PermutationRemove(xs, ys, k);
      TreesPermutation(xs[1..], ys');
      TreesRemove(ys, k);
    }
  }

  lemma {:induction false} OutlineCountsConcat(a: seq<Outline>, b: seq<Outline>)
    ensures FolderOutlineCountIn(a + b) == FolderOutlineCountIn(a) + FolderOutlineCountIn(b)
    ensures FeedOutlineCountIn(a + b) == FeedOutlineCountIn(a) + FeedOutlineCountIn(b)
  {
    if |a| == 0 {
      assert a + b == b;
    } else {
      OutlineCountsConcat(a[1..], b);
      assert (a + b)[1..] == a[1..] + b;
    }
  }

  /** Import counts every exported feed as one feed and no folder. */
  lemma {:induction false} FeedOutlinesCounts(es: seq<Feed>)
    ensures FolderOutlineCountIn(FeedOutlines(es)) == 0
    ensures FeedOutlineCountIn(FeedOutlines(es)) == |es|
  {
    if |es| > 0 {
      FeedOutlineIsFeed(es[0]);
      FeedOutlinesCounts(es[1..]);
      assert FeedOutlines(es)[1..] == FeedOutlines(es[1..]);
    }
  }

  lemma {:induction false} FolderOutlinesCounts(ns: seq<Node>)
    requires forall i :: 0 <= i < |ns| ==>
      && FolderOutlineCount(FolderOutline(ns[i])) == |FoldersOf(ns[i])|
      && FeedOutlineCount(FolderOutline(ns[i])) == |FeedsOf(ns[i])|
    ensures FolderOutlineCountIn(FolderOutlines(ns)) == |FoldersOfAll(ns)|
    ensures FeedOutlineCountIn(FolderOutlines(ns)) == |FeedsOfAll(ns)|
  {
    if |ns| > 0 {
      FolderOutlinesCounts(ns[1..]);
      assert FolderOutlines(ns)[1..] == FolderOutlines(ns[1..]);
    }
  }

  /** Import counts an exported folder node as one folder per folder of its tree and one feed per feed of it. */
  lemma {:induction false} FolderOutlineCounts(n: Node)
    ensures FolderOutlineCount(FolderOutline(n)) == |FoldersOf(n)|
    ensures FeedOutlineCount(FolderOutline(n)) == |FeedsOf(n)|
    decreases n
  {
    var kids := SortBy(NodeKey, n.children);
    var fs := SortBy(FeedKey, n.feeds);
    forall i | 0 <= i < |kids|
      ensures FolderOutlineCount(FolderOutline(kids[i])) == |FoldersOf(kids[i])|
      ensures FeedOutlineCount(FolderOutline(kids[i])) == |FeedsOf(kids[i])|
    {
      assert kids[i] in multiset(n.children);
      FolderOutlineCounts(kids[i]);
    }
    FolderOutlinesCounts(kids);
    FeedOutlinesCounts(fs);
    OutlineCountsConcat(FolderOutlines(kids), FeedOutlines(fs));
    TreesPermutation(kids, n.children);
    FolderOutlineIsFolder(n);
    FolderOutlineChildren(n);
  }

  /**
   * Read back by import, the export of an acyclic folder table with distinct
   * keys and a valid feed table holds one folder outline per stored folder and
   * one feed outline per stored feed.
   */
  lemma ExportCounts(t: FolderTable, feeds: FeedTable)
    requires FolderKeysValid(t) && Acyclic(t) && FeedTableValid(feeds)
    ensures FolderOutlineCountIn(Export(t, feeds)) == |t.rows|
    ensures FeedOutlineCountIn(Export(t, feeds)) == |feeds.rows|
  {
    var forest := Forest(t, feeds.rows);
    var roots := SortBy(NodeKey, forest);
    var top := SortBy(FeedKey, RootFeeds(t, feeds.rows));
    forall i | 0 <= i < |roots|
      ensures FolderOutlineCount(FolderOutline(roots[i])) == |FoldersOf(roots[i])|
      ensures FeedOutlineCount(FolderOutline(roots[i])) == |FeedsOf(roots[i])|
    {
      FolderOutlineCounts(roots[i]);
    }
    FolderOutlinesCounts(roots);
    FeedOutlinesCounts(top);
    OutlineCountsConcat(FolderOutlines(roots), FeedOutlines(top));
    TreesPermutation(roots, forest);
    ExportFoldersOnce(t, feeds);
    ExportFeedsOnce(t, feeds);
    assert |FoldersOfAll(forest)| == |multiset(FoldersOfAll(forest))| == |multiset(t.rows)|;
    var all := FeedsOfAll(forest) + RootFeeds(t, feeds.rows);
    assert |all| == |multiset(all)| == |multiset(feeds.rows)|;
  }

  // ------------------------------------------ feed outlines as import sees them

  /** The feed outlines of an outline, found the way import walks it: a feed outline is taken whole, a folder outline is entered. */
  function FeedOutlinesOf(o: Outline): seq<Outline>
    decreases o
  {
    if IsFeedOutline(o) then [o] else FeedOutlinesIn(o.children)
  }

  function FeedOutlinesIn(os: seq<Outline>): seq<Outline>
    decreases os
  {
    if |os| == 0 then [] else FeedOutlinesOf(os[0]) + FeedOutlinesIn(os[1..])
  }

  lemma {:induction false} FeedOutlinesInConcat(a: seq<Outline>, b: seq<Outline>)
    ensures FeedOutlinesIn(a + b) == FeedOutlinesIn(a) + FeedOutlinesIn(b)
  {
    if |a| == 0 {
      assert a + b == b;
    } else {
      var x, y, z := FeedOutlinesOf(a[0]), FeedOutlinesIn(a[1..]), FeedOutlinesIn(b);
      assert FeedOutlinesIn(a + b) == x + FeedOutlinesIn(a[1..] + b) by {
        assert (a + b)[0] == a[0];
        assert (a + b)[1..] == a[1..] + b;
      }
      FeedOutlinesInConcat(a[1..], b);
      assert x + (y + z) == (x + y) + z;
    }
  }

  /** A list of exported feeds is its own list of feed outlines. */
  lemma {:induction false} FeedOutlinesInFeeds(es: seq<Feed>)
    ensures FeedOutlinesIn(FeedOutlines(es)) == FeedOutlines(es)
  {
    if |es| > 0 {
      FeedOutlineIsFeed(es[0]);
      FeedOutlinesInFeeds(es[1..]);
      assert FeedOutlines(es)[1..] == FeedOutlines(es[1..]);
      assert FeedOutlines(es) == [FeedOutline(es[0])] + FeedOutlines(es[1..]);
    }
  }

  lemma FeedOutlinesConcat(a: seq<Feed>, b: seq<Feed>)
    ensures FeedOutlines(a + b) == FeedOutlines(a) + FeedOutlines(b)
  {
    assert forall i :: 0 <= i < |a| + |b| ==> (a + b)[i] == if i < |a| then a[i] else b[i - |a|];
  }

  /** Writing reordered feeds writes the same feed outlines, reordered. */
  lemma {:induction false} FeedOutlinesPermutation(xs: seq<Feed>, ys: seq<Feed>)
    requires multiset(xs) == multiset(ys)
    ensures multiset(FeedOutlines(xs)) == multiset(FeedOutlines(ys))
    decreases |xs|
  {
    if |xs| == 0 {
      assert |ys| == |multiset(ys)| == 0;
    } else {
      var x := xs[0];
      assert x in multiset(ys);
      var k :| 0 <= k < |ys| && ys[k] == x;
      var ys' := ys[..k] + ys[k + 1..];
      PermutationRemove(xs, ys, k);
      FeedOutlinesPermutation(xs[1..], ys');
      assert ys == ys[..k] + [x] + ys[k + 1..];
      assert xs == [x] + xs[1..];
      FeedOutlinesConcat(ys[..k] + [x], ys[k + 1..]);
      FeedOutlinesConcat(ys[..k], [x]);
      FeedOutlinesConcat(ys[..k], ys[k + 1..]);
      FeedOutlinesConcat([x], xs[1..]);
    }
  }

  /** Taking one tree out of a list takes out exactly its feeds. */
  lemma {:induction false} FeedsRemove(ys: seq<Node>, k: nat)
    requires k < |ys|
    ensures multiset(FeedsOfAll(ys)) == multiset(FeedsOf(ys[k])) + multiset(FeedsOfAll(ys[..k] + ys[k + 1..]))
  {
    var r := ys[..k] + ys[k + 1..];
    if k == 0 {
      assert r == ys[1..];
    } else {
      FeedsRemove(ys[1..], k - 1);
      assert r[0] == ys[0];
      assert r[1..] == ys[1..][..k - 1] + ys[1..][k..];
    }
  }

  /** Reordering trees reorders the feeds they hold. */
  lemma {:induction false} TreesFeedsPermutation(xs: seq<Node>, ys: seq<Node>)
    requires multiset(xs) == multiset(ys)
    ensures multiset(FeedsOfAll(xs)) == multiset(FeedsOfAll(ys))
    decreases |xs|
  {
    if |xs| == 0 {
      assert |ys| == |multiset(ys)| == 0;
    } else {
      var x := xs[0];
      assert x in multiset(ys);
      var k :| 0 <= k < |ys| && ys[k] == x;
      PermutationRemove(xs, ys, k);
      TreesFeedsPermutation(xs[1..], ys[..k] + ys[k + 1..]);
      FeedsRemove(ys, k);
    }
  }

  lemma {:induction false} FolderOutlinesFeeds(ns: seq<Node>)
    requires forall i :: 0 <= i < |ns| ==>
      multiset(FeedOutlinesOf(FolderOutline(ns[i]))) == multiset(FeedOutlines(FeedsOf(ns[i])))
    ensures multiset(FeedOutlinesIn(FolderOutlines(ns))) == multiset(FeedOutlines(FeedsOfAll(ns)))
  {
    if |ns| > 0 {
      FolderOutlinesFeeds(ns[1..]);
      assert FolderOutlines(ns)[1..] == FolderOutlines(ns[1..]);
      FeedOutlinesConcat(FeedsOf(ns[0]), FeedsOfAll(ns[1..]));
    }
  }

  /** The feed outlines under an exported folder are the outlines of the feeds in its tree, each once. */
  lemma {:induction false} FolderOutlineFeeds(n: Node)
    ensures multiset(FeedOutlinesOf(FolderOutline(n))) == multiset(FeedOutlines(FeedsOf(n)))
    decreases n
  {
    var kids := SortBy(NodeKey, n.children);
    var fs := SortBy(FeedKey, n.feeds);
    forall i | 0 <= i < |kids|
      ensures multiset(FeedOutlinesOf(FolderOutline(kids[i]))) == multiset(FeedOutlines(FeedsOf(kids[i])))
    {
      assert kids[i] in multiset(n.children);
      FolderOutlineFeeds(kids[i]);
    }
    FolderOutlinesFeeds(kids);
    TreesFeedsPermutation(kids, n.children);
    FeedOutlinesPermutation(FeedsOfAll(kids), FeedsOfAll(n.children));
    FeedOutlinesPermutation(fs, n.feeds);
    FeedOutlinesInFeeds(fs);
    FeedOutlinesInConcat(FolderOutlines(kids), FeedOutlines(fs));
    FolderOutlineIsFolder(n);
    FolderOutlineChildren(n);
    FeedOutlinesConcat(n.feeds, FeedsOfAll(n.children));
  }

  /**
   * Read the way import reads it, the export of an acyclic folder table with
   * distinct keys and a valid feed table holds the outline of every stored
   * feed exactly once, and no other feed outline.
   */
  lemma ExportFeedOutlines(t: FolderTable, feeds: FeedTable)
    requires FolderKeysValid(t) && Acyclic(t) && FeedTableValid(feeds)
    ensures multiset(FeedOutlinesIn(Export(t, feeds))) == multiset(FeedOutlines(feeds.rows))
  {
    var forest := Forest(t, feeds.rows);
    var roots := SortBy(NodeKey, forest);
    var rootFeeds := RootFeeds(t, feeds.rows);
    var top := SortBy(FeedKey, rootFeeds);
    forall i | 0 <= i < |roots|
      ensures multiset(FeedOutlinesOf(FolderOutline(roots[i]))) == multiset(FeedOutlines(FeedsOf(roots[i])))
    {
      FolderOutlineFeeds(roots[i]);
    }
    FolderOutlinesFeeds(roots);
    TreesFeedsPermutation(roots, forest);
    FeedOutlinesPermutation(FeedsOfAll(roots), FeedsOfAll(forest));
    FeedOutlinesPermutation(top, rootFeeds);
    FeedOutlinesInFeeds(top);
    FeedOutlinesInConcat(FolderOutlines(roots), FeedOutlines(top));
    ExportFeedsOnce(t, feeds);
    FeedOutlinesConcat(FeedsOfAll(forest), rootFeeds);
    FeedOutlinesPermutation(FeedsOfAll(forest) + rootFeeds, feeds.rows);
  }
}
