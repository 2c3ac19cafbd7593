/**
 * The OPML outline element and the two helpers opml_service.go uses to read
 * it: how an outline is classified as a feed, and which of its labels names a
 * folder.
 */
module Outlines {
  import opened Text

  /** An `<outline>` element: text, title, type, xmlUrl and htmlUrl attributes, and nested outlines. */
  datatype Outline = Outline(
    text: string,
    title: string,
    outlineType: string,
    xmlUrl: string,
    htmlUrl: string,
    children: seq<Outline>)

  /** The type attribute, trimmed and lower-cased, names a feed format. */
  predicate IsFeedType(outlineType: string) {
    var t := ToLower(TrimSpace(outlineType));
    t == "rss" || t == "atom" || t == "feed"
  }

  /** isFeedOutline: an outline is a feed when it has a non-blank xmlUrl or a feed type. */
  predicate IsFeedOutline(o: Outline) {
    !IsBlank(o.xmlUrl) || IsFeedType(o.outlineType)
  }

  /**
   * IsFeedOutline reads both attributes through TrimSpace, and the type also
   * through ToLower: padding either with white space or changing the type's
   * case does not change how an outline is classified, and a usable xmlUrl
   * makes it a feed whatever its type says.
   */
  lemma FeedOutlineNormalized(o: Outline)
    ensures IsFeedOutline(o) <==>
      IsFeedOutline(o.(xmlUrl := TrimSpace(o.xmlUrl), outlineType := ToLower(TrimSpace(o.outlineType))))
    ensures !IsBlank(o.xmlUrl) ==> IsFeedOutline(o)
  {
    TrimSpaceIdempotent(o.xmlUrl);
    var y := TrimSpace(o.outlineType);
    var z := ToLower(y);
    TrimSpaceTrimmed(o.outlineType);
    assert Trimmed(z);
    TrimSpaceOfTrimmed(z);
    assert ToLower(z) == z;
  }

  /**
   * pickOutlineTitle: the title attribute when it has non-space content,
   * otherwise the text attribute; the label is blank only when both are.
   */
  function PickOutlineTitle(o: Outline): (r: string)
    ensures r == o.title || r == o.text
    ensures IsBlank(r) <==> IsBlank(o.title) && IsBlank(o.text)
    ensures !IsBlank(o.title) ==> r == o.title
    ensures IsBlank(o.title) ==> r == o.text
  {
    if !IsBlank(o.title) then o.title else o.text
  }

  /** Number of outlines import treats as folders: a feed outline's nested outlines are never looked at. */
  function FolderOutlineCount(o: Outline): nat
    decreases o
  {
    if IsFeedOutline(o) then 0 else 1 + FolderOutlineCountIn(o.children)
  }

  function FolderOutlineCountIn(os: seq<Outline>): nat
    decreases os
  {
    if |os| == 0 then 0 else FolderOutlineCount(os[0]) + FolderOutlineCountIn(os[1..])
  }

  /** Number of outlines import treats as feeds. */
  function FeedOutlineCount(o: Outline): nat
    decreases o
  {
    if IsFeedOutline(o) then 1 else FeedOutlineCountIn(o.children)
  }

  function FeedOutlineCountIn(os: seq<Outline>): nat
    decreases os
  {
    if |os| == 0 then 0 else FeedOutlineCount(os[0]) + FeedOutlineCountIn(os[1..])
  }
}
