/**
 The directory listing page: a fixed header with a heading naming the request
 path, a ".." link unless the path is the root, one `<li>` per usable entry in
 enumeration order, and a fixed footer. Names are concatenated raw: the handler
 escapes nothing.
 */
module Listing {
  import opened Wrappers
  import opened Paths

  /** What `DirEntry::file_type` reports, reduced to the one question the handler asks. */
  datatype FileKind = Directory | NotDirectory

  /**
   One item yielded by enumerating a directory: either an enumeration error,
   or an entry with its (already decoded) name and a file type that may be
   unavailable.
   */
  datatype DirEntry =
    | EntryError
    | Entry(name: string, kind: Option<FileKind>)

  /** Entries that produce a list item: enumerated without error and with a known file type. */
  predicate Usable(e: DirEntry) {
    e.Entry? && e.kind.Some?
  }

  predicate AllUsable(us: seq<DirEntry>) {
    forall k :: 0 <= k < |us| ==> Usable(us[k])
  }

  const PageStart := "<html><head><meta charset='utf-8'><title>目錄列表</title></head><body>"
  const PageEnd := "</ul></body></html>"

  function Heading(path: string): string {
    "<h2>目錄：/" + path + "</h2><ul>"
  }

  /** Everything before the ".." link: the fixed head and the heading. */
  function Header(path: string): string {
    PageStart + Heading(path)
  }

  function ParentItem(target: string): string {
    "<li><a href='/" + target + "'>.. (上層目錄)</a></li>"
  }

  /** The ".." item, present only below the root. */
  function ParentLink(path: string): string {
    if path == "" then "" else ParentItem(Parent(path))
  }

  /** The link text of a usable entry: directories get a trailing `/`. */
  function DisplayName(e: DirEntry): string
    requires Usable(e)
  {
    if e.kind.value == Directory then e.name + "/" else e.name
  }

  function LinkItem(href: string, text: string): string {
    "<li><a href='/" + href + "'>" + text + "</a></li>"
  }

  function Item(path: string, e: DirEntry): string
    requires Usable(e)
  {
    LinkItem(Href(path, e.name), DisplayName(e))
  }

  /** The entries that produce an item, in enumeration order. */
  function Survivors(es: seq<DirEntry>): (us: seq<DirEntry>)
    ensures |us| <= |es|
    ensures AllUsable(us)
    ensures forall e :: e in us <==> e in es && Usable(e)
    ensures |us| == |es| <==> AllUsable(es)
  {
    if es == [] then []
    else
      var rest := Survivors(es[1..]);
      assert forall e :: e in es <==> e == es[0] || e in es[1..];
      if Usable(es[0]) then [es[0]] + rest
      else
        assert |rest| < |es|;
        rest
  }

  /** The items of usable entries, one after another. */
  function Items(path: string, us: seq<DirEntry>): string
    requires AllUsable(us)
  {
    if us == [] then "" else Item(path, us[0]) + Items(path, us[1..])
  }

  /** The listing page, defined as filter-then-render over the enumerated entries. */
  function Page(path: string, es: seq<DirEntry>): string {
    Header(path) + ParentLink(path) + Items(path, Survivors(es)) + PageEnd
  }

  /**
   The handler's assembly loop: appends to one buffer, skipping enumeration
   errors and entries without a file type as it goes. It builds exactly the
   filter-then-render page.
   */
  method RenderListing(path: string, entries: seq<DirEntry>) returns (html: string)
    ensures html == Page(path, entries)
  {
    html := PageStart;
    html := html + Heading(path);
    if path != "" {
      var parent := match LastSlash(path) case Some(idx) => path[..idx] case None => "";
      html := html + ParentItem(parent);
    }
    var i := 0;
    while i < |entries|
      invariant 0 <= i <= |entries|
      invariant html == Header(path) + ParentLink(path) + Items(path, Survivors(entries[..i]))
    {
      var entry := entries[i];
      assert entries[..i + 1] == entries[..i] + [entry];
      ItemsStep(path, entries[..i], entry);
      if entry.Entry? {
        var fileName := entry.name;
        var href := if path == "" then fileName else path + "/" + fileName;
        match entry.kind {
          case Some(ft) =>
            if ft == Directory {
              html := html + LinkItem(href, fileName + "/");
            } else {
              html := html + LinkItem(href, fileName);
            }
          case None =>
        }
      }
      i := i + 1;
    }
    assert entries[..i] == entries;
    html := html + PageEnd;
  }

  lemma SurvivorsSnoc(es: seq<DirEntry>, e: DirEntry)
    ensures Survivors(es + [e]) == Survivors(es) + (if Usable(e) then [e] else [])
  {
    SurvivorsAppend(es, [e]);
  }

  /** Filtering commutes with concatenation: entries are never reordered. */
  lemma {:induction false} SurvivorsAppend(a: seq<DirEntry>, b: seq<DirEntry>)
    ensures Survivors(a + b) == Survivors(a) + Survivors(b)
  {
    if a == [] {
      assert a + b == b;
    } else {
      assert (a + b)[1..] == a[1..] + b;
      SurvivorsAppend(a[1..], b);
    }
  }

  /** The items of a concatenation are the items of each part, in order. */
  lemma {:induction false} ItemsAppend(path: string, a: seq<DirEntry>, b: seq<DirEntry>)
    requires AllUsable(a) && AllUsable(b)
    ensures AllUsable(a + b)
    ensures Items(path, a + b) == Items(path, a) + Items(path, b)
  {
    assert AllUsable(a + b) by {
      forall k | 0 <= k < |a + b|
        ensures Usable((a + b)[k])
      {
        if k < |a| { assert (a + b)[k] == a[k]; } else { assert (a + b)[k] == b[k - |a|]; }
      }
    }
    if a == [] {
      assert a + b == b;
    } else {
      var tail := a[1..];
      assert (a + b)[1..] == tail + b;
      ItemsAppend(path, tail, b);
      var first := Item(path, a[0]);
      assert Items(path, a + b) == first + Items(path, tail + b);
      assert Items(path, a) == first + Items(path, tail);
      Assoc(first, Items(path, tail), Items(path, b));
    }
  }

  /**
   The page of `a + b` lists the items of `a` before those of `b`, with nothing
   between them: enumeration order is kept and nothing is sorted.
   */
  lemma PageKeepsOrder(path: string, a: seq<DirEntry>, b: seq<DirEntry>)
    ensures Page(path, a + b)
         == Header(path) + ParentLink(path)
            + Items(path, Survivors(a)) + Items(path, Survivors(b)) + PageEnd
  {
    SurvivorsAppend(a, b);
    ItemsAppend(path, Survivors(a), Survivors(b));
    var head := Header(path) + ParentLink(path);
    var x, y := Items(path, Survivors(a)), Items(path, Survivors(b));
    Assoc(head, x, y);
  }

  lemma Assoc(a: string, b: string, c: string)
    ensures a + (b + c) == a + b + c
  {
  }

  /**
   Enumerating one more item adds exactly one `<li>`, after all earlier items,
   when the item is usable, and changes nothing otherwise.
   */
  lemma ItemsStep(path: string, es: seq<DirEntry>, e: DirEntry)
    ensures Usable(e) ==>
      Header(path) + ParentLink(path) + Items(path, Survivors(es + [e]))
      == Header(path) + ParentLink(path) + Items(path, Survivors(es)) + Item(path, e)
    ensures !Usable(e) ==> Survivors(es + [e]) == Survivors(es)
  {
    SurvivorsSnoc(es, e);
    if Usable(e) {
      ItemsAppend(path, Survivors(es), [e]);
      assert Items(path, [e]) == Item(path, e);
      Assoc(Header(path) + ParentLink(path), Items(path, Survivors(es)), Item(path, e));
    } else {
      assert Survivors(es) + [] == Survivors(es);
    }
  }

  /**
   On the page itself: a usable item adds its `<li>` just before the footer,
   an unusable one leaves the page unchanged.
   */
  lemma PageOneItemPerEntry(path: string, es: seq<DirEntry>, e: DirEntry)
    ensures Usable(e) ==>
      Page(path, es + [e])
      == Header(path) + ParentLink(path) + Items(path, Survivors(es)) + Item(path, e) + PageEnd
    ensures !Usable(e) ==> Page(path, es + [e]) == Page(path, es)
  {
    ItemsStep(path, es, e);
  }

  /**
   Every page starts with the fixed head and the heading `/path`, and ends
   with the fixed footer.
   */
  lemma PageFrame(path: string, es: seq<DirEntry>)
    ensures var page := Page(path, es);
      && |Header(path)| + |PageEnd| <= |page|
      && page[..|Header(path)|] == PageStart + "<h2>目錄：/" + path + "</h2><ul>"
      && page[|page| - |PageEnd|..] == PageEnd
  {
    var body := ParentLink(path) + Items(path, Survivors(es));
    Assoc(Header(path), ParentLink(path), Items(path, Survivors(es)));
    SplitAt(Header(path), body, PageEnd);
  }

  lemma SplitAt(x: string, y: string, z: string)
    ensures var s := x + y + z;
      && |x| + |z| <= |s|
      && s[..|x|] == x
      && s[|s| - |z|..] == z
  {
    var s := x + y + z;
    assert s == x + (y + z);
  }

  /**
   The ".." link follows the heading exactly when the path is not the root,
   points at the path's parent, and precedes every entry item; at the root the
   items follow the heading directly.
   */
  lemma PageParentLink(path: string, es: seq<DirEntry>)
    ensures path == "" ==> Page(path, es) == Header(path) + Items(path, Survivors(es)) + PageEnd
    ensures path != "" ==>
      Page(path, es) == Header(path) + ParentItem(Parent(path)) + Items(path, Survivors(es)) + PageEnd
  {
    if path == "" {
      assert Header(path) + ParentLink(path) == Header(path);
    }
  }

  /**
   A directory and a non-directory with the same name link to the same target:
   the directory's item differs only by a `/` after the displayed name, never in
   the href. The link target is always `/` followed by the href.
   */
  lemma DirectoryItemOnlyAddsSlash(path: string, name: string)
    ensures
      var prefix := "<li><a href='/" + Href(path, name) + "'>" + name;
      && Item(path, Entry(name, Some(NotDirectory))) == prefix + "</a></li>"
      && Item(path, Entry(name, Some(Directory))) == prefix + "/" + "</a></li>"
  {
  }
}
