/**
 Path strings as the directory handler manipulates them: the request path is
 the decoded wildcard capture, a `/`-separated string (`""` is the root); the parent
 link target is the path cut at its last `/` (so for a path ending in `/`,
 such as `"docs/"`, it is the same directory `"docs"`), and an entry's link
 target is the entry name appended to the request path.
 */
module Paths {
  import opened Wrappers

  /** `p` is a prefix of `s` that is strictly shorter than `s`. */
  predicate IsStrictPrefix(p: string, s: string) {
    |p| < |s| && p == s[..|p|]
  }

  /**
   The character index of the last `'/'` in `s`. Rust's `str::rfind('/')`
   gives a byte offset instead; the prefix before it is the same string.
   */
  function LastSlash(s: string): (r: Option<nat>)
    ensures r.Some? ==> r.value < |s| && s[r.value] == '/'
    ensures r.Some? ==> forall j :: r.value < j < |s| ==> s[j] != '/'
    ensures r.None? <==> '/' !in s
  {
    if |s| == 0 then None
    else if s[|s| - 1] == '/' then Some(|s| - 1)
    else
      assert s == s[..|s| - 1] + [s[|s| - 1]];
      LastSlash(s[..|s| - 1])
  }

  /**
   The target of the ".." link on the listing page of `path`: everything
   before the last `'/'`, or the root `""` when there is no `'/'`. A path
   ending in `'/'` has the same directory as its target: `"docs/"` gives `"docs"`.
   */
  function Parent(path: string): (parent: string)
    ensures |parent| <= |path| && parent == path[..|parent|]
    ensures path != "" ==> IsStrictPrefix(parent, path)
    ensures '/' !in path ==> parent == ""
    ensures '/' in path ==> path[|parent|] == '/' && '/' !in path[|parent| + 1..]
  {
    match LastSlash(path)
    case Some(i) => path[..i]
    case None => ""
  }

  /** The link target of entry `name` on the listing page of `path` (without the leading `/`). */
  function Href(path: string, name: string): string {
    if path == "" then name else path + "/" + name
  }

  /**
   The ".." target on the page at an entry's link target `Href(path, name)` is
   `path` itself, provided the name holds no `'/'`.
   */
  lemma ParentOfHref(path: string, name: string)
    requires '/' !in name
    ensures Parent(Href(path, name)) == path
  {
    var h := Href(path, name);
    if path != "" {
      assert h[|path|] == '/';
      var p := Parent(h);
      assert |p| == |path|;
      assert p == h[..|path|] == path;
    }
  }

  /**
   A link target is the bare name at the root; below it, the request path, one
   `/` and the name, with nothing else.
   */
  lemma HrefEndsWithName(path: string, name: string)
    ensures var h := Href(path, name); |name| <= |h| && h[|h| - |name|..] == name
    ensures path == "" ==> Href(path, name) == name
    ensures path != "" ==> |path| < |Href(path, name)| && Href(path, name)[..|path| + 1] == path + "/"
    ensures path != "" ==> |Href(path, name)| == |path| + 1 + |name|
  {
  }

  /**
   The successive ".." targets starting from `path`: each is the ".." target
   of the one before, and the chain stops at the root `""`, whose page has no
   ".." link.
   */
  function ParentChain(path: string): (chain: seq<string>)
    ensures |chain| <= |path|
    ensures chain == [] <==> path == ""
    ensures chain != [] ==> chain[|chain| - 1] == "" && chain[0] == Parent(path)
    ensures forall k :: 0 <= k < |chain| ==> IsStrictPrefix(chain[k], path)
    ensures forall k :: 0 < k < |chain| ==> chain[k] == Parent(chain[k - 1])
    ensures forall k :: 0 <= k < |chain| - 1 ==> chain[k] != ""
    decreases |path|
  {
    if path == "" then []
    else
      var up := Parent(path);
      var rest := ParentChain(up);
      assert forall k :: 0 <= k < |rest| ==> IsStrictPrefix(rest[k], path) by {
        forall k | 0 <= k < |rest|
          ensures IsStrictPrefix(rest[k], path)
        {
          PrefixTransitive(rest[k], up, path);
        }
      }
      [up] + rest
  }

  /** A trailing `/` is cut off and nothing more: the ".." target of `"docs/"` is `"docs"`. */
  lemma ParentOfTrailingSlash(path: string)
    requires path != "" && path[|path| - 1] == '/'
    ensures Parent(path) == path[..|path| - 1]
  {
  }

  lemma PrefixTransitive(a: string, b: string, c: string)
    requires IsStrictPrefix(a, b) && IsStrictPrefix(b, c)
    ensures IsStrictPrefix(a, c)
  {
  }
}
