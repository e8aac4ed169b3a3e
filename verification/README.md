# static-file-server: a Dafny model of the `static_or_dir` handler

The server answers `GET /` and the wildcard route `"/*path"` with one handler,
`static_or_dir` (`src/main.rs`). The handler takes the wildcard capture as the
request path. When there is no capture it uses the root `""`. That includes a
request whose capture cannot be extracted, such as `/%FF`, which decodes to
invalid UTF-8; such a request is served the root listing. It looks at `./path`:

- For a directory, it renders an HTML listing of the directory's entries, or a
  fixed HTML message when the directory cannot be opened for enumeration.
- For a file, it returns the file's bytes with a content type guessed from the path.
- For anything else, or a file that cannot be read, it returns 404.

The model keeps the handler's sequential logic and makes everything around it a parameter:

- `wrappers.dfy` (`Wrappers`): `Option`.
- `paths.dfy` (`Paths`): `rfind('/')`, the ".." link target, and the entry link target (href).
- `listing.dfy` (`Listing`): the enumerated entries and the page assembly.
  The page is defined once as filter-then-render (`Page`). It is defined a
  second time as the handler's single-buffer loop (`RenderListing`), and the
  two are proved equal.
- `handler.dfy` (`Handler`): the filesystem outcome, the response, and the dispatch.

The filesystem is the parameter `probe: string -> FsOutcome`. It says what is
at a request path: a directory with a readable or unreadable listing, a file
with readable or unreadable contents, or neither. The MIME lookup is the
parameter `mimeOf: string -> string`. Names are strings that are already
decoded. The page concatenates them raw, because the handler does no HTML escaping
and no URL encoding.

What `static_or_dir` does not do is as much part of its behaviour:

- It has no restricted-name filter and no canonicalisation or containment check.
- It does not sort entries or format sizes or dates.
- It does no `Last-Modified` / `If-Modified-Since` handling.
- It only ever answers 200 or 404.
- An unreadable directory gets a 200 HTML message; an unreadable file gets a 404.
- The ".." link appears only below the root and points at the path cut at its
  last `/`; for a path ending in `/` that is the same directory (`docs/` links to `docs`).
- A directory's href has no trailing slash. Only its displayed name gets one.

## Model

| member | source | states |
|---|---|---|
| `Paths.LastSlash` | src/main.rs:22 | the result is an index holding `/` with no `/` after it, and it is `None` exactly when the path holds no `/` |
| `Paths.Parent` | src/main.rs:21-28 | the ".." target is a prefix of the path. For a non-empty path it is strictly shorter. It is `""` when the path has no `/`. Otherwise the path has a `/` right after it and no `/` later |
| `Paths.ParentChain` | src/main.rs:21-28 | the chain of ".." targets from any path ends at `""` within `\|path\|` steps. Each target is the parent of the one before it and a strict prefix of the starting path. The chain reaches `""` only at its last step, since the root page has no ".." link |
| `Paths.ParentOfTrailingSlash` | src/main.rs:22-23 | for a path ending in `/`, the ".." target is the path minus that one `/`, that is, the same directory |
| `Paths.ParentOfHref` | src/main.rs:21-37 | for a name without `/`, the ".." target on the page at `Href(path, name)` is `path`. This holds at the root too |
| `Paths.HrefEndsWithName` | src/main.rs:33-37 | at the root the href is the bare name. Below the root it is `path`, one `/` and the name, with nothing between: prefix `path + "/"`, suffix the name, and length `\|path\| + 1 + \|name\|` |
| `Listing.Survivors` | src/main.rs:29-46 | the entries that produce an item are exactly the usable ones. An enumeration error or an unknown file type is dropped. Nothing is dropped exactly when all entries are usable |
| `Listing.SurvivorsAppend` | src/main.rs:29-46 | filtering commutes with concatenation, so entries are never reordered |
| `Listing.ItemsAppend` | src/main.rs:29-46 | the items of a concatenation are the items of each part, in order |
| `Listing.RenderListing` | src/main.rs:19-47 | the handler's append loop, which skips bad entries inline, builds exactly the filter-then-render page |
| `Listing.PageKeepsOrder` | src/main.rs:29-46 | on the page of `a + b`, the items of `a` come before those of `b`, with nothing between them. There is no sorting |
| `Listing.PageOneItemPerEntry` | src/main.rs:29-46 | one more usable entry adds exactly its own `<li>` just before the footer. An unusable one leaves the page unchanged |
| `Listing.PageFrame` | src/main.rs:19-47 | every page starts with the fixed head and `<h2>目錄：/path</h2><ul>`, and ends with `</ul></body></html>` |
| `Listing.PageParentLink` | src/main.rs:20-28 | the ".." item sits right after the heading and before every entry item, pointing at `/` + the parent, exactly when the path is non-empty |
| `Listing.DirectoryItemOnlyAddsSlash` | src/main.rs:38-43 | a directory and a non-directory with the same name share the link `'/' + href`. The directory's item differs only by a `/` after the displayed name |
| `Handler.StaticOrDir` | src/main.rs:8-63 | every response is 200 or 404. A 404 has an empty body. An HTML body comes exactly from a directory, and a byte body exactly from a readable file |
| `Handler.MissingCaptureIsRoot` | src/main.rs:9-12 | a request without a path capture is answered as the request for the empty (root) path |
| `Handler.DispatchCases` | src/main.rs:14-63 | the four outcomes: an unreadable directory gives the fixed 200 HTML message, a readable directory its listing page, a readable file 200 with its bytes and looked-up type, and an unreadable file or anything else 404 |
| `Handler.NotFoundExactly` | src/main.rs:49-63 | a 404 occurs exactly for "neither" and for an unreadable file. It carries no content type, and a directory never gets a 404 |
| `Handler.ListingResponseIsPage` | src/main.rs:14-48 | the body returned for a readable directory begins with the page head and heading for the request path, and ends with the footer |

## Left out

- `main`, the router, the TCP listener and `axum::serve` (src/main.rs:66-77): network I/O and the async runtime.
- The filesystem calls `is_dir`, `is_file`, `read_dir`, `fs::read` and `file_type`. They are replaced by the `probe` outcome and the `DirEntry` values. A change on disk between `is_dir` and `read_dir` is covered by the "unreadable directory" outcome.
- The semantics of `Path::new(".").join(&path)`. This includes absolute-path replacement and `..` segments. `probe` is indexed by the request path itself. The handler does no sanitisation, so the model states no containment property.
- `mime_guess::from_path(..).first_or_octet_stream()`: a foreign library, modelled as the uninterpreted `mimeOf`.
- URL parsing and percent-decoding of link targets. The facts about ".." and entry targets are facts about target strings. Reading them as "following the link in a browser" holds only for paths and names without `%`, `#`, `?`, `'` or a leading `/`.
- `to_string_lossy`: names are taken as already-decoded strings.
- HTTP response construction. It is reduced to status, optional content type and body. `HtmlContentType` is the header value attached by the framework's HTML responder. It is not written in `src/main.rs`.
