/**
 The request handler `static_or_dir`: picks the request path out of the
 optional wildcard capture, asks the filesystem what is at that path, and
 answers with a listing page, a fixed message, the file's bytes, or 404.
 The filesystem and the MIME lookup are parameters of the model.
 */
module Handler {
  import opened Wrappers
  import opened Paths
  import opened Listing

  type byte = b: int | 0 <= b < 256

  /**
   What the filesystem says about the requested path: a directory whose
   enumeration could or could not be opened, a regular file whose contents
   could or could not be read, or neither.
   */
  datatype FsOutcome =
    | IsDirectory(listing: Option<seq<DirEntry>>)
    | IsFile(content: Option<seq<byte>>)
    | Neither

  datatype Body = Empty | Html(text: string) | Bytes(data: seq<byte>)

  datatype Response = Response(status: nat, contentType: Option<string>, body: Body)

  const Ok := 200
  const NotFound := 404

  /** The content type the framework's HTML responder attaches. */
  const HtmlContentType := "text/html; charset=utf-8"

  const UnreadableDirectoryPage := "<h1>無法讀取目錄</h1>"

  function HtmlResponse(text: string): Response {
    Response(Ok, Some(HtmlContentType), Html(text))
  }

  function NotFoundResponse(): Response {
    Response(NotFound, None, Empty)
  }

  /** The request path: the wildcard capture, or the root when the route had none. */
  function RequestPath(capture: Option<string>): string {
    match capture
    case Some(p) => p
    case None => ""
  }

  /**
   The handler. `probe` answers the directory and file tests and the reads for
   a request path; `mimeOf` is the content-type lookup by path.
   */
  function StaticOrDir(capture: Option<string>, probe: string -> FsOutcome, mimeOf: string -> string): (r: Response)
    ensures r.status == Ok || r.status == NotFound
    ensures r.status == NotFound <==> r.body == Empty
    ensures r.body.Html? <==> probe(RequestPath(capture)).IsDirectory?
    ensures r.body.Bytes? <==> probe(RequestPath(capture)).IsFile? && probe(RequestPath(capture)).content.Some?
  {
    var path := RequestPath(capture);
    match probe(path)
    case IsDirectory(None) => HtmlResponse(UnreadableDirectoryPage)
    case IsDirectory(Some(entries)) => HtmlResponse(Page(path, entries))
    case IsFile(Some(content)) => Response(Ok, Some(mimeOf(path)), Bytes(content))
    case IsFile(None) => NotFoundResponse()
    case Neither => NotFoundResponse()
  }

  /** A request to `/` behaves as a wildcard request whose capture is empty. */
  lemma MissingCaptureIsRoot(probe: string -> FsOutcome, mimeOf: string -> string)
    ensures StaticOrDir(None, probe, mimeOf) == StaticOrDir(Some(""), probe, mimeOf)
    ensures StaticOrDir(None, probe, mimeOf).body.Html? ==> probe("").IsDirectory?
  {
  }

  /**
   The handler's answer, case by case: an unreadable directory still gets a
   200 HTML message, a readable directory its listing page, a readable file
   200 with its bytes and looked-up type, and everything else 404.
   */
  lemma DispatchCases(path: string, probe: string -> FsOutcome, mimeOf: string -> string)
    ensures var r := StaticOrDir(Some(path), probe, mimeOf);
      match probe(path)
      case IsDirectory(None) =>
        r.status == Ok && r.contentType == Some(HtmlContentType) && r.body == Html(UnreadableDirectoryPage)
      case IsDirectory(Some(es)) =>
        r.status == Ok && r.contentType == Some(HtmlContentType) && r.body == Html(Page(path, es))
      case IsFile(Some(bytes)) =>
        r.status == Ok && r.contentType == Some(mimeOf(path)) && r.body == Bytes(bytes)
      case IsFile(None) => r == Response(NotFound, None, Empty)
      case Neither => r == Response(NotFound, None, Empty)
  {
  }

  /**
   A 404 carries no body and no content type, and happens exactly when the
   path is neither a directory nor a readable file; a directory is never 404.
   */
  lemma NotFoundExactly(capture: Option<string>, probe: string -> FsOutcome, mimeOf: string -> string)
    ensures var r := StaticOrDir(capture, probe, mimeOf);
      var o := probe(RequestPath(capture));
      && (r.status == NotFound <==> o.Neither? || o == IsFile(None))
      && (r.status == NotFound ==> r.contentType.None?)
      && (o.IsDirectory? ==> r.status == Ok)
  {
  }

  /**
   A listing response body is a complete page for the request path: it starts
   with the fixed head and heading and ends with the footer.
   */
  lemma ListingResponseIsPage(path: string, es: seq<DirEntry>, probe: string -> FsOutcome, mimeOf: string -> string)
    requires probe(path) == IsDirectory(Some(es))
    ensures var r := StaticOrDir(Some(path), probe, mimeOf);
      && r.body.Html?
      && |Header(path)| + |PageEnd| <= |r.body.text|
      && r.body.text[..|Header(path)|] == PageStart + "<h2>目錄：/" + path + "</h2><ul>"
      && r.body.text[|r.body.text| - |PageEnd|..] == PageEnd
  {
    PageFrame(path, es);
  }
}
