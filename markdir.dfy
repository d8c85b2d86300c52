/**
  The request handler of markdir (markdir.go): a request whose URL path ends in
  `.md` or `/guide` is answered by reading the file at "." + path, converting
  it from Markdown to HTML and filling the page template; every other request
  goes to the static file server.

  The handler acts by writing to the response writer; here it returns a
  `Response` value that says what it writes. The file read and the Markdown
  converter are parameters.
 */
module Markdir {
  import opened Strings

  type byte = x: int | 0 <= x < 256

  /** What reading "." + path produced. */
  datatype ReadOutcome =
    | Contents(data: seq<byte>)   // the read succeeded
    | PathErr(message: string)    // the error is, or wraps, an `*os.PathError`
    | OtherErr(message: string)   // any other error

  /** The two fields the page template is executed with. */
  datatype Page = Page(path: string, body: string)

  /** What the handler does with the response writer. */
  datatype Response =
    | Delegate                                   // passed on to the static file handler
    | Error(status: int, message: string)        // `http.Error(rw, message, status)`
    | Rendered(contentType: string, page: Page)  // header set, then the template executed

  const MarkdownSuffix := ".md"
  const GuideSuffix := "/guide"
  const HtmlContentType := "text/html; charset=utf-8"
  const StatusNotFound := 404
  const StatusInternalServerError := 500

  /**
    The request paths the renderer answers itself: exactly those that are some
    string followed by `.md` or by `/guide`.
   */
  predicate Claims(path: string): (claimed: bool)
    ensures claimed <==>
      (exists u :: u + MarkdownSuffix == path) || (exists u :: u + GuideSuffix == path)
  {
    HasSuffixSplit(path, MarkdownSuffix);
    HasSuffixSplit(path, GuideSuffix);
    HasSuffix(path, MarkdownSuffix) || HasSuffix(path, GuideSuffix)
  }

  /** The file a claimed request reads, relative to the served directory. */
  function ReadTarget(path: string): (target: string)
    ensures |target| == |path| + 1 && target[0] == '.' && target[1..] == path
  {
    "." + path
  }

  /** Go's `string(b)`: the bytes kept one for one. */
  function BytesToString(b: seq<byte>): (s: string)
    ensures |s| == |b|
    ensures forall i :: 0 <= i < |b| ==> s[i] as int == b[i]
  {
    seq(|b|, i requires 0 <= i < |b| => b[i] as char)
  }

  /**
    `renderer.ServeHTTP` for a request with URL path `path`, where `readFile` gives
    the outcome of reading a file and `convert` is the Markdown converter.
    Every `*os.PathError` (a missing file, but also a permission error) is a 404;
    it is tested first, so it never becomes a 500. A failure while executing the
    template is ignored, so a successful read is always rendered.
   */
  function ServeHTTP(path: string, readFile: string -> ReadOutcome,
                     convert: seq<byte> -> seq<byte>): (r: Response)
    ensures r.Delegate? <==> !Claims(path)
    ensures r.Error? ==> r.status == StatusNotFound || r.status == StatusInternalServerError
    ensures r.Error? && r.status == StatusNotFound <==>
      Claims(path) && readFile(ReadTarget(path)).PathErr?
    ensures r.Error? && r.status == StatusNotFound ==> r.message == "Not Found: " + path
    ensures r.Error? && r.status == StatusInternalServerError <==>
      Claims(path) && readFile(ReadTarget(path)).OtherErr?
    ensures r.Error? && r.status == StatusInternalServerError ==>
      r.message == "Internal Server Error: " + readFile(ReadTarget(path)).message
    ensures r.Rendered? <==> Claims(path) && readFile(ReadTarget(path)).Contents?
    ensures r.Rendered? ==>
      r.contentType == HtmlContentType && r.page.path == path &&
      r.page.body == BytesToString(convert(readFile(ReadTarget(path)).data))
  {
    if !Claims(path) then Delegate
    else
      match readFile(ReadTarget(path))
      case PathErr(_) => Error(StatusNotFound, "Not Found" + ": " + path)
      case OtherErr(msg) => Error(StatusInternalServerError, "Internal Server Error: " + msg)
      case Contents(input) =>
        var output := convert(input);
        Rendered(HtmlContentType, Page(path, BytesToString(output)))
  }

  /**
    A request the renderer does not claim is passed on untouched: the answer does
    not depend on the file system or on the converter at all.
   */
  lemma UnclaimedReadsNothing(path: string, readFile1: string -> ReadOutcome, readFile2: string -> ReadOutcome,
                              convert1: seq<byte> -> seq<byte>, convert2: seq<byte> -> seq<byte>)
    requires !Claims(path)
    ensures ServeHTTP(path, readFile1, convert1) == Delegate
    ensures ServeHTTP(path, readFile1, convert1) == ServeHTTP(path, readFile2, convert2)
  {
  }

  /** The only file the handler looks at is "." + path. */
  lemma ReadsOnlyTarget(path: string, readFile1: string -> ReadOutcome, readFile2: string -> ReadOutcome,
                        convert: seq<byte> -> seq<byte>)
    requires readFile1(ReadTarget(path)) == readFile2(ReadTarget(path))
    ensures ServeHTTP(path, readFile1, convert) == ServeHTTP(path, readFile2, convert)
  {
  }

  /**
    Nothing in the handler removes `..` segments: a request path that climbs out of
    the served directory is claimed, and the file read is outside it.
   */
  lemma ParentSegmentIsRead(readFile: string -> ReadOutcome, convert: seq<byte> -> seq<byte>)
    requires readFile("./../secret.md").Contents?
    ensures Claims("/../secret.md")
    ensures ReadTarget("/../secret.md") == "./../secret.md"
    ensures ServeHTTP("/../secret.md", readFile, convert).Rendered?
  {
  }

  /** The converter is consulted only after a successful read. */
  lemma ConvertsOnlyAfterRead(path: string, readFile: string -> ReadOutcome,
                              convert1: seq<byte> -> seq<byte>, convert2: seq<byte> -> seq<byte>)
    requires !readFile(ReadTarget(path)).Contents?
    ensures ServeHTTP(path, readFile, convert1) == ServeHTTP(path, readFile, convert2)
  {
  }

  /**
    Matching is by exact suffix: one more character `c` keeps the path claimed only
    if it completes one of the two suffixes.
   */
  lemma ClaimsAppend(path: string, c: char)
    ensures Claims(path + [c]) <==>
      (c == 'd' && HasSuffix(path, ".m")) || (c == 'e' && HasSuffix(path, "/guid"))
  {
    HasSuffixSnoc(path, c, MarkdownSuffix);
    HasSuffixSnoc(path, c, GuideSuffix);
    assert MarkdownSuffix[..|MarkdownSuffix| - 1] == ".m";
    assert GuideSuffix[..|GuideSuffix| - 1] == "/guid";
  }

  /** `/x.md` and `/a/guide` are claimed; `foo.mdx`, `/guides`, `.markdown` and directories are not. */
  lemma ClaimsExamples()
    ensures Claims("/x.md") && Claims("/a/guide")
    ensures !Claims("foo.mdx") && !Claims("/guides")
    ensures !Claims("/notes.markdown") && !Claims("/docs/")
  {
  }

  // The template `outputTemplate`, split around its two substitution points.
  const TemplateHead := "\n<html>\n  <head>\n    <title>"
  const TemplateMiddle := "</title>\n\t<link rel=\"stylesheet\" href=\"index.css\">\n  </head>\n  <body>\n    "
  const TemplateTail := "\n  </body>\n</html>\n"

  /**
    Executing the template: the path goes through `escape` (the HTML escaping of
    `html/template`, a parameter here) into the title; the body is inserted verbatim.
   */
  function Execute(page: Page, escape: string -> string): (doc: string)
    ensures HasPrefix(doc, TemplateHead + escape(page.path) + TemplateMiddle)
    ensures HasSuffix(doc, TemplateTail)
  {
    TemplateHead + escape(page.path) + TemplateMiddle + page.body + TemplateTail
  }

  /**
    The body can be read back from the document between the fixed head and tail:
    it is inserted verbatim, and pages with the same path but different bodies
    give different documents.
   */
  lemma ExecuteBodyVerbatim(page: Page, escape: string -> string)
    ensures var doc := Execute(page, escape);
      var start := |TemplateHead + escape(page.path) + TemplateMiddle|;
      start + |TemplateTail| <= |doc| && doc[start..|doc| - |TemplateTail|] == page.body
  {
  }

  lemma ExecuteInjective(path: string, body1: string, body2: string, escape: string -> string)
    requires Execute(Page(path, body1), escape) == Execute(Page(path, body2), escape)
    ensures body1 == body2
  {
    ExecuteBodyVerbatim(Page(path, body1), escape);
    ExecuteBodyVerbatim(Page(path, body2), escape);
  }
}
