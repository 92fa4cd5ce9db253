/**
 * The static-file handler of the web server (`GetStaticHandler`): how a
 * request path becomes a file path, the fallback to `index.html`, and the
 * Content-Type chosen from the file's extension. Whether a file can be
 * opened is a parameter `isFile`; the file bytes are served by the library
 * file server, which is not modelled.
 */
module StaticHandler {
  import opened Wrappers

  /** The handler's outcome for one request. */
  datatype Response =
    | Serve(path: string, contentType: string)  // the probe found `path`; the header is set and the file server runs
    | NotFound                                  // 404 "Not Found"
    | Panic                                     // `path[0]` on an empty path is out of range

  /** The rewrite at the top of the handler; `None` where the source indexes an empty path. */
  function RewritePath(urlPath: string): (r: Option<string>)
    ensures r.None? <==> urlPath == ""
    ensures urlPath == "/" ==> r == Some("/index.html")
    ensures r.Some? && urlPath != "/" && urlPath[0] == '/' ==> "/" + r.value == urlPath
    ensures r.Some? && urlPath[0] != '/' ==> r.value == urlPath
  {
    if urlPath == "" then None
    else if urlPath == "/" then Some("/index.html")
    else if urlPath[0] == '/' then Some(urlPath[1..])
    else Some(urlPath)
  }

  /** Go's `filepath.Ext` with `/` as separator: from the last `.` of the final element, or empty. */
  function Ext(path: string): (r: string)
    ensures r == "" || (r[0] == '.' && |r| <= |path| && r == path[|path| - |r|..])
    ensures forall i :: 1 <= i < |r| ==> r[i] != '.' && r[i] != '/'
    ensures r == "" ==> forall i :: 0 <= i < |path| && path[i] == '.' ==> '/' in path[i..]
  {
    if path == [] then ""
    else
      var last := path[|path| - 1];
      var init := path[..|path| - 1];
      if last == '/' then ""
      else if last == '.' then "."
      else
        var e := Ext(init);
        assert forall i :: 0 <= i < |init| ==> path[i..] == init[i..] + [last];
        if e == "" then "" else e + [last]
  }

  const OctetStream := "application/octet-stream"

  predicate IsKnownExtension(ext: string) {
    ext in {".html", ".css", ".js", ".mjs", ".json", ".png", ".jpg", ".jpeg", ".gif", ".svg", ".ico"}
  }

  /** The extension switch. */
  function ContentType(ext: string): (t: string)
    ensures t != OctetStream <==> IsKnownExtension(ext)
    ensures ext == ".js" || ext == ".mjs" ==> t == "application/javascript"
    ensures ext == ".jpg" || ext == ".jpeg" ==> t == "image/jpeg"
  {
    if ext == ".html" then "text/html"
    else if ext == ".css" then "text/css"
    else if ext == ".js" || ext == ".mjs" then "application/javascript"
    else if ext == ".json" then "application/json"
    else if ext == ".png" then "image/png"
    else if ext == ".jpg" || ext == ".jpeg" then "image/jpeg"
    else if ext == ".gif" then "image/gif"
    else if ext == ".svg" then "image/svg+xml"
    else if ext == ".ico" then "image/x-icon"
    else OctetStream
  }

  /** The whole handler: rewrite, probe, fall back to `index.html`, pick the Content-Type. */
  function ServeStatic(urlPath: string, isFile: string -> bool): (r: Response)
    ensures r == Panic <==> urlPath == ""
    ensures r.Serve? ==> isFile(r.path) && r.contentType == ContentType(Ext(r.path))
    ensures r.Serve? && r.path != RewritePath(urlPath).value ==> r.path == "index.html"
    ensures urlPath != "" && isFile(RewritePath(urlPath).value) ==> r.Serve? && r.path == RewritePath(urlPath).value
    ensures r == NotFound <==> urlPath != "" && !isFile(RewritePath(urlPath).value) && !isFile("index.html")
  {
    match RewritePath(urlPath)
    case None => Panic
    case Some(path) =>
      if isFile(path) then Serve(path, ContentType(Ext(path)))
      else if isFile("index.html") then Serve("index.html", ContentType(Ext("index.html")))
      else NotFound
  }

  /** `fs.ValidPath`-style names never start with `/`, so only they can be opened. */
  ghost predicate OnlyUnrootedFiles(isFile: string -> bool) {
    forall p :: isFile(p) ==> |p| > 0 && p[0] != '/'
  }

  /** The extension is exactly the final `.`-suffix when it holds no other `.` and no `/`. */
  lemma {:induction false} ExtOfDotSuffix(prefix: string, e: string)
    requires |e| > 0 && e[0] == '.'
    requires forall i :: 1 <= i < |e| ==> e[i] != '.' && e[i] != '/'
    ensures Ext(prefix + e) == e
    decreases |e|
  {
    var path := prefix + e;
    assert path[|path| - 1] == e[|e| - 1];
    if |e| > 1 {
      var e' := e[..|e| - 1];
      assert path[..|path| - 1] == prefix + e';
      ExtOfDotSuffix(prefix, e');
      assert e == e' + [e[|e| - 1]];
    }
  }

  /**
   * The rewrite of `/` keeps its slash, so the probe of `/index.html` fails on
   * an `fs.FS` and the page is found by the fallback instead, served as HTML.
   */
  lemma RootServedByFallback(isFile: string -> bool)
    requires OnlyUnrootedFiles(isFile) && isFile("index.html")
    ensures ServeStatic("/", isFile) == Serve("index.html", "text/html")
  {
    assert !isFile("/index.html");
    assert "index.html" == "index" + ".html";
    ExtOfDotSuffix("index", ".html");
  }
}
