/**
 * The Next.js middleware of src/middleware.ts: which paths it intercepts
 * (`config.matcher`), how it classifies them, what it extracts from the
 * request, and how it turns the access route's answer into an action. The
 * internal `fetch` of `/api/file-access` is a parameter.
 */
module Middleware {
  import opened Wrappers
  import opened JsStrings
  import FileAccess

  /** What the middleware reads from a request: the path, `request.ip` and two headers. */
  datatype Request = Request(
    pathname: string,
    ip: Option<string>,
    forwardedFor: Option<string>,
    authorization: Option<string>)

  /** The query parameters appended to `/api/file-access`. */
  datatype AccessQuery = AccessQuery(fileIdentifier: string, clientIp: string, authKey: Option<string>)

  /** The internal fetch: a JSON response, or a throw from `fetch` or `res.json()`. */
  datatype AccessReply = Reply(status: int, body: string) | FetchFailed

  /** `NextResponse.next()`, `NextResponse.redirect(...)` or `NextResponse.json(..., { status })`. */
  datatype Action = PassThrough | Redirect(target: string) | Respond(status: int, body: string)

  /** `request.ip || request.headers.get('x-forwarded-for') || ''` */
  function ClientIp(req: Request): (r: string)
    ensures FileAccess.Truthy(req.ip) ==> r == req.ip.value
    ensures !FileAccess.Truthy(req.ip) && req.forwardedFor.Some? ==> r == req.forwardedFor.value
    ensures !FileAccess.Truthy(req.ip) && req.forwardedFor.None? ==> r == ""
  {
    if FileAccess.Truthy(req.ip) then req.ip.value
    else if FileAccess.Truthy(req.forwardedFor) then req.forwardedFor.value
    else ""
  }

  /** The parameters of the access check: the last path segment, the client address, and the header only when it is truthy. */
  function QueryOf(req: Request): (r: AccessQuery)
    ensures '/' !in r.fileIdentifier
    ensures |r.fileIdentifier| <= |req.pathname| && req.pathname[|req.pathname| - |r.fileIdentifier|..] == r.fileIdentifier
    ensures r.clientIp == ClientIp(req)
    ensures r.authKey.Some? <==> FileAccess.Truthy(req.authorization)
    ensures r.authKey.Some? ==> r.authKey == req.authorization
  {
    AccessQuery(
      LastSegment(req.pathname, '/'),
      ClientIp(req),
      if FileAccess.Truthy(req.authorization) then req.authorization else None)
  }

  predicate IsAuthPath(path: string) {
    StartsWith(path, "/auth")
  }

  predicate IsFilePath(path: string) {
    StartsWith(path, "/api/files") || StartsWith(path, "/uploads")
  }

  predicate IsOk(status: int) {
    200 <= status <= 299
  }

  /** `middleware(request)`, with `hasToken` the outcome of `getToken`. */
  function Handle(req: Request, hasToken: bool, fetch: AccessQuery -> AccessReply): (a: Action)
    ensures a == Redirect("/dashboard") <==> IsAuthPath(req.pathname) && hasToken
    ensures a == Redirect("/auth/login") <==> !IsAuthPath(req.pathname) && !IsFilePath(req.pathname) && !hasToken
    ensures a.Respond? <==> !IsAuthPath(req.pathname) && IsFilePath(req.pathname) &&
                            (fetch(QueryOf(req)).FetchFailed? || !IsOk(fetch(QueryOf(req)).status))
    ensures a.Respond? ==> !IsOk(a.status)
  {
    if IsAuthPath(req.pathname) then
      if hasToken then Redirect("/dashboard") else PassThrough
    else if IsFilePath(req.pathname) then
      match fetch(QueryOf(req))
      case FetchFailed => Respond(500, "Internal Server Error")
      case Reply(status, body) => if !IsOk(status) then Respond(status, body) else PassThrough
    else if !hasToken then Redirect("/auth/login")
    else PassThrough
  }

  /**
   * `matcher: ['/((?!api|_next/static|_next/image|favicon.ico).*)']`: a path
   * runs the middleware unless what follows its leading `/` starts with one
   * of the excluded words (the `.` of `favicon.ico` matches any character).
   */
  function Intercepted(path: string): (b: bool)
    ensures b ==> |path| >= 1 && path[0] == '/'
    ensures b ==> !StartsWith(path, "/api") && !StartsWith(path, "/_next/static") && !StartsWith(path, "/_next/image")
    ensures (&& |path| >= 1 && path[0] == '/'
             && !StartsWith(path, "/api") && !StartsWith(path, "/_next/static") && !StartsWith(path, "/_next/image")
             && !(|path| >= 12 && path[1..8] == "favicon" && path[9..12] == "ico")) ==> b
  {
    if |path| >= 1 && path[0] == '/' then
      var rest := path[1..];
      ExclusionsAfterSlash(path);
      && !StartsWith(rest, "api") && !StartsWith(rest, "_next/static") && !StartsWith(rest, "_next/image")
      && !(|rest| >= 11 && rest[..7] == "favicon" && rest[8..11] == "ico")
    else false
  }

  /** After the leading `/`, each excluded prefix of the matcher is the same prefix of the whole path with the `/`. */
  lemma ExclusionsAfterSlash(path: string)
    requires |path| >= 1 && path[0] == '/'
    ensures StartsWith(path, "/api") <==> StartsWith(path[1..], "api")
    ensures StartsWith(path, "/_next/static") <==> StartsWith(path[1..], "_next/static")
    ensures StartsWith(path, "/_next/image") <==> StartsWith(path[1..], "_next/image")
    ensures (|path| >= 12 && path[1..8] == "favicon" && path[9..12] == "ico") <==>
            (|path[1..]| >= 11 && path[1..][..7] == "favicon" && path[1..][8..11] == "ico")
  {
    StartsWithTail(path, "api");
    assert [path[0]] + "api" == "/api";
    StartsWithTail(path, "_next/static");
    assert [path[0]] + "_next/static" == "/_next/static";
    StartsWithTail(path, "_next/image");
    assert [path[0]] + "_next/image" == "/_next/image";
    if |path| >= 12 {
      assert path[1..][..7] == path[1..8] && path[1..][8..11] == path[9..12];
    }
  }

  /** The application as a whole: paths the matcher skips go straight to their handler. */
  function Gateway(req: Request, hasToken: bool, fetch: AccessQuery -> AccessReply): (a: Action)
    ensures !Intercepted(req.pathname) ==> a == PassThrough
    ensures Intercepted(req.pathname) ==> a == Handle(req, hasToken, fetch)
  {
    if Intercepted(req.pathname) then Handle(req, hasToken, fetch) else PassThrough
  }

  /** The real `/api/file-access` route behind the fetch. */
  function AccessRoute(db: FileAccess.Db, foreign: FileAccess.Foreign): (route: AccessQuery -> AccessReply)
    ensures forall q :: route(q).Reply? &&
              (IsOk(route(q).status) <==>
                 FileAccess.Decide(Some(q.fileIdentifier), Some(q.clientIp), q.authKey, db, foreign) == FileAccess.Granted)
  {
    (q: AccessQuery) =>
      var v := FileAccess.Decide(Some(q.fileIdentifier), Some(q.clientIp), q.authKey, db, foreign);
      Reply(FileAccess.Status(v), FileAccess.Message(v))
  }

  /** The pages of the application run the middleware: the root, the dashboard and the login page. */
  lemma PagesIntercepted()
    ensures Intercepted("/") && Intercepted("/dashboard") && Intercepted("/auth/login")
  {
    var d, l := "/dashboard", "/auth/login";
    assert d[..4][1] == 'd' && "/api"[1] == 'a';
    assert l[..4][2] == 'u' && "/api"[2] == 'p';
    assert |d| == 10 && |l| == 11;
  }

  /** `/auth...` redirects a signed-in user to the dashboard and lets everyone else through. */
  lemma AuthPaths(req: Request, hasToken: bool, fetch: AccessQuery -> AccessReply)
    requires IsAuthPath(req.pathname)
    ensures Handle(req, hasToken, fetch) == if hasToken then Redirect("/dashboard") else PassThrough
  {
  }

  /** Every other path needs a token and otherwise redirects to the login page. */
  lemma OtherPathsNeedToken(req: Request, hasToken: bool, fetch: AccessQuery -> AccessReply)
    requires !IsAuthPath(req.pathname) && !IsFilePath(req.pathname)
    ensures Handle(req, hasToken, fetch) == if hasToken then PassThrough else Redirect("/auth/login")
  {
  }

  /** The identifier sent is what follows the last `/`: free of `/`, and the path ends with it. */
  lemma IdentifierIsLastSegment(req: Request)
    requires '/' in req.pathname
    ensures '/' !in QueryOf(req).fileIdentifier
    ensures req.pathname == Stem(req.pathname, '/') + "/" + QueryOf(req).fileIdentifier
    ensures QueryOf(req).fileIdentifier == "" <==> req.pathname[|req.pathname| - 1] == '/'
  {
  }

  /** A non-ok answer is returned with its status and body, an ok one lets the request through, a throw is 500. */
  lemma VerdictForwarded(req: Request, hasToken: bool, fetch: AccessQuery -> AccessReply)
    requires !IsAuthPath(req.pathname) && IsFilePath(req.pathname)
    ensures fetch(QueryOf(req)).FetchFailed? ==> Handle(req, hasToken, fetch) == Respond(500, "Internal Server Error")
    ensures fetch(QueryOf(req)).Reply? && !IsOk(fetch(QueryOf(req)).status) ==>
              Handle(req, hasToken, fetch) == Respond(fetch(QueryOf(req)).status, fetch(QueryOf(req)).body)
    ensures fetch(QueryOf(req)).Reply? && IsOk(fetch(QueryOf(req)).status) ==> Handle(req, hasToken, fetch) == PassThrough
  {
  }

  /** On a file path the token changes nothing: a signed-in owner is checked like anyone else. */
  lemma NoOwnerBypass(req: Request, fetch: AccessQuery -> AccessReply)
    requires !IsAuthPath(req.pathname) && IsFilePath(req.pathname)
    ensures Handle(req, true, fetch) == Handle(req, false, fetch)
  {
  }

  /** Under the matcher `/api/files...` never reaches the middleware, while `/uploads...` always does. */
  lemma OnlyUploadsChecked(path: string)
    ensures StartsWith(path, "/api/files") ==> !Intercepted(path)
    ensures StartsWith(path, "/uploads") ==> Intercepted(path) && !IsAuthPath(path) && IsFilePath(path)
  {
    if StartsWith(path, "/api/files") {
      assert path[1..][..3] == "api";
    }
    if StartsWith(path, "/uploads") {
      assert path[..8][1] == 'u' && path[..8][0] == '/';
      var rest := path[1..];
      assert rest[0] == 'u';
      assert !StartsWith(rest, "api") by { assert |rest| >= 3 ==> rest[..3][0] == 'u'; }
      assert !StartsWith(rest, "_next/static") by { assert |rest| >= 12 ==> rest[..12][0] == 'u'; }
      assert !StartsWith(rest, "_next/image") by { assert |rest| >= 11 ==> rest[..11][0] == 'u'; }
      assert !(|rest| >= 11 && rest[..7] == "favicon") by { assert |rest| >= 7 ==> rest[..7][0] == 'u'; }
      assert !IsAuthPath(path) by { assert |path| >= 5 ==> path[..5][1] == 'u'; }
    }
  }

  /** Composed with the real access route, an upload is served exactly when the decision grants it, and is refused with the decision's status and message otherwise. */
  lemma UploadsEnforceDecision(req: Request, hasToken: bool, db: FileAccess.Db, foreign: FileAccess.Foreign)
    requires StartsWith(req.pathname, "/uploads")
    ensures var q := QueryOf(req);
            var v := FileAccess.Decide(Some(q.fileIdentifier), Some(q.clientIp), q.authKey, db, foreign);
            Gateway(req, hasToken, AccessRoute(db, foreign)) ==
              if v == FileAccess.Granted then PassThrough else Respond(FileAccess.Status(v), FileAccess.Message(v))
  {
    OnlyUploadsChecked(req.pathname);
  }
}
