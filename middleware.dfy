/**
 * The request middleware (middleware.ts): from whether the visitor has a
 * session and the requested path, decide whether to send them to the login
 * page, to the dashboard, or let the request through.
 */
module Middleware {
  import opened Text

  /** The routes a visitor without a session may open; a path counts as public when it
      starts with one of them. */
  const PublicPaths: seq<string> := [
    "/login", "/signup", "/auth/callback", "/api/auth/callback",
    "/api/auth/signup", "/api/auth/login", "/api/auth/refresh"
  ]

  /** The outcome of asking the auth service for the session: it answers with or without a
      session, or the call throws. */
  datatype SessionLookup = Answered(hasSession: bool) | Failed

  /** A redirect to the same URL with its path replaced by `path`, or the request passing on. */
  datatype Decision = RedirectTo(path: string) | PassThrough

  /** `prefixes.some(p => pathname.startsWith(p))` */
  function AnyPrefix(prefixes: seq<string>, pathname: string): (r: bool)
    ensures r <==> exists i :: 0 <= i < |prefixes| && StartsWith(pathname, prefixes[i])
  {
    if prefixes == [] then false
    else StartsWith(pathname, prefixes[0]) || AnyPrefix(prefixes[1..], pathname)
  }

  predicate IsPublic(pathname: string) {
    AnyPrefix(PublicPaths, pathname)
  }

  /** The decision of `middleware` for a session lookup and a request path. */
  function Decide(lookup: SessionLookup, pathname: string): (d: Decision)
    ensures d.RedirectTo? ==> d.path == "/login" || d.path == "/dashboard"
  {
    match lookup
    case Failed => PassThrough
    case Answered(hasSession) =>
      if !hasSession && !IsPublic(pathname) then RedirectTo("/login")
      else if hasSession && (StartsWith(pathname, "/login") || StartsWith(pathname, "/signup")) then RedirectTo("/dashboard")
      else PassThrough
  }

  /** The three outcomes, each with exactly the condition that leads to it: without a session a
      non-public path goes to the login page, with a session the login and signup pages go to
      the dashboard, and everything else, a failed lookup included, passes. */
  lemma DecisionTable(lookup: SessionLookup, pathname: string)
    ensures Decide(lookup, pathname) == RedirectTo("/login")
        <==> lookup == Answered(false) && !IsPublic(pathname)
    ensures Decide(lookup, pathname) == RedirectTo("/dashboard")
        <==> lookup == Answered(true) && (StartsWith(pathname, "/login") || StartsWith(pathname, "/signup"))
    ensures Decide(lookup, pathname) == PassThrough
        <==> (|| lookup.Failed?
              || (lookup == Answered(false) && IsPublic(pathname))
              || (lookup == Answered(true) && !StartsWith(pathname, "/login") && !StartsWith(pathname, "/signup")))
  {
  }

  /** Matching is by prefix: any path that extends a public route is public too, so
      `/loginfoo` needs no session while `/dashboard` does. */
  lemma PublicByPrefix(route: string, rest: string)
    requires route in PublicPaths
    ensures IsPublic(route + rest)
  {
    var i :| 0 <= i < |PublicPaths| && PublicPaths[i] == route;
    assert (route + rest)[..|route|] == route;
  }

  lemma PublicExamples()
    ensures IsPublic("/loginfoo")
    ensures !IsPublic("/dashboard")
  {
    PublicByPrefix("/login", "foo");
    assert "/loginfoo" == "/login" + "foo";
    var p := "/dashboard";
    forall i | 0 <= i < |PublicPaths| ensures !StartsWith(p, PublicPaths[i]) {
      assert p[1] == 'd';
    }
  }

  /** Following a redirect ends the chain: the page redirected to passes for a visitor in the
      same state, so the middleware never loops. */
  lemma NoRedirectLoop(lookup: SessionLookup, pathname: string)
    requires Decide(lookup, pathname).RedirectTo?
    ensures Decide(lookup, Decide(lookup, pathname).path) == PassThrough
  {
    assert StartsWith("/login", PublicPaths[0]);
    var dashboard := "/dashboard";
    assert dashboard[1] == 'd';
    assert !StartsWith(dashboard, "/login") && !StartsWith(dashboard, "/signup");
  }

  /** The paths a signed-in visitor is sent away from are all public ones. */
  lemma SignedInRedirectsArePublic(pathname: string)
    requires Decide(Answered(true), pathname) == RedirectTo("/dashboard")
    ensures IsPublic(pathname)
  {
    assert StartsWith(pathname, PublicPaths[0]) || StartsWith(pathname, PublicPaths[1]);
  }

  /** A line terminator, which a regular-expression `.` does not match. */
  predicate LineTerminator(c: char) {
    c == '\n' || c == '\r' || c == '\U{2028}' || c == '\U{2029}'
  }

  /** `favicon.ico` as the matcher reads it, a regular expression: the `.` stands for any
      one character other than a line terminator. */
  predicate StartsLikeFavicon(s: string) {
    |s| >= 11 && s[..7] == "favicon" && !LineTerminator(s[7]) && s[8..11] == "ico"
  }

  /** The paths the middleware runs on: everything except those whose text after the leading
      `/` starts with `_next/static`, `_next/image`, `favicon.ico` (with its wildcard `.`) or
      `public`. */
  predicate Matched(pathname: string) {
    StartsWith(pathname, "/")
    && !AnyPrefix(["_next/static", "_next/image", "public"], pathname[1..])
    && !StartsLikeFavicon(pathname[1..])
  }

  /** The whole request path: the middleware decides on matched paths and leaves the others
      alone. */
  function Route(lookup: SessionLookup, pathname: string): Decision {
    if Matched(pathname) then Decide(lookup, pathname) else PassThrough
  }

  /** Static assets are served without a session: nothing under `/_next/static` is ever
      redirected. */
  lemma StaticAssetsPass(lookup: SessionLookup, rest: string)
    ensures Route(lookup, "/_next/static" + rest) == PassThrough
  {
    var p := "/_next/static" + rest;
    assert p[1..][..|"_next/static"|] == "_next/static";
  }

  /** `favicon`, any one character other than a line terminator, then `ico`, is excluded. */
  lemma FaviconAnyDot(c: char, rest: string)
    requires !LineTerminator(c)
    ensures StartsLikeFavicon("favicon" + [c] + "ico" + rest)
  {
    var s := "favicon" + [c] + "ico" + rest;
    assert s[..7] == "favicon" && s[7] == c && s[8..11] == "ico";
  }

  /** The `.` of `favicon.ico` is a wildcard: `/favicon.ico` and `/favicon-ico` both pass
      through. */
  lemma FaviconWildcard(lookup: SessionLookup)
    ensures Route(lookup, "/favicon.ico") == PassThrough
    ensures Route(lookup, "/favicon-ico") == PassThrough
  {
    FaviconAnyDot('.', "");
    assert "/favicon.ico"[1..] == "favicon" + ['.'] + "ico" + "";
    FaviconAnyDot('-', "");
    assert "/favicon-ico"[1..] == "favicon" + ['-'] + "ico" + "";
  }

  /** A path whose text after the `/` starts with neither `_` nor `p` is excluded only by the
      favicon pattern. */
  lemma NoListedPrefix(s: string)
    requires |s| > 0 && s[0] != '_' && s[0] != 'p'
    ensures !AnyPrefix(["_next/static", "_next/image", "public"], s)
  {
    var ps := ["_next/static", "_next/image", "public"];
    assert !StartsWith(s, ps[0]) && !StartsWith(s, ps[1]) && !StartsWith(s, ps[2]);
    assert ps[1..][1..][1..] == [];
  }

  /** Another extension is not excluded: `/favicon.png` reaches the session check. */
  lemma FaviconOtherExtension(lookup: SessionLookup)
    ensures Route(lookup, "/favicon.png") == Decide(lookup, "/favicon.png")
  {
    var rest := "/favicon.png"[1..];
    assert rest == "favicon.png";
    assert rest[0] == 'f' && rest[8] == 'p';
    assert rest[8..11] != "ico" by { assert rest[8..11][0] != "ico"[0]; }
    NoListedPrefix(rest);
  }
}
