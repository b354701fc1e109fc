/** The Next.js middleware: pages other than sign-in need a verified `authToken` cookie. */
module Middleware {
  import opened Common

  /** `NextResponse.next()` or a redirect to `/signin`. */
  datatype Outcome = Next | RedirectToSignin

  /** `PUBLIC_PATHS.includes(pathname)` */
  predicate IsPublicPath(pathname: string) {
    pathname in ["/signin"]
  }

  /**
   * `middleware(request)`; `cookies` is the request's cookies by name and
   * `accepts` is `verifyToken`: true when the verifier accepts the token,
   * false when it throws.
   */
  function Handle(pathname: string, cookies: map<string, string>, accepts: string -> bool): (o: Outcome)
    ensures IsPublicPath(pathname) ==> o == Next
    ensures !IsPublicPath(pathname) ==>
              (o == Next <==> "authToken" in cookies && cookies["authToken"] != "" && accepts(cookies["authToken"]))
  {
    if IsPublicPath(pathname) then Next
    else
      var token := if "authToken" in cookies then Some(cookies["authToken"]) else None;
      if !Truthy(token) then RedirectToSignin
      else if !accepts(token.value) then RedirectToSignin
      else Next
  }

  /** A public path is served whatever the cookies and the verifier say. */
  lemma PublicPathIgnoresCookies(pathname: string, c1: map<string, string>, c2: map<string, string>,
                                 a1: string -> bool, a2: string -> bool)
    requires IsPublicPath(pathname)
    ensures Handle(pathname, c1, a1) == Handle(pathname, c2, a2) == Next
  {
  }

  /** Only the exact path is public: `/signin/` and `/signin?x` are not. */
  lemma OnlyExactSignin(pathname: string)
    requires StartsWith(pathname, "/signin") && pathname != "/signin"
    ensures !IsPublicPath(pathname)
  {
  }

  /**
   * `config.matcher`, `/((?!api|_next/static|_next/image|favicon.ico).*)`:
   * a path after whose leading `/` none of the excluded prefixes starts.
   * The `.` in `favicon.ico` is a regular-expression wildcard.
   */
  predicate Matches(pathname: string): (m: bool)
    ensures m ==> StartsWith(pathname, "/")
    ensures m ==> !StartsWith(pathname, "/api") && !StartsWith(pathname, "/_next/static")
                  && !StartsWith(pathname, "/_next/image") && !StartsWith(pathname, "/favicon.ico")
  {
    PrefixAfterSlash(pathname, "api");
    PrefixAfterSlash(pathname, "_next/static");
    PrefixAfterSlash(pathname, "_next/image");
    PrefixAfterSlash(pathname, "favicon.ico");
    |pathname| >= 1 && pathname[0] == '/' && !Excluded(pathname[1..])
  }

  /** A path that starts with `/` followed by `p` has a rest that starts with `p`. */
  lemma PrefixAfterSlash(pathname: string, p: string)
    ensures StartsWith(pathname, "/" + p) ==> |pathname| >= 1 && pathname[0] == '/' && StartsWith(pathname[1..], p)
  {
    if StartsWith(pathname, "/" + p) {
      assert pathname[0] == ("/" + p)[0];
      assert pathname[1..][..|p|] == ("/" + p)[1..];
    }
  }

  predicate Excluded(rest: string) {
    StartsWith(rest, "api") || StartsWith(rest, "_next/static") || StartsWith(rest, "_next/image")
    || (|rest| >= 11 && rest[..7] == "favicon" && rest[8..11] == "ico")
  }

  /** The exclusion is by prefix: `/apiary` and `/faviconXico` skip the middleware too. */
  lemma PrefixExclusion()
    ensures !Matches("/apiary")
    ensures !Matches("/faviconXico")
    ensures Matches("/signin") && Matches("/dashboard")
  {
    assert "apiary"[..3] == "api";
    assert "faviconXico"[..7] == "favicon" && "faviconXico"[8..11] == "ico";
    assert "signin"[0] == 's' && "dashboard"[0] == 'd';
  }
}
