/**
 * The routing guard run before every request: static files pass, the
 * authentication API is open, other API routes need a session, the
 * authentication pages send signed-in users home, and every other page
 * sends anonymous users to the login page.
 *
 * The session token is a JSON Web Token (RFC 7519); the guard only checks
 * its shape, the `exp` claim (section 4.1.4 of RFC 7519) and the presence
 * of a user id. Base64 decoding and JSON parsing are an opaque `decode`
 * function that yields no payload when either fails.
 */
module Middleware {
  import opened Wrappers
  import opened Text

  const PublicPaths: seq<string> :=
    ["/auth/login", "/auth/register", "/auth/forgot-password", "/auth/reset-password", "/auth/verify-email"]
  const AuthApiPaths: seq<string> :=
    ["/api/auth/login", "/api/auth/register", "/api/auth/forgot-password", "/api/auth/reset-password", "/api/auth/verify-email"]

  /** `prefixes.some(p => path.startsWith(p))` */
  function StartsWithAny(path: string, prefixes: seq<string>): (r: bool)
    ensures r <==> exists i | 0 <= i < |prefixes| :: StartsWith(path, prefixes[i])
  {
    if prefixes == [] then false
    else
      assert forall i | 1 <= i < |prefixes| :: prefixes[i] == prefixes[1..][i - 1];
      StartsWith(path, prefixes[0]) || StartsWithAny(path, prefixes[1..])
  }

  /** When every prefix extends `q`, a path starting with one of them starts with `q`. */
  lemma AnyPrefixExtends(path: string, prefixes: seq<string>, q: string)
    requires forall i | 0 <= i < |prefixes| :: StartsWith(prefixes[i], q)
    ensures StartsWithAny(path, prefixes) ==> StartsWith(path, q)
  {
  }

  /** The authentication pages, all under "/auth/". */
  predicate IsPublicPath(path: string)
    ensures IsPublicPath(path) ==> StartsWith(path, "/auth/") && !StartsWith(path, "/api/")
  {
    AnyPrefixExtends(path, PublicPaths, "/auth/");
    assert StartsWith(path, "/auth/") ==> path[..6][2] == 'u' && (|path| >= 5 ==> path[..5][2] == path[..6][2]);
    StartsWithAny(path, PublicPaths)
  }

  /** The authentication API, all under "/api/auth/". */
  predicate IsPublicApiPath(path: string)
    ensures IsPublicApiPath(path) ==> StartsWith(path, "/api/auth/") && StartsWith(path, "/api/")
  {
    AnyPrefixExtends(path, AuthApiPaths, "/api/auth/");
    assert StartsWith(path, "/api/auth/") ==> path[..5] == "/api/";
    StartsWithAny(path, AuthApiPaths)
  }

  /** The claims the guard looks at; `exp` is in seconds since the epoch. */
  datatype Payload = Payload(exp: Option<int>, userId: Option<string>)

  /** `payload.exp && payload.exp * 1000 < now`: a zero or missing `exp` never expires. */
  predicate IsExpired(p: Payload, now: int) {
    p.exp.Some? && p.exp.value != 0 && p.exp.value * 1000 < now
  }

  /** `!!payload.userId` */
  predicate HasUserId(p: Payload) {
    p.userId.Some? && p.userId.value != ""
  }

  /** The base64url alphabet mapped back to base64: '-' to '+', '_' to '/'. */
  function FromBase64Url(s: string): (r: string)
    ensures |r| == |s|
    ensures forall i | 0 <= i < |s| ::
      r[i] == if s[i] == '-' then '+' else if s[i] == '_' then '/' else s[i]
  {
    if s == [] then []
    else [if s[0] == '-' then '+' else if s[0] == '_' then '/' else s[0]] + FromBase64Url(s[1..])
  }

  /**
   * `isValidJwt`: exactly three dot-separated parts, a payload that decodes,
   * not expired at `now` (milliseconds), with a user id.
   */
  function IsValidJwt(token: string, decode: string -> Option<Payload>, now: int): (r: bool)
    ensures r ==> CountChar(token, '.') == 2
    ensures r <==>
      && CountChar(token, '.') == 2
      && decode(FromBase64Url(Split(token, '.')[1])).Some?
      && !IsExpired(decode(FromBase64Url(Split(token, '.')[1])).value, now)
      && HasUserId(decode(FromBase64Url(Split(token, '.')[1])).value)
  {
    var parts := Split(token, '.');
    if |parts| != 3 then false
    else
      match decode(FromBase64Url(parts[1]))
      case None => false
      case Some(payload) =>
        if IsExpired(payload, now) then false else HasUserId(payload)
  }

  datatype Response =
    | Next                                       // NextResponse.next()
    | Unauthorized(status: int, error: string)   // a JSON error response
    | Redirect(location: string)                 // a redirect to a path on the same origin

  /** Framework paths, the favicon, and any path with a dot anywhere in it. */
  predicate IsStatic(path: string)
    ensures IsStatic(path) <==> StartsWith(path, "/_next") || StartsWith(path, "/favicon") || '.' in path
  {
    StartsWith(path, "/_next") || StartsWith(path, "/favicon") || ContainsChar(path, '.')
  }

  /** `token ? isValidJwt(token) : false`: an absent or empty cookie is no session. */
  predicate IsAuthenticated(token: Option<string>, decode: string -> Option<Payload>, now: int)
    ensures IsAuthenticated(token, decode, now) ==> token.Some? && CountChar(token.value, '.') == 2
  {
    token.Some? && token.value != "" && IsValidJwt(token.value, decode, now)
  }

  /** The decision chain of `middleware`, in the source's order. */
  function Decide(path: string, token: Option<string>, decode: string -> Option<Payload>, now: int): (r: Response)
    ensures r.Unauthorized? ==>
      r == Unauthorized(401, "Not authenticated.") && StartsWith(path, "/api/") && !IsAuthenticated(token, decode, now)
    ensures r.Redirect? ==>
      && !IsStatic(path) && !StartsWith(path, "/api/")
      && (r.location == "/" <==> IsAuthenticated(token, decode, now))
      && (r.location == "/" ==> IsPublicPath(path))
      && (r.location != "/" ==> r.location == "/auth/login" && !IsPublicPath(path))
    ensures r == Next && !IsAuthenticated(token, decode, now) ==>
      IsStatic(path) || IsPublicApiPath(path) || IsPublicPath(path)
  {
    if IsStatic(path) then Next
    else
      var authenticated := IsAuthenticated(token, decode, now);
      if IsPublicApiPath(path) then Next
      else if StartsWith(path, "/api/") then
        if !authenticated then Unauthorized(401, "Not authenticated.") else Next
      else if IsPublicPath(path) then
        if authenticated then Redirect("/") else Next
      else if !authenticated then Redirect("/auth/login")
      else Next
  }

  /** No page or API route of the authentication flow, nor the home page, counts as static. */
  lemma FlowPathsAreNotStatic()
    ensures forall i | 0 <= i < |PublicPaths| :: !IsStatic(PublicPaths[i])
    ensures forall i | 0 <= i < |AuthApiPaths| :: !IsStatic(AuthApiPaths[i])
    ensures !IsStatic("/") && !IsStatic("/api/board")
  {
    forall i | 0 <= i < |PublicPaths|
      ensures !IsStatic(PublicPaths[i])
    {
      PlainPathNotStatic(PublicPaths[i]);
    }
    forall i | 0 <= i < |AuthApiPaths|
      ensures !IsStatic(AuthApiPaths[i])
    {
      PlainPathNotStatic(AuthApiPaths[i]);
    }
    PlainPathNotStatic("/api/board");
  }

  /** A path of lower-case letters, '-' and '/' whose second character is not 'f' is not static. */
  lemma PlainPathNotStatic(p: string)
    requires |p| >= 2 && p[1] != 'f'
    requires forall k | 0 <= k < |p| :: 'a' <= p[k] <= 'z' || p[k] == '-' || p[k] == '/'
    ensures !IsStatic(p)
  {
  }

  /** Static files and framework paths pass whatever the token. */
  lemma StaticPassesThrough(path: string, token: Option<string>, decode: string -> Option<Payload>, now: int)
    requires IsStatic(path)
    ensures Decide(path, token, decode, now) == Next
  {
  }

  /** The public-path checks are prefix matches: a path merely starting like a public page is public. */
  lemma PublicPathIsPrefixMatch()
    ensures IsPublicPath("/auth/login-x")
    ensures IsPublicApiPath("/api/auth/login/extra")
    ensures !IsPublicPath("/") && !IsPublicApiPath("/api/board")
  {
    assert StartsWith("/auth/login-x", PublicPaths[0]);
    assert StartsWith("/api/auth/login/extra", AuthApiPaths[0]);
  }

  /**
   * Outside static paths: the authentication API always passes; any other
   * API path answers 401 without a session and passes with one.
   */
  lemma ApiGuard(path: string, token: Option<string>, decode: string -> Option<Payload>, now: int)
    requires !IsStatic(path)
    ensures IsPublicApiPath(path) ==> Decide(path, token, decode, now) == Next
    ensures !IsPublicApiPath(path) && StartsWith(path, "/api/") ==>
      (Decide(path, token, decode, now) == Next <==> IsAuthenticated(token, decode, now))
      && (!IsAuthenticated(token, decode, now) ==> Decide(path, token, decode, now) == Unauthorized(401, "Not authenticated."))
  {
  }

  /**
   * Pages: an authentication page sends a signed-in user to "/", every other
   * page sends an anonymous user to "/auth/login"; all else passes.
   */
  lemma PageGuard(path: string, token: Option<string>, decode: string -> Option<Payload>, now: int)
    requires !IsStatic(path) && !IsPublicApiPath(path) && !StartsWith(path, "/api/")
    ensures var auth := IsAuthenticated(token, decode, now);
      Decide(path, token, decode, now) == (
        if IsPublicPath(path) then (if auth then Redirect("/") else Next)
        else if auth then Next else Redirect("/auth/login"))
  {
  }

  /** "/" is an ordinary page: not static, not an API path, not an authentication page. */
  lemma HomeIsOrdinaryPage()
    ensures !IsStatic("/") && !IsPublicApiPath("/") && !StartsWith("/", "/api/") && !IsPublicPath("/")
  {
    var home: string := "/";
    assert !ContainsChar(home, '.') by { assert home[0] != '.'; }
  }

  /** "/auth/login" is an authentication page and neither static nor an API path. */
  lemma LoginIsPublicPage()
    ensures !IsStatic("/auth/login") && !IsPublicApiPath("/auth/login")
    ensures !StartsWith("/auth/login", "/api/") && IsPublicPath("/auth/login")
  {
    FlowPathsAreNotStatic();
    assert PublicPaths[0] == "/auth/login";
    assert StartsWith("/auth/login", PublicPaths[0]);
  }

  /** A redirect never leads to another redirect for the same caller: there is no loop. */
  lemma NoRedirectLoop(path: string, token: Option<string>, decode: string -> Option<Payload>, now: int)
    requires Decide(path, token, decode, now).Redirect?
    ensures Decide(Decide(path, token, decode, now).location, token, decode, now) == Next
  {
    HomeIsOrdinaryPage();
    LoginIsPublicPage();
  }

  /**
   * A token is valid only with exactly two dots; a decoding failure, an
   * expired `exp` or a missing user id each make it invalid.
   */
  lemma JwtRejections(token: string, decode: string -> Option<Payload>, now: int)
    ensures CountChar(token, '.') != 2 ==> !IsValidJwt(token, decode, now)
    ensures CountChar(token, '.') == 2 ==>
      var payload := decode(FromBase64Url(Split(token, '.')[1]));
      && (payload.None? ==> !IsValidJwt(token, decode, now))
      && (payload.Some? && IsExpired(payload.value, now) ==> !IsValidJwt(token, decode, now))
      && (payload.Some? && !HasUserId(payload.value) ==> !IsValidJwt(token, decode, now))
  {
  }

  /** A token whose `exp` is exactly now (in seconds) is still accepted. */
  lemma ExpiryBoundaryAccepted(exp: int, user: string)
    requires user != ""
    ensures !IsExpired(Payload(Some(exp), Some(user)), exp * 1000)
  {
  }
}
