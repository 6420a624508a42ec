/** The session gate run before every matched request: from the request path,
    the decoded session token (if any) and the current time it decides to let
    the request through, to send the visitor to the login page, or to send a
    signed-in visitor away from the public pages to the landing page of their
    role. */
module Middleware {
  import opened Wrappers

  /** The claims of a decoded session token that the gate reads: the expiry
      `exp` in seconds since the epoch and the `role` claim, either of which
      may be missing. */
  datatype Token = Token(exp: Option<int>, role: Option<string>)

  /** What the gate does with a request. */
  datatype Decision = PassThrough | RedirectTo(path: string)

  /** The roles with a landing page of their own; every other claim, and a
      missing one, is `OtherRole`. */
  datatype Role = Admin | Driver | Shop | OtherRole

  const LoginPath := "/login"

  /** The pages reachable without a session. */
  const PublicPaths: seq<string> := ["/login", "/register", "/about"]

  /** `publicPaths.includes(pathname)`: an exact match, so `/login/x` and
      `/dashboard` are protected. */
  function IsPublicPath(pathname: string): (b: bool)
    ensures b <==> pathname == "/login" || pathname == "/register" || pathname == "/about"
  {
    pathname in PublicPaths
  }

  /** `token?.exp ? Date.now() >= Number(token.exp) * 1000 : true`, with the
      clock reading `now` in milliseconds passed in. A missing token, a missing
      `exp` and an `exp` of 0 (falsy) all count as expired. */
  function IsTokenExpired(token: Option<Token>, now: int): (expired: bool)
    ensures !expired <==> (token.Some? && token.value.exp.Some? && token.value.exp.value != 0 &&
                           now < token.value.exp.value * 1000)
  {
    match token
    case None => true
    case Some(t) =>
      match t.exp
      case None => true
      case Some(e) => if e == 0 then true else now >= e * 1000
  }

  /** A token that is present and not expired. */
  predicate HasLiveSession(token: Option<Token>, now: int)
  {
    token.Some? && !IsTokenExpired(token, now)
  }

  /** The role claim compared with `===` against the three known roles. */
  function RoleOf(claim: Option<string>): (r: Role)
    ensures r == Admin <==> claim == Some("ADMIN")
    ensures r == Driver <==> claim == Some("DRIVER")
    ensures r == Shop <==> claim == Some("SHOP")
  {
    match claim
    case Some(c) =>
      if c == "ADMIN" then Admin
      else if c == "DRIVER" then Driver
      else if c == "SHOP" then Shop
      else OtherRole
    case None => OtherRole
  }

  /** Where a signed-in visitor on a public page is sent: a page under
      `/dashboard`, the role's own one or `/dashboard` itself for any other
      role. */
  function LandingPath(role: Role): (p: string)
    ensures |p| >= 10 && p[..10] == "/dashboard"
    ensures p == "/dashboard" <==> role == OtherRole
    ensures !IsPublicPath(p)
  {
    match role
    case Admin => "/dashboard/admin"
    case Driver => "/dashboard/driver"
    case Shop => "/dashboard/shop"
    case OtherRole => "/dashboard"
  }

  /** Each role lands on its own page, and none of them is a public page. */
  lemma LandingPathsDistinctAndProtected(r: Role, q: Role)
    ensures r != q ==> LandingPath(r) != LandingPath(q)
    ensures !IsPublicPath(LandingPath(r))
  {
  }

  /** The gate's decision for one request. */
  function Gate(pathname: string, token: Option<Token>, now: int): (d: Decision)
    // A protected page without a live session always goes to the login
    // page, whatever the role claim says.
    ensures !IsPublicPath(pathname) && !HasLiveSession(token, now) ==> d == RedirectTo(LoginPath)
    // A public page (login, register and also about) with a live session
    // goes to the role's landing page.
    ensures IsPublicPath(pathname) && HasLiveSession(token, now) ==>
              d == RedirectTo(LandingPath(RoleOf(token.value.role)))
    // The request passes through exactly when the page is public or the
    // session is live, but not both.
    ensures d == PassThrough <==> (IsPublicPath(pathname) != HasLiveSession(token, now))
    // A redirect to the login page only ever comes from a protected page.
    ensures d == RedirectTo(LoginPath) ==> !IsPublicPath(pathname)
  {
    var isPublic := IsPublicPath(pathname);
    var expired := IsTokenExpired(token, now);
    if !isPublic && (token.None? || expired) then
      RedirectTo(LoginPath)
    else if isPublic && token.Some? && !expired then
      RedirectTo(LandingPath(RoleOf(token.value.role)))
    else
      PassThrough
  }

  /** There is no redirect loop: following any redirect with the same token
      at the same time reaches a page that passes through. */
  lemma NoRedirectLoop(pathname: string, token: Option<Token>, now: int)
    ensures Gate(pathname, token, now).RedirectTo? ==>
              Gate(Gate(pathname, token, now).path, token, now) == PassThrough
  {
    if Gate(pathname, token, now).RedirectTo? && HasLiveSession(token, now) {
      LandingPathsDistinctAndProtected(RoleOf(token.value.role), OtherRole);
    }
  }

  /** Expiry is permanent: a token expired at `now` is expired at every later
      time. */
  lemma ExpiryIsPermanent(token: Option<Token>, now: int, later: int)
    requires now <= later && IsTokenExpired(token, now)
    ensures IsTokenExpired(token, later)
  {
  }

  /** On a protected page an expired token redirects to login, and changing
      its role claim changes nothing. */
  lemma ExpiredIgnoresRole(pathname: string, t: Token, role: Option<string>, now: int)
    requires !IsPublicPath(pathname) && IsTokenExpired(Some(t), now)
    ensures Gate(pathname, Some(t), now) == RedirectTo(LoginPath)
    ensures Gate(pathname, Some(t.(role := role)), now) == RedirectTo(LoginPath)
  {
  }

  /** A valid ADMIN session on the login page goes to the admin dashboard; the
      same session on the about page does too, and the dashboard it lands on
      passes through. At the expiry instant itself (1700000000 s is
      1700000000000 ms) the token has expired and the dashboard sends it to
      the login page. */
  lemma AdminLandingExample()
    ensures Gate("/login", Some(Token(Some(1700000000), Some("ADMIN"))), 1699999999999)
              == RedirectTo("/dashboard/admin")
    ensures Gate("/about", Some(Token(Some(1700000000), Some("ADMIN"))), 1699999999999)
              == RedirectTo("/dashboard/admin")
    ensures Gate("/dashboard/admin", Some(Token(Some(1700000000), Some("ADMIN"))), 1699999999999)
              == PassThrough
    ensures Gate("/dashboard/admin", Some(Token(Some(1700000000), Some("ADMIN"))), 1700000000000)
              == RedirectTo("/login")
  {
  }
}
