/**
 * src/middleware.ts: the route guard in front of the dashboard and the
 * sign-in pages. The `authorized` callback decides whether the request may
 * reach the middleware at all (otherwise the visitor is sent to sign in);
 * the middleware then redirects signed-in users away from the sign-in pages
 * and non-admins away from the admin pages.
 */
module Middleware {
  import opened Wrappers
  import Text

  /** The decoded JWT, as far as the guard reads it: `token.isAdmin`, absent counting as false. */
  datatype Jwt = Jwt(isAdmin: bool)

  datatype Decision = Next | Redirect(location: string) | SignIn

  const DashboardPath := "/dashboard"

  predicate IsAuthPage(path: string) {
    Text.StartsWith(path, "/login") || Text.StartsWith(path, "/register")
  }

  predicate IsAdminPage(path: string) {
    Text.StartsWith(path, "/dashboard/admin")
  }

  /** `config.matcher`: `/dashboard/:path*`, `/login` and `/register`. */
  predicate Matched(path: string) {
    path == "/dashboard" || Text.StartsWith(path, "/dashboard/") || path == "/login" || path == "/register"
  }

  /** The `authorized` callback. */
  function Authorized(path: string, token: Option<Jwt>): (r: bool)
    ensures IsAuthPage(path) ==> r
    ensures !IsAuthPage(path) && IsAdminPage(path) ==> (r <==> token.Some? && token.value.isAdmin)
    ensures !IsAuthPage(path) && !IsAdminPage(path) ==> (r <==> token.Some?)
  {
    if IsAuthPage(path) then true
    else if IsAdminPage(path) then token.Some? && token.value.isAdmin
    else token.Some?
  }

  /** The middleware function, reached only when `Authorized` holds. */
  function Decide(path: string, token: Option<Jwt>): (r: Decision)
    ensures r.Next? || r == Redirect(DashboardPath)
    ensures IsAuthPage(path) && token.Some? ==> r == Redirect(DashboardPath)
    ensures IsAdminPage(path) && !(token.Some? && token.value.isAdmin) ==> r == Redirect(DashboardPath)
    ensures r.Next? <==> !(IsAuthPage(path) && token.Some?) && !(IsAdminPage(path) && !(token.Some? && token.value.isAdmin))
  {
    if IsAuthPage(path) && token.Some? then Redirect(DashboardPath)
    else if IsAdminPage(path) && !(token.Some? && token.value.isAdmin) then Redirect(DashboardPath)
    else Next
  }

  /** The whole guard: unmatched paths pass untouched; a refused request is sent to sign in. */
  function Guard(path: string, token: Option<Jwt>): Decision {
    if !Matched(path) then Next
    else if !Authorized(path, token) then SignIn
    else Decide(path, token)
  }

  /** No admin page is served to a request whose token is absent or lacks `isAdmin`. */
  lemma AdminPagesNeedAdmin(path: string, token: Option<Jwt>)
    requires IsAdminPage(path) && Guard(path, token).Next?
    ensures token.Some? && token.value.isAdmin
  {
    assert Matched(path) by {
      assert path[..|"/dashboard/"|] == "/dashboard/";
    }
    assert !IsAuthPage(path) by {
      assert path[1] == 'd';
    }
  }

  /** No dashboard page is served without a token. */
  lemma DashboardNeedsToken(path: string, token: Option<Jwt>)
    requires Matched(path) && !IsAuthPage(path) && Guard(path, token).Next?
    ensures token.Some?
  {
  }

  /** A signed-in visitor never gets the sign-in pages; a signed-out one always does. */
  lemma AuthPagesOnlySignedOut(path: string, token: Option<Jwt>)
    requires path == "/login" || path == "/register"
    ensures Guard(path, token).Next? <==> token.None?
  {
    assert IsAuthPage(path);
    assert !IsAdminPage(path);
  }

  /** Paths outside the matcher are never redirected. */
  lemma UnmatchedPassThrough(path: string, token: Option<Jwt>)
    requires !Matched(path)
    ensures Guard(path, token) == Next
  {
  }
}
