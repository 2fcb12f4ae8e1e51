/**
 * The route gate run before every page and API request: authentication pages pass,
 * unauthenticated requests are sent to the login page, and SALES users are kept out
 * of the inventory and analytics pages.
 */
module Middleware {
  import opened Wrappers
  import opened Roles

  /** The decoded session token; `role` is whatever string the token carries. */
  datatype Token = Token(role: string)

  datatype Decision =
    | Next
    | Redirect(location: string, callbackUrl: string)
    | Rewrite(location: string)

  /** `pathname.startsWith(prefix)`. */
  predicate StartsWith(pathname: string, prefix: string)
  {
    prefix <= pathname
  }

  /** The login page and the authentication endpoints. */
  predicate IsPublic(pathname: string)
  {
    StartsWith(pathname, "/login") || StartsWith(pathname, "/api/auth")
  }

  /** The pages closed to the SALES role. */
  predicate IsSalesRestricted(pathname: string)
  {
    StartsWith(pathname, "/inventory") || StartsWith(pathname, "/analytics")
  }

  /** The gate's decision for a request to `pathname` carrying `token`. */
  function Gate(pathname: string, token: Option<Token>): (d: Decision)
    ensures d.Redirect? <==> !IsPublic(pathname) && token.None?
    ensures d.Rewrite? <==> !IsPublic(pathname) && token.Some? && token.value.role == RoleName(Sales) && IsSalesRestricted(pathname)
    ensures d.Redirect? ==> d == Redirect("/login", pathname)
    ensures d.Rewrite? ==> d == Rewrite("/unauthorized")
  {
    if IsPublic(pathname) then Next
    else if token.None? then Redirect("/login", pathname)
    else if token.value.role == RoleName(Sales) && IsSalesRestricted(pathname) then Rewrite("/unauthorized")
    else Next
  }

  /** Public paths pass whether or not a token is present; this check comes before the token check. */
  lemma PublicPathsPass(pathname: string, token: Option<Token>)
    requires IsPublic(pathname)
    ensures Gate(pathname, token) == Next
  {
  }

  /** Without a token every other path redirects to /login, remembering where it came from. */
  lemma MissingTokenRedirects(pathname: string)
    requires !IsPublic(pathname)
    ensures Gate(pathname, None) == Redirect("/login", pathname)
  {
  }

  /** A token whose role is anything but SALES (ADMIN, or an unknown string) always passes. */
  lemma OtherRolesPass(pathname: string, role: string)
    requires role != RoleName(Sales)
    ensures Gate(pathname, Some(Token(role))) == Next
  {
  }

  /** A SALES token on /inventory… or /analytics… is rewritten to /unauthorized. */
  lemma SalesGated(pathname: string)
    requires IsSalesRestricted(pathname) && !IsPublic(pathname)
    ensures Gate(pathname, Some(Token(RoleName(Sales)))) == Rewrite("/unauthorized")
  {
  }

  /**
   * Gating is by prefix: every extension of a gated path is gated too, for instance
   * "/inventory/new" and "/analyticsX".
   */
  lemma GatedPrefixExtends(prefix: string, suffix: string)
    requires prefix == "/inventory" || prefix == "/analytics"
    ensures Gate(prefix + suffix, Some(Token(RoleName(Sales)))) == Rewrite("/unauthorized")
  {
    var p := prefix + suffix;
    assert p[..|prefix|] == prefix;
    assert p[1] == prefix[1] && p[2] == prefix[2];
    assert !StartsWith(p, "/login") by {
      assert p[1] != "/login"[1];
    }
    assert !StartsWith(p, "/api/auth") by {
      assert p[2] != "/api/auth"[2];
    }
  }

  /** A SALES user still reaches every ungated page, such as /sales. */
  lemma SalesReachesOtherPages(pathname: string)
    requires !IsSalesRestricted(pathname)
    ensures Gate(pathname, Some(Token(RoleName(Sales)))) == Next
  {
  }
}
