/** The route guard the client runs before every page (`middleware`): who may see the login
    and registration pages, the admin panel and everything else, decided from the path and two
    cookies. `JSON.parse` of the roles cookie is an input function. */
module Middleware {
  import opened Wrappers
  import opened Text

  /** The role number of administrators. */
  const ADMIN_ROLE: real := 5320.0

  const LOGIN: string := "/login"
  const REGISTER: string := "/register"
  const ADMIN_PANEL: string := "/admin-panel"
  const HOME: string := "/"

  /** What the guard answers: let the request through, or redirect it. */
  datatype Decision = Next | Redirect(target: string)

  /** A JSON value as far as the guard looks at it: a number, or anything else. */
  datatype JsonItem = Number(v: real) | OtherValue

  /** What `JSON.parse` made of the roles cookie: it threw, it gave something that is not an
      array, or it gave an array. */
  datatype ParsedRoles = Unparseable | NotArray | Array(items: seq<JsonItem>)

  predicate IsPublicPath(path: string) {
    StartsWith(path, LOGIN) || StartsWith(path, REGISTER)
  }

  predicate IsAdminPath(path: string) {
    StartsWith(path, ADMIN_PANEL)
  }

  /** `cookies.get(name)?.value` is truthy: present and not empty. */
  predicate HasValue(cookie: Option<string>) {
    cookie.Some? && cookie.value != ""
  }

  /** `Array.isArray(roles) && roles.includes(5320)`. */
  predicate IsAdmin(roles: ParsedRoles) {
    roles.Array? && Number(ADMIN_ROLE) in roles.items
  }

  /** The guard itself, branch for branch. */
  function Guard(path: string, accessToken: Option<string>, userRoles: Option<string>,
                 parse: string -> ParsedRoles): (d: Decision)
    ensures IsPublicPath(path) ==> d == Next
    ensures d.Redirect? ==> d.target in {LOGIN, ADMIN_PANEL, HOME}
    ensures d == Redirect(LOGIN) ==> IsAdminPath(path)
  {
    if IsPublicPath(path) then Next
    else if !HasValue(accessToken) || !HasValue(userRoles) then
      if IsAdminPath(path) then Redirect(LOGIN) else Next
    else
      match parse(userRoles.value)
      case Unparseable => if IsAdminPath(path) then Redirect(LOGIN) else Next
      case roles =>
        if IsAdmin(roles) then
          if !IsAdminPath(path) && path != LOGIN && path != REGISTER then Redirect(ADMIN_PANEL) else Next
        else if IsAdminPath(path) then Redirect(HOME)
        else Next
  }

  /** The guard as a table: for each kind of visitor, where each kind of path leads. */
  lemma {:induction false} GuardTable(path: string, accessToken: Option<string>, userRoles: Option<string>,
                                      parse: string -> ParsedRoles)
    ensures var d := Guard(path, accessToken, userRoles, parse);
      && (IsPublicPath(path) ==> d == Next)
      && (!IsPublicPath(path) && (!HasValue(accessToken) || !HasValue(userRoles)) ==>
            d == if IsAdminPath(path) then Redirect(LOGIN) else Next)
      && (!IsPublicPath(path) && HasValue(accessToken) && HasValue(userRoles) ==>
            var roles := parse(userRoles.value);
            d == if roles.Unparseable? then (if IsAdminPath(path) then Redirect(LOGIN) else Next)
                 else if IsAdmin(roles) then (if IsAdminPath(path) then Next else Redirect(ADMIN_PANEL))
                 else if IsAdminPath(path) then Redirect(HOME) else Next)
  {
    if !IsPublicPath(path) {
      // The admin branch also compares the path with "/login" and "/register"; those paths
      // are public and never get there.
      assert StartsWith(LOGIN, LOGIN) && StartsWith(REGISTER, REGISTER);
    }
  }

  /** Roles that do not parse to an array never make an administrator, whatever they hold. */
  lemma NonArrayIsNotAdmin(roles: ParsedRoles)
    requires !roles.Array?
    ensures !IsAdmin(roles)
  {
  }

  /** No redirect loops: following a redirect with the same cookies is let through. */
  lemma {:induction false} NoRedirectLoops(path: string, accessToken: Option<string>, userRoles: Option<string>,
                                           parse: string -> ParsedRoles)
    requires Guard(path, accessToken, userRoles, parse).Redirect?
    ensures Guard(Guard(path, accessToken, userRoles, parse).target, accessToken, userRoles, parse) == Next
  {
    var target := Guard(path, accessToken, userRoles, parse).target;
    assert StartsWith(LOGIN, LOGIN);
    assert StartsWith(ADMIN_PANEL, ADMIN_PANEL);
    assert !IsPublicPath(ADMIN_PANEL) by {
      assert ADMIN_PANEL[..|LOGIN|] != LOGIN by { assert ADMIN_PANEL[1] != LOGIN[1]; }
      assert ADMIN_PANEL[..|REGISTER|] != REGISTER by { assert ADMIN_PANEL[1] != REGISTER[1]; }
    }
    assert !IsPublicPath(HOME) && !IsAdminPath(HOME);
  }

  /** The administrator panel is reachable exactly for a visitor with both cookies whose
      roles parse to an array holding 5320. */
  lemma {:induction false} AdminPanelOnlyForAdmins(path: string, accessToken: Option<string>, userRoles: Option<string>,
                                                   parse: string -> ParsedRoles)
    requires IsAdminPath(path)
    ensures Guard(path, accessToken, userRoles, parse) == Next
      <==> HasValue(accessToken) && HasValue(userRoles) && IsAdmin(parse(userRoles.value))
  {
    assert !IsPublicPath(path) by {
      assert path[..|LOGIN|] != LOGIN by { assert path[1] != LOGIN[1]; }
      assert path[..|REGISTER|] != REGISTER by { assert path[1] != REGISTER[1]; }
    }
  }
}
