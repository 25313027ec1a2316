/**
 * The route guard of src/lib/supabase/middleware.ts (`updateSession`): a pure
 * decision on whether the request is signed in, the role on the caller's
 * profile (None when there is no profile row) and the requested path.
 */
module Middleware {
  import opened Types

  datatype Decision = PassThrough | Redirect(target: string)

  predicate StartsWith(path: string, prefix: string) {
    |prefix| <= |path| && path[..|prefix|] == prefix
  }

  predicate IsAuthPage(path: string) { StartsWith(path, "/login") }
  predicate IsEmployeePage(path: string) { StartsWith(path, "/employee") }
  predicate IsAdminPage(path: string) { StartsWith(path, "/admin") }
  predicate IsProtected(path: string) { IsEmployeePage(path) || IsAdminPage(path) }

  /** The chain of early returns in `updateSession`. */
  function Decide(signedIn: bool, role: Option<Role>, path: string): (d: Decision)
    ensures d.Redirect? ==> d.target in {"/login", "/admin", "/employee"}
    ensures !signedIn && IsProtected(path) ==> d == Redirect("/login")
    ensures signedIn && IsAuthPage(path) ==> d == Redirect(if IsAdmin(role) then "/admin" else "/employee")
    ensures signedIn && IsAdminPage(path) && !IsAdmin(role) ==> d == Redirect("/employee")
    ensures signedIn && IsEmployeePage(path) && IsAdmin(role) ==> d == Redirect("/admin")
  {
    if !signedIn && IsProtected(path) then Redirect("/login")
    else if signedIn && IsAuthPage(path) then
      Redirect(if IsAdmin(role) then "/admin" else "/employee")
    else if signedIn && IsProtected(path) then
      if IsAdminPage(path) && !IsAdmin(role) then Redirect("/employee")
      else if IsEmployeePage(path) && IsAdmin(role) then Redirect("/admin")
      else PassThrough
    else PassThrough
  }

  /** No path starts with two of the three prefixes. */
  lemma PrefixesExclusive(path: string)
    ensures !(IsAuthPage(path) && IsProtected(path))
    ensures !(IsEmployeePage(path) && IsAdminPage(path))
  {
    if IsAuthPage(path) {
      assert path[1] == 'l';
    }
    if IsEmployeePage(path) {
      assert path[1] == 'e';
    }
  }

  /**
   * Every combination the guard does not redirect passes through; in particular
   * a caller who is not signed in passes on any unprotected path, such as "/".
   */
  lemma PassThroughCases(signedIn: bool, role: Option<Role>, path: string)
    ensures Decide(signedIn, role, path) == PassThrough <==>
      (!signedIn && !IsProtected(path))
      || (signedIn && !IsAuthPage(path) && !IsProtected(path))
      || (signedIn && IsAdminPage(path) && IsAdmin(role))
      || (signedIn && IsEmployeePage(path) && !IsAdmin(role))
  {
    PrefixesExclusive(path);
  }

  /** A page that passes the guard belongs to the caller's own area. */
  lemma {:induction false} PassThroughIsAuthorised(signedIn: bool, role: Option<Role>, path: string)
    requires Decide(signedIn, role, path) == PassThrough
    ensures !signedIn ==> !IsProtected(path)
    ensures signedIn ==> !IsAuthPage(path)
    ensures signedIn && IsAdminPage(path) ==> IsAdmin(role)
    ensures signedIn && IsEmployeePage(path) ==> !IsAdmin(role)
  {
    PrefixesExclusive(path);
  }

  /** Following a redirect lands on a page the guard lets through: there is no redirect loop. */
  lemma {:induction false} NoRedirectLoop(signedIn: bool, role: Option<Role>, path: string)
    requires Decide(signedIn, role, path).Redirect?
    ensures Decide(signedIn, role, Decide(signedIn, role, path).target) == PassThrough
  {
    var t := Decide(signedIn, role, path).target;
    assert IsAuthPage("/login") && !IsProtected("/login");
    assert IsAdminPage("/admin") && !IsEmployeePage("/admin") && !IsAuthPage("/admin");
    assert IsEmployeePage("/employee") && !IsAdminPage("/employee") && !IsAuthPage("/employee");
    PrefixesExclusive(path);
  }
}
