/**
 * The front-end router's navigation guard (server/front-end/src/router/index.js).
 * The guard is a decision: given the target route and what the auth store's
 * checkAuth yields (true, false, or an exception), it either lets the
 * navigation proceed or redirects it.
 */
module RouterGuard {
  import opened Common

  /** A navigation target: its route name (if named), its full path and whether its route requires a login. */
  datatype Target = Target(name: Option<string>, fullPath: string, requiresAuth: bool)

  /** What the guard passes to `next`: nothing, or a named route with an optional `redirect` query. */
  datatype Next = Proceed | Redirect(name: string, redirect: Option<string>)

  /** The decision, and whether checkAuth was consulted for it. */
  datatype Decision = Decision(next: Next, checked: bool)

  predicate IsAuthPage(to: Target)
  {
    to.name == Some("Login") || to.name == Some("Register")
  }

  /** The route table: the login and register pages need no login, the layout's pages do (their meta is inherited). */
  function Resolve(name: string, redirect: Option<string>): (t: Target)
    ensures t.name == Some(name)
    ensures t.requiresAuth <==> name != "Login" && name != "Register"
  {
    var query := if redirect.Some? then "?redirect=" + redirect.value else "";
    match name
      case "Login" => Target(Some(name), "/login" + query, false)
      case "Register" => Target(Some(name), "/register" + query, false)
      case "Dashboard" => Target(Some(name), "/" + query, true)
      case "Profile" => Target(Some(name), "/profile" + query, true)
      case "SystemConfig" => Target(Some(name), "/system-config" + query, true)
      case _ => Target(Some(name), "/" + query, true)
  }

  /**
   * beforeEach. A route requiring a login proceeds when checkAuth says true and otherwise goes to Login
   * carrying the target's full path. The login and register pages go to Dashboard when checkAuth says
   * true and proceed otherwise, including when it throws. Any other route proceeds unchecked. An
   * exception escaping to the outer handler sends every page but Login and Register to Login.
   */
  function BeforeEach(to: Target, check: Outcome<bool>): (d: Decision)
    ensures d.checked <==> to.requiresAuth || IsAuthPage(to)
    ensures to.requiresAuth ==>
      (d.next == Proceed <==> check == Done(true) || (check.Threw? && IsAuthPage(to)))
    ensures to.requiresAuth && check == Done(false) ==> d.next == Redirect("Login", Some(to.fullPath))
    ensures to.requiresAuth && check.Threw? && !IsAuthPage(to) ==> d.next == Redirect("Login", None)
    ensures !to.requiresAuth && IsAuthPage(to) ==>
      d.next == (if check == Done(true) then Redirect("Dashboard", None) else Proceed)
    ensures !to.requiresAuth && !IsAuthPage(to) ==> d.next == Proceed
  {
    if to.requiresAuth then
      match check
        case Done(isAuthenticated) =>
          if !isAuthenticated then Decision(Redirect("Login", Some(to.fullPath)), true)
          else Decision(Proceed, true)
        case Threw =>
          if !IsAuthPage(to) then Decision(Redirect("Login", None), true) else Decision(Proceed, true)
    else if IsAuthPage(to) then
      match check
        case Done(isAuthenticated) =>
          if isAuthenticated then Decision(Redirect("Dashboard", None), true) else Decision(Proceed, true)
        case Threw => Decision(Proceed, true)
    else Decision(Proceed, false)
  }

  /**
   * A redirect never leads to a second one: with checkAuth answering the same way, the route the
   * guard redirects to is let through.
   */
  lemma RedirectSettles(to: Target, check: Outcome<bool>)
    requires BeforeEach(to, check).next.Redirect?
    ensures var n := BeforeEach(to, check).next;
      BeforeEach(Resolve(n.name, n.redirect), check).next == Proceed
  {
  }

  /** An unauthenticated visitor reaches a protected page only by way of the login page, which lets them through. */
  lemma LoggedOutReachesLogin(to: Target)
    requires to.requiresAuth
    ensures BeforeEach(to, Done(false)).next == Redirect("Login", Some(to.fullPath))
    ensures BeforeEach(Resolve("Login", Some(to.fullPath)), Done(false)).next == Proceed
  {
  }
}
