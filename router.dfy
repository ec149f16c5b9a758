/**
 * The front end's navigation guard: before each navigation it either lets the
 * navigation proceed or redirects it, from the meta flags of the target route
 * and the token and role the browser has stored.
 */
module Router {
  /** The flags a route record (and the records above it) carry in `meta`. */
  datatype Meta = Meta(public: bool, admin: bool, evaluator: bool)

  datatype Route = Route(name: string, meta: Meta)

  /** The stored session: an empty string when there is none (`localStorage.getItem(...) || ''`). */
  datatype Session = Session(token: string, role: string)

  /** `next()` or `next(path)`. */
  datatype Decision = Proceed | Redirect(path: string)

  const Plain: Meta := Meta(false, false, false)
  const Public: Meta := Meta(true, false, false)
  const AdminArea: Meta := Meta(false, true, false)
  const EvaluatorArea: Meta := Meta(false, false, true)

  /**
   * The route table: the record a path resolves to. `/` redirects to the
   * login page; the children of `/admin` and of the evaluator layout inherit
   * their parent's flags; anything else is the catch-all page.
   */
  function Resolve(path: string): (r: Route)
    ensures r.meta.public ==> r.name == "Login"
    ensures !(r.meta.admin && r.meta.evaluator)
  {
    if path == "/login" || path == "/" then Route("Login", Public)
    else if path == "/admin/dashboard" then Route("AdminDashboard", AdminArea)
    else if path == "/admin/users" then Route("AdminUsers", AdminArea)
    else if path == "/admin/works" then Route("AdminWorks", AdminArea)
    else if path == "/admin/sheets" then Route("AdminSheets", AdminArea)
    else if path == "/dashboard" then Route("EvaluatorDashboard", EvaluatorArea)
    else if path == "/change-password" then Route("ChangePassword", EvaluatorArea)
    else if IsEvaluatePath(path) then Route("EvaluationForm", EvaluatorArea)
    else Route("NotFound", Plain)
  }

  /** `/evaluate/:work_id`: one non-empty segment after the prefix. */
  predicate IsEvaluatePath(path: string) {
    var prefix := "/evaluate/";
    |prefix| < |path| && path[..|prefix|] == prefix && '/' !in path[|prefix|..]
  }

  /** `router.beforeEach`: the first rule that applies decides. */
  function Guard(to: Route, s: Session): (d: Decision)
    ensures d.Redirect? ==> d.path in {"/login", "/dashboard", "/admin/dashboard"}
  {
    if to.meta.public then Proceed
    else if to.name == "NotFound" then Proceed
    else if s.token == "" then Redirect("/login")
    else if to.meta.admin && s.role != "admin" then Redirect("/dashboard")
    else if to.meta.evaluator && s.role != "evaluator" then Redirect("/admin/dashboard")
    else Proceed
  }

  /** The decision for navigating to `path`. */
  function Navigate(path: string, s: Session): Decision {
    Guard(Resolve(path), s)
  }

  /**
   * The guard's rules, each stated on its own: public routes and the
   * catch-all page always proceed, a protected route without a token goes to
   * the login page, an admin route goes to `/dashboard` for any other role,
   * an evaluator route goes to `/admin/dashboard` for any other role, and a
   * route whose flags match the role proceeds.
   */
  lemma {:induction false} GuardRules(to: Route, s: Session)
    ensures to.meta.public || to.name == "NotFound" ==> Guard(to, s) == Proceed
    ensures !to.meta.public && to.name != "NotFound" && s.token == "" ==> Guard(to, s) == Redirect("/login")
    ensures !to.meta.public && to.name != "NotFound" && s.token != "" ==>
      (to.meta.admin && s.role != "admin" ==> Guard(to, s) == Redirect("/dashboard")) &&
      (!to.meta.admin && to.meta.evaluator && s.role != "evaluator" ==> Guard(to, s) == Redirect("/admin/dashboard")) &&
      ((to.meta.admin ==> s.role == "admin") && (to.meta.evaluator ==> s.role == "evaluator") ==> Guard(to, s) == Proceed)
  {
  }

  /** The path reached after following `n` redirects from `path`; a navigation that proceeds stays put. */
  function Follow(path: string, s: Session, n: nat): string
    decreases n
  {
    if n == 0 then path
    else match Navigate(path, s)
      case Proceed => path
      case Redirect(next) => Follow(next, s, n - 1)
  }

  /**
   * Without a token, or with the role `admin` or `evaluator`, every redirect
   * lands on a page the guard lets through: navigation settles after at most
   * one redirect.
   */
  lemma {:induction false} RedirectSettles(path: string, s: Session)
    requires s.token == "" || s.role == "admin" || s.role == "evaluator"
    ensures Navigate(Follow(path, s, 1), s) == Proceed
  {
    match Navigate(path, s)
    case Proceed =>
    case Redirect(next) =>
      assert next in {"/login", "/dashboard", "/admin/dashboard"};
      assert Follow(next, s, 0) == next;
  }

  /**
   * With a token and any other role, the two dashboards redirect to each
   * other: after `n` redirects from either dashboard the browser is at one of
   * them, by the parity of `n`, and it is redirected once more.
   */
  lemma {:induction false} RedirectsAlternate(s: Session, n: nat)
    requires s.token != "" && s.role != "admin" && s.role != "evaluator"
    ensures Follow("/dashboard", s, n) == if n % 2 == 0 then "/dashboard" else "/admin/dashboard"
    ensures Follow("/admin/dashboard", s, n) == if n % 2 == 0 then "/admin/dashboard" else "/dashboard"
    ensures Navigate(Follow("/dashboard", s, n), s).Redirect?
    decreases n
  {
    assert Navigate("/dashboard", s) == Redirect("/admin/dashboard");
    assert Navigate("/admin/dashboard", s) == Redirect("/dashboard");
    if n > 0 {
      RedirectsAlternate(s, n - 1);
    }
  }
}
