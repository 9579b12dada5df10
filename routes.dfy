/** Route protection (src/App.tsx): the `ProtectedRoute` guard and the
    roles the route table asks for. */
module Routes {
  import opened Types

  const LoginPath := "/login"
  const HomePath := "/"

  /** What the guard does: redirect somewhere, or render the page. */
  datatype Decision = RedirectTo(path: string) | Render

  /** `ProtectedRoute`: anonymous visitors go to the login page; an
      authenticated user whose role is not the one required goes home;
      everyone else sees the page. `isAuthenticated` is `user != null`. */
  function Guard(user: Option<User>, allowedRole: Option<Role>): (d: Decision)
    ensures d == RedirectTo(LoginPath) <==> user.None?
    ensures d == RedirectTo(HomePath) <==> user.Some? && allowedRole.Some? && user.value.role != allowedRole.value
    ensures d == Render <==> user.Some? && (allowedRole.None? || user.value.role == allowedRole.value)
  {
    if user.None? then RedirectTo(LoginPath)
    else if allowedRole.Some? && user.value.role != allowedRole.value then RedirectTo(HomePath)
    else Render
  }

  /** The pages of the route table. */
  datatype Route =
    | HomePage | ProductsList | ProductDetail | LoginPage | SignupPage
    | AdminDashboard | AdminProducts | AdminProductAdd | AdminProductEdit
    | CustomerDashboard | NotFound

  /** How the route table wraps each page: `None` for a public page, else the
      `allowedRole` its `ProtectedRoute` carries. */
  function Protection(r: Route): Option<Option<Role>>
  {
    match r
    case AdminDashboard => Some(Some(Admin))
    case AdminProducts => Some(Some(Admin))
    case AdminProductAdd => Some(Some(Admin))
    case AdminProductEdit => Some(Some(Admin))
    case CustomerDashboard => Some(Some(Customer))
    case _ => None
  }

  /** What a visitor gets when opening route `r`. */
  function Admission(r: Route, user: Option<User>): Decision
  {
    match Protection(r)
    case None => Render
    case Some(allowed) => Guard(user, allowed)
  }

  predicate IsAdminRoute(r: Route)
  {
    r == AdminDashboard || r == AdminProducts || r == AdminProductAdd || r == AdminProductEdit
  }

  /** The four admin routes render only for an authenticated admin, the
      customer dashboard only for an authenticated customer, every other page
      for anyone; an anonymous visitor of a protected page is sent to log in. */
  lemma RouteTableRoles(r: Route, user: Option<User>)
    ensures IsAdminRoute(r) ==> (Admission(r, user) == Render <==> user.Some? && user.value.role == Admin)
    ensures r == CustomerDashboard ==> (Admission(r, user) == Render <==> user.Some? && user.value.role == Customer)
    ensures !IsAdminRoute(r) && r != CustomerDashboard ==> Admission(r, user) == Render
    ensures Protection(r).Some? && user.None? ==> Admission(r, user) == RedirectTo(LoginPath)
  {
  }
}
