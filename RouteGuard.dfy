/** The client's route guard (frontend/src/components/ProtectedRoute.tsx). */
module RouteGuard {
  import opened Wrappers

  /** What the guard renders. */
  datatype View = Spinner | ToLogin(from: string) | ToHome | Children

  /** The guard: a spinner while the session loads, the login page
      (remembering the requested path) without a user, the home page for a
      role outside a given list (an empty list admits nobody), else the
      protected page. */
  function Guard(loading: bool, userRole: Option<string>, allowedRoles: Option<seq<string>>, path: string): (v: View)
    ensures loading ==> v == Spinner
    ensures v.ToLogin? <==> !loading && userRole.None?
    ensures v.ToLogin? ==> v.from == path
    ensures v == ToHome <==> !loading && userRole.Some? && allowedRoles.Some? && userRole.value !in allowedRoles.value
    ensures v == Children <==>
      !loading && userRole.Some? && (allowedRoles.None? || userRole.value in allowedRoles.value)
  {
    if loading then Spinner
    else if userRole.None? then ToLogin(path)
    else if allowedRoles.Some? && userRole.value !in allowedRoles.value then ToHome
    else Children
  }
}
