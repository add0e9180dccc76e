/** `client/src/components/PrivateRoute.jsx`: what a protected route renders. */
module PrivateRoute {
  import opened Base

  datatype View = LoadingPlaceholder | Redirect(to: string, replace: bool) | Children

  /**
   * Loading wins over everything; then a missing user redirects to `/login`
   * replacing the history entry; otherwise the protected children render.
   */
  function Render<U>(loading: bool, user: Option<U>): (v: View)
    ensures v == LoadingPlaceholder <==> loading
    ensures v == Redirect("/login", true) <==> !loading && user.None?
    ensures v == Children <==> !loading && user.Some?
    ensures v.Redirect? ==> v == Redirect("/login", true)
  {
    if loading then LoadingPlaceholder
    else if user.None? then Redirect("/login", true)
    else Children
  }
}
