/** The route guard (client/src/components/ProtectedRoute.tsx): a protected
    route either redirects to the login page or renders the wrapped route
    with the props it was given. The props are an opaque type parameter. */
module ProtectedRoute {

  import Session

  const LoginPath: string := "/login"

  datatype Guarded<P> = Redirect(to: string) | RenderRoute(props: P)

  /** The decision: unauthenticated visitors are redirected to "/login" and
      the wrapped route is not rendered; otherwise the route is rendered with
      its props unchanged. */
  function Guard<P>(ctx: Session.Context, props: P): (g: Guarded<P>)
    ensures g.Redirect? <==> !ctx.isAuthenticated
    ensures g.Redirect? ==> g.to == LoginPath
    ensures g.RenderRoute? ==> g.props == props
  {
    if !ctx.isAuthenticated then Redirect(LoginPath) else RenderRoute(props)
  }

  /** The current context of a provider that has finished loading. */
  function ContextOf(p: Session.Provider): (c: Session.Context)
    ensures c.isAuthenticated == p.isAuthenticated
  {
    Session.Context(p.isAuthenticated)
  }

  // ---- Properties ------------------------------------------------------------

  /** The decision depends only on the flag: two routes under the same
      context are either both redirected or both rendered. */
  lemma DecisionIgnoresProps<P>(ctx: Session.Context, a: P, b: P)
    ensures Guard(ctx, a).Redirect? == Guard(ctx, b).Redirect?
  {
  }

  /** After a logout every protected route redirects to the login page. */
  lemma LogoutLocksEveryRoute<P>(p: Session.Provider, props: P)
    ensures Guard(ContextOf(Session.Logout(p)), props) == Redirect(LoginPath)
  {
  }

  /** After a successful login no protected route redirects. */
  lemma LoginUnlocksEveryRoute<P>(p: Session.Provider, props: P)
    ensures Guard(ContextOf(Session.Login(p, Session.SitePassword).0), props) == RenderRoute(props)
  {
  }

  /** After a reload the guard follows the stored flag alone. */
  lemma ReloadFollowsStorage<P>(storage: Session.Storage, props: P)
    ensures Guard(ContextOf(Session.Restart(storage)), props).RenderRoute? <==> Session.StoredFlag(storage)
  {
  }
}
