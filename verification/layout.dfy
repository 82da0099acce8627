/** The page frame (src/components/Layout.tsx): the sidebar's navigation
    table and its "active" highlighting rule, the mobile sidebar toggle and
    overlay, and the "Log Out" button wired to the session gate. */
module Layout {

  import opened Strings
  import Session
  import ProtectedRoute

  datatype NavItem = NavItem(name: string, path: string)

  /** The sidebar entries, in display order. */
  const NavItems: seq<NavItem> := [
    NavItem("Home", "/"),
    NavItem("Examples", "/examples"),
    NavItem("Financial", "/examples?category=Financial"),
    NavItem("Project Mgmt", "/project-management"),
    NavItem("Estimating", "/examples?category=Estimating"),
    NavItem("Insurance", "/examples?category=Insurance"),
    NavItem("Closeout", "/examples?category=Closeout")
  ]

  /** The highlighting rule: the location equals the item's path, or, for any
      item other than the root, the location starts with the item's path as
      raw text. */
  predicate IsActive(location: string, itemPath: string) {
    location == itemPath || (itemPath != "/" && IsPrefix(itemPath, location))
  }

  /** The items highlighted at a location, in display order. */
  function ActiveItems(location: string, items: seq<NavItem>): (active: seq<NavItem>)
    ensures forall it :: it in active <==> it in items && IsActive(location, it.path)
    ensures |active| <= |items|
    decreases |items|
  {
    if |items| == 0 then []
    else
      var rest := ActiveItems(location, items[1..]);
      assert items == [items[0]] + items[1..];
      if IsActive(location, items[0].path) then [items[0]] + rest else rest
  }

  // ---- Properties of the rule ------------------------------------------------

  /** Every item is active at its own path. */
  lemma ActiveAtOwnPath(p: string)
    ensures IsActive(p, p)
  {
  }

  /** The root item is active only on an exact match. */
  lemma RootOnlyOnExactMatch(location: string)
    ensures IsActive(location, "/") <==> location == "/"
  {
  }

  /** Any other item is active exactly when its path is a prefix of the location. */
  lemma NonRootIsPrefixRule(location: string, p: string)
    requires p != "/"
    ensures IsActive(location, p) <==> IsPrefix(p, location)
  {
  }

  /** The match is textual, not by path segment: "/examples" is highlighted at
      "/examples-x", a location it is not a parent of. */
  lemma PrefixIsNotSegmentAware()
    ensures IsActive("/examples-x", "/examples")
  {
    assert "/examples-x"[..|"/examples"|] == "/examples";
  }

  /** Several items can be active at once: at "/examples?category=Financial"
      both "Examples" and "Financial" are highlighted. */
  lemma TwoItemsActive()
    ensures NavItems[1] in ActiveItems("/examples?category=Financial", NavItems)
    ensures NavItems[2] in ActiveItems("/examples?category=Financial", NavItems)
  {
    assert IsActive("/examples?category=Financial", NavItems[1].path) by {
      assert "/examples?category=Financial"[..|"/examples"|] == "/examples";
    }
  }

  /** The items' paths, used as list keys, are pairwise distinct. */
  lemma NavPathsDistinct()
    ensures forall i, j :: 0 <= i < j < |NavItems| ==> NavItems[i].path != NavItems[j].path
  {
  }

  // ---- Sidebar and logout ----------------------------------------------------

  /** The mobile sidebar: closed on entry. */
  datatype Frame = Frame(sidebarOpen: bool)

  function InitialFrame(): (f: Frame)
    ensures !f.sidebarOpen
  {
    Frame(false)
  }

  /** The menu button flips the sidebar. */
  function ToggleSidebar(f: Frame): (g: Frame)
    ensures g.sidebarOpen == !f.sidebarOpen
  {
    Frame(!f.sidebarOpen)
  }

  /** The overlay is shown only while the sidebar is open. */
  function OverlayShown(f: Frame): (shown: bool)
    ensures shown <==> f.sidebarOpen
  {
    f.sidebarOpen
  }

  /** A click on the overlay closes the sidebar. */
  function OverlayClick(f: Frame): (g: Frame)
    requires OverlayShown(f)
    ensures !g.sidebarOpen
  {
    Frame(false)
  }

  /** Opening and then clicking the overlay returns to the closed frame. */
  lemma ToggleThenOverlay(f: Frame)
    requires !f.sidebarOpen
    ensures OverlayClick(ToggleSidebar(f)) == f
  {
  }

  /** Two clicks on the menu button change nothing. */
  lemma ToggleTwice(f: Frame)
    ensures ToggleSidebar(ToggleSidebar(f)) == f
  {
  }

  /** "Log Out" calls the session gate's logout. */
  function LogOutClick(p: Session.Provider): (q: Session.Provider)
    ensures !q.isAuthenticated && !Session.StoredFlag(q.storage) && Session.AuthKey !in q.storage
    ensures forall k :: k != Session.AuthKey ==> (k in q.storage <==> k in p.storage)
    ensures forall k :: k != Session.AuthKey && k in p.storage ==> q.storage[k] == p.storage[k]
  {
    Session.Logout(p)
  }

  /** After "Log Out" every protected route redirects to the login page, and
      so does the site after a reload. */
  lemma LogOutLocksTheSite<P>(p: Session.Provider, props: P)
    ensures ProtectedRoute.Guard(ProtectedRoute.ContextOf(LogOutClick(p)), props).Redirect?
    ensures ProtectedRoute.Guard(ProtectedRoute.ContextOf(Session.Restart(LogOutClick(p).storage)), props).Redirect?
  {
  }
}
