/**
 * The page router (src/App.tsx): one `currentPage` value, assigned by the
 * menu's Home, About and Login callbacks and by the login dialog's close and
 * logged-in callbacks; Logout and Settings only acknowledge. The page decides
 * which of the three views is rendered.
 */
module App {
  import Nav = HamburgerNav

  datatype Page = Home | About | Login

  /** The page after the menu item's callback ran. */
  function Navigate(page: Page, item: Nav.Item): (next: Page)
    ensures item == Nav.Home ==> next == Home
    ensures item == Nav.About ==> next == About
    ensures item == Nav.Login ==> next == Login
    ensures item in {Nav.Logout, Nav.Settings} ==> next == page
  {
    match item
    case Home => Home
    case About => About
    case Login => Login
    case Logout => page
    case Settings => page
  }

  /** Items whose callback assigns the page. */
  predicate Navigates(item: Nav.Item) {
    item in {Nav.Home, Nav.About, Nav.Login}
  }

  /** The page after a run of menu choices, first choice first. */
  function NavigateAll(page: Page, items: seq<Nav.Item>): Page
    decreases items
  {
    if items == [] then page else NavigateAll(Navigate(page, items[0]), items[1..])
  }

  /**
   * After any run of menu choices the page is the one named by the last
   * navigating choice, or unchanged if there was none.
   */
  lemma {:induction false} LastNavigationWins(page: Page, items: seq<Nav.Item>)
    ensures (forall i :: 0 <= i < |items| ==> !Navigates(items[i])) ==> NavigateAll(page, items) == page
    ensures forall i :: 0 <= i < |items| && Navigates(items[i]) &&
                        (forall j :: i < j < |items| ==> !Navigates(items[j])) ==>
                        NavigateAll(page, items) == Navigate(page, items[i])
    decreases items
  {
    if items != [] {
      var next := Navigate(page, items[0]);
      LastNavigationWins(next, items[1..]);
      forall i | 0 <= i < |items| && Navigates(items[i]) &&
                 (forall j :: i < j < |items| ==> !Navigates(items[j]))
        ensures NavigateAll(page, items) == Navigate(page, items[i])
      {
        if i > 0 {
          assert items[1..][i - 1] == items[i];
          forall j | i - 1 < j < |items| - 1 ensures !Navigates(items[1..][j]) {
            assert items[1..][j] == items[j + 1];
          }
        } else {
          forall j | 0 <= j < |items| - 1 ensures !Navigates(items[1..][j]) {
            assert items[1..][j] == items[j + 1];
          }
        }
      }
      if forall i :: 0 <= i < |items| ==> !Navigates(items[i]) {
        forall j | 0 <= j < |items| - 1 ensures !Navigates(items[1..][j]) {
          assert items[1..][j] == items[j + 1];
        }
      }
    }
  }

  /** About followed by Home restores the home view, from any page. */
  lemma AboutThenHome(page: Page)
    ensures NavigateAll(page, [Nav.About, Nav.Home]) == Home
  {
  }

  /** Which views the three render conditionals show. */
  datatype View = View(home: bool, about: bool, loginDialog: bool)

  /** The three independent conditionals of the render. */
  function Render(page: Page): (v: View)
    ensures (if v.home then 1 else 0) + (if v.about then 1 else 0) + (if v.loginDialog then 1 else 0) == 1
    ensures v.home <==> page == Home
    ensures v.about <==> page == About
    ensures v.loginDialog <==> page == Login
  {
    View(page == Home, page == About, page == Login)
  }

  /** Distinct pages render distinct views, so the page can be read off the screen. */
  lemma RenderInjective(p: Page, q: Page)
    ensures Render(p) == Render(q) <==> p == q
  {
  }

  const LogoutAlert: string := "Logout clicked"
  const SettingsAlert: string := "Settings clicked"

  class AppRoot {
    var currentPage: Page
    /** Every acknowledgement shown by the placeholder handlers, oldest first. */
    var alerts: seq<string>
    /** The always-mounted menu, given all five callbacks. */
    const nav: Nav.NavMenu

    constructor ()
      ensures currentPage == Home && alerts == []
      ensures fresh(nav) && !nav.open && nav.effects == []
      ensures nav.handlers == {Nav.Home, Nav.About, Nav.Login, Nav.Logout, Nav.Settings}
    {
      currentPage := Home;
      alerts := [];
      nav := new Nav.NavMenu({Nav.Home, Nav.About, Nav.Login, Nav.Logout, Nav.Settings});
    }

    method HandleLogin()
      modifies this`currentPage
      ensures currentPage == Login
    {
      currentPage := Login;
    }

    method HandleLogout()
      modifies this`alerts
      ensures alerts == old(alerts) + [LogoutAlert]
    {
      alerts := alerts + [LogoutAlert];
    }

    method HandleSettings()
      modifies this`alerts
      ensures alerts == old(alerts) + [SettingsAlert]
    {
      alerts := alerts + [SettingsAlert];
    }

    method HandleAbout()
      modifies this`currentPage
      ensures currentPage == About
    {
      currentPage := About;
    }

    method HandleHome()
      modifies this`currentPage
      ensures currentPage == Home
    {
      currentPage := Home;
    }

    /** The login dialog's `onClose`. */
    method DialogClosed()
      modifies this`currentPage
      ensures currentPage == Home
    {
      currentPage := Home;
    }

    /** The login dialog's `onLoggedIn`. */
    method DialogLoggedIn()
      modifies this`currentPage
      ensures currentPage == Home
    {
      currentPage := Home;
    }

    /** Choosing a menu item: the menu closes, then the router's callback for it runs. */
    method ChooseMenuItem(item: Nav.Item)
      requires nav.handlers == {Nav.Home, Nav.About, Nav.Login, Nav.Logout, Nav.Settings}
      modifies this`currentPage, this`alerts, nav
      ensures !nav.open && nav.effects == old(nav.effects) + [Nav.Invoked(item)]
      ensures currentPage == Navigate(old(currentPage), item)
      ensures alerts == old(alerts) + (if item == Nav.Logout then [LogoutAlert]
                                       else if item == Nav.Settings then [SettingsAlert]
                                       else [])
    {
      nav.HandleItem(item);
      match item {
        case Home => HandleHome();
        case About => HandleAbout();
        case Login => HandleLogin();
        case Logout => HandleLogout();
        case Settings => HandleSettings();
      }
    }
  }
}
