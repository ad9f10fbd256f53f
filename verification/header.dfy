/**
 * The site header (src/components/organisms/Header.jsx): one
 * `mobileMenuOpen` flag that the menu button flips and every mobile
 * navigation link clears, and the two navigation bars that offer the same
 * three links.
 */
module Header {
  /** A navigation link: its route and its text. */
  datatype NavLink = NavLink(to: string, title: string)

  /** The site's three links, in the order both navigation bars draw them. */
  const NavLinks: seq<NavLink> := [NavLink("/", "Home"), NavLink("/about", "About Us"), NavLink("/contact", "Contact")]

  /** A drawn `NavigationItem`: its link, and whether clicking it also runs `closeMobileMenu`. */
  datatype NavItem = NavItem(link: NavLink, closesMenu: bool)

  /** The desktop navigation: always drawn, and its items have no click handler. */
  function DesktopNavItems(): (r: seq<NavItem>)
    ensures |r| == |NavLinks|
    ensures forall i :: 0 <= i < |r| ==> r[i].link == NavLinks[i] && !r[i].closesMenu
  {
    [NavItem(NavLink("/", "Home"), false),
     NavItem(NavLink("/about", "About Us"), false),
     NavItem(NavLink("/contact", "Contact"), false)]
  }

  /** The mobile navigation panel, drawn only while the menu is open; each item closes the menu. */
  function MobileNavItems(open: bool): (r: seq<NavItem>)
    ensures !open ==> r == []
    ensures open ==> |r| == |NavLinks| && forall i :: 0 <= i < |r| ==> r[i].link == NavLinks[i] && r[i].closesMenu
  {
    if open then
      [NavItem(NavLink("/", "Home"), true),
       NavItem(NavLink("/about", "About Us"), true),
       NavItem(NavLink("/contact", "Contact"), true)]
    else []
  }

  /** The open mobile panel offers the desktop links, in the same order, each of them also closing the menu. */
  lemma MobileMirrorsDesktop(open: bool)
    ensures open ==> |MobileNavItems(open)| == |DesktopNavItems()|
    ensures open ==> forall i :: 0 <= i < |DesktopNavItems()| ==>
              MobileNavItems(open)[i].link == DesktopNavItems()[i].link &&
              MobileNavItems(open)[i].closesMenu && !DesktopNavItems()[i].closesMenu
  {
  }

  /** The icon on the menu button. */
  function MenuIcon(open: bool): string
  {
    if open then "X" else "Menu"
  }

  /** The button shows "X" exactly when the mobile links are drawn, and "Menu" exactly when they are not. */
  lemma IconMatchesPanel(open: bool)
    ensures MenuIcon(open) == "X" <==> |MobileNavItems(open)| > 0
    ensures MenuIcon(open) == "Menu" <==> MobileNavItems(open) == []
  {
  }

  class HeaderState {
    var mobileMenuOpen: bool

    /** `useState(false)`. */
    constructor()
      ensures !mobileMenuOpen
    {
      mobileMenuOpen := false;
    }

    /** `toggleMobileMenu()`. */
    method ToggleMobileMenu()
      modifies this
      ensures mobileMenuOpen == !old(mobileMenuOpen)
    {
      mobileMenuOpen := !mobileMenuOpen;
    }

    /** `closeMobileMenu()`. */
    method CloseMobileMenu()
      modifies this
      ensures !mobileMenuOpen
    {
      mobileMenuOpen := false;
    }

    /** A click on the `i`-th item of the open mobile panel: its handler closes the menu. */
    method FollowMobileLink(i: nat)
      requires mobileMenuOpen && i < |MobileNavItems(mobileMenuOpen)|
      modifies this
      ensures !mobileMenuOpen
    {
      if MobileNavItems(mobileMenuOpen)[i].closesMenu {
        CloseMobileMenu();
      }
    }
  }
}
