/** The mobile menu: the hamburger button toggles the `active` class on the
    menu and on itself; clicking any navigation link removes it from both. */
module Menu {

  datatype Click = Hamburger | NavLinkClick

  /** The two `active` classes: on the navigation menu and on the hamburger. */
  datatype Flags = Flags(navMenu: bool, hamburger: bool)

  /** The effect of one click on the two classes. */
  function Step(f: Flags, c: Click): Flags
  {
    match c
    case Hamburger => Flags(!f.navMenu, !f.hamburger)
    case NavLinkClick => Flags(false, false)
  }

  /** The classes after a series of clicks, the last click being applied last. */
  function Run(f: Flags, clicks: seq<Click>): Flags
  {
    if |clicks| == 0 then f else Step(Run(f, clicks[..|clicks| - 1]), clicks[|clicks| - 1])
  }

  /** The hamburger shows the X exactly when the menu is open. */
  predicate Synced(f: Flags)
  {
    f.navMenu == f.hamburger
  }

  /** Hamburger clicks since the last link click (or since the start). */
  function TogglesSinceLastLink(clicks: seq<Click>): nat
  {
    if |clicks| == 0 then 0
    else if clicks[|clicks| - 1] == NavLinkClick then 0
    else TogglesSinceLastLink(clicks[..|clicks| - 1]) + 1
  }

  /** Whether any link click occurs in the series. */
  predicate HasLinkClick(clicks: seq<Click>)
  {
    exists k :: 0 <= k < |clicks| && clicks[k] == NavLinkClick
  }

  /** Any series of clicks keeps the two classes in step when they start in
      step. */
  lemma {:induction false} RunKeepsSynced(f: Flags, clicks: seq<Click>)
    requires Synced(f)
    ensures Synced(Run(f, clicks))
  {
    if |clicks| > 0 {
      RunKeepsSynced(f, clicks[..|clicks| - 1]);
    }
  }

  /** After any series of clicks the menu is open exactly when an odd number of
      hamburger clicks follow the last link click; with no link click at all,
      an odd number of them flips the starting state. */
  lemma {:induction false} MenuOpenIffOddToggles(f: Flags, clicks: seq<Click>)
    ensures Run(f, clicks).navMenu ==
              if HasLinkClick(clicks) then TogglesSinceLastLink(clicks) % 2 == 1
              else f.navMenu != (TogglesSinceLastLink(clicks) % 2 == 1)
  {
    if |clicks| > 0 {
      var init := clicks[..|clicks| - 1];
      MenuOpenIffOddToggles(f, init);
      assert forall k :: 0 <= k < |init| ==> init[k] == clicks[k];
      if clicks[|clicks| - 1] == Hamburger {
        assert HasLinkClick(clicks) == HasLinkClick(init);
      }
    }
  }

  class MobileMenu {
    var navMenuActive: bool
    var hamburgerActive: bool

    /** The classes the page is loaded with. */
    constructor (navMenuActive: bool, hamburgerActive: bool)
      ensures this.navMenuActive == navMenuActive && this.hamburgerActive == hamburgerActive
    {
      this.navMenuActive := navMenuActive;
      this.hamburgerActive := hamburgerActive;
    }

    function State(): Flags
      reads this
    {
      Flags(navMenuActive, hamburgerActive)
    }

    method OnHamburgerClick()
      modifies this
      ensures navMenuActive == !old(navMenuActive) && hamburgerActive == !old(hamburgerActive)
      ensures State() == Step(old(State()), Hamburger)
      ensures old(Synced(State())) ==> Synced(State())
    {
      navMenuActive := !navMenuActive;
      hamburgerActive := !hamburgerActive;
    }

    method OnNavLinkClick()
      modifies this
      ensures !navMenuActive && !hamburgerActive
      ensures State() == Step(old(State()), NavLinkClick)
      ensures Synced(State())
    {
      navMenuActive := false;
      hamburgerActive := false;
    }
  }
}
