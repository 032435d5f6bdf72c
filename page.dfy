/** The whole page as the script wires it: start-up styling of the sections,
    the three listeners that run, in registration order, on every scroll
    event, and a click on a navigation link. */
module Portfolio {
  import opened Dom
  import Reveal
  import Highlight
  import Menu
  import opened ScrollEffects

  class Page {
    /** The `section` elements, collected once at load time and shared by the
        fade-in effect and the highlighter. */
    const sections: array<Section>
    /** The `.nav-link` anchors. */
    const links: array<NavLink>
    const indicators: ScrollIndicators
    const menu: Menu.MobileMenu

    /** Load time: the fade-in initialisation runs over the sections and the
        scroll-to-top button is created hidden. The navbar shadow and the
        menu classes are whatever the page is loaded with. */
    constructor (sections: array<Section>, links: array<NavLink>,
                 shadow: Shadow, navMenuActive: bool, hamburgerActive: bool)
      modifies sections
      ensures this.sections == sections && this.links == links
      ensures fresh(indicators) && fresh(menu)
      ensures indicators.shadow == shadow && !indicators.topButtonShown
      ensures menu.navMenuActive == navMenuActive && menu.hamburgerActive == hamburgerActive
      ensures forall i :: 0 <= i < sections.Length ==>
                sections[i] == old(sections[i]).(style := if Reveal.HomeIndex(old(sections[..])) == Some(i) then Shown else Hidden)
    {
      this.sections := sections;
      this.links := links;
      indicators := new ScrollIndicators(shadow);
      menu := new Menu.MobileMenu(navMenuActive, hamburgerActive);
      Reveal.Init(sections);
    }

    /** One scroll event at offset `y`: navbar shadow, then the highlighter,
        then the scroll-to-top button. Sections and hrefs are left alone. */
    method OnScroll(y: int)
      modifies indicators, links
      ensures indicators.shadow == NavbarShadow(y)
      ensures indicators.topButtonShown == TopButtonShown(y)
      ensures forall i :: 0 <= i < links.Length ==> links[i].href == old(links[i].href)
      ensures forall i :: 0 <= i < links.Length ==>
                (links[i].active <==> Highlight.Matches(links[i].href, Highlight.Current(sections[..], y)))
    {
      indicators.UpdateShadow(y);
      Highlight.OnScroll(sections, links, y);
      indicators.UpdateTopButton(y);
    }

    /** One batch from the fade-in observer. */
    method OnSectionsIntersect(entries: seq<Reveal.Entry>)
      requires forall k :: 0 <= k < |entries| ==> entries[k].target < sections.Length
      modifies sections
      ensures sections[..] == Reveal.Revealed(old(sections[..]), entries)
      ensures forall i :: 0 <= i < sections.Length && old(sections[i].style) == Shown ==> sections[i].style == Shown
    {
      Reveal.OnIntersect(sections, entries);
    }

    /** A click on navigation link `i`: its first listener closes the menu;
        when its href starts with `#` a second listener smooth-scrolls to the
        element the href names, if any. `elements` are the document's
        elements in document order; the sections the highlighter scans are
        among them, but nothing here ties the two lists together. */
    method OnNavLinkClick(i: nat, elements: seq<Element>) returns (target: Option<int>)
      requires i < links.Length
      modifies menu
      ensures !menu.navMenuActive && !menu.hamburgerActive
      ensures target == if |links[i].href| > 0 && links[i].href[0] == '#'
                        then ScrollTarget(links[i].href, elements)
                        else None
    {
      menu.OnNavLinkClick();
      var href := links[i].href;
      if |href| > 0 && href[0] == '#' {
        target := ScrollTarget(href, elements);
      } else {
        target := None;
      }
    }
  }
}
