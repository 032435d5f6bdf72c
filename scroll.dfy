/** The scroll-position rules: the navbar shadow, the scroll-to-top button and
    the target of a click on an in-page anchor. */
module ScrollEffects {
  import opened Dom

  /** The two navbar shadows: the soft default and the stronger one used once
      the page has left the top. */
  datatype Shadow = Soft | Strong

  const ShadowThreshold := 50
  const TopButtonThreshold := 300
  /** Height of the fixed navbar, subtracted from a smooth-scroll target. */
  const NavbarHeight := 70

  function NavbarShadow(y: int): Shadow
  {
    if y > ShadowThreshold then Strong else Soft
  }

  function TopButtonShown(y: int): bool
  {
    y > TopButtonThreshold
  }

  /** The shadow switches on strictly above 50 and only further down:
      scrolling down never removes it. */
  lemma ShadowThresholdMonotone(y: int, z: int)
    requires y <= z
    ensures NavbarShadow(y) == Strong ==> NavbarShadow(z) == Strong
    ensures NavbarShadow(ShadowThreshold) == Soft && NavbarShadow(ShadowThreshold + 1) == Strong
  {
  }

  /** The button appears strictly above 300 and only further down: scrolling
      down never hides it. */
  lemma TopButtonThresholdMonotone(y: int, z: int)
    requires y <= z
    ensures TopButtonShown(y) ==> TopButtonShown(z)
    ensures !TopButtonShown(TopButtonThreshold) && TopButtonShown(TopButtonThreshold + 1)
  {
  }

  /** Whenever the scroll-to-top button is visible the navbar has its strong
      shadow. */
  lemma TopButtonImpliesShadow(y: int)
    ensures TopButtonShown(y) ==> NavbarShadow(y) == Strong
  {
  }

  /** What `document.querySelector('#' + id)` returns: the first element in
      document order whose id is `id`. */
  function FindById(elements: seq<Element>, id: string): (r: Option<nat>)
    ensures r.Some? ==> r.value < |elements| && elements[r.value].id == Some(id)
    ensures r.Some? ==> forall j :: 0 <= j < r.value ==> elements[j].id != Some(id)
    ensures r.None? ==> forall j :: 0 <= j < |elements| ==> elements[j].id != Some(id)
  {
    if |elements| == 0 then None
    else if elements[0].id == Some(id) then Some(0)
    else match FindById(elements[1..], id)
      case None => None
      case Some(k) => Some(k + 1)
  }

  /** The click handler of an anchor whose href starts with `#`: None when it
      does not scroll, otherwise the offset it smooth-scrolls to, which is
      the target's top less the navbar height and may be negative. */
  function ScrollTarget(href: string, elements: seq<Element>): (r: Option<int>)
    requires |href| > 0 && href[0] == '#'
    ensures href == "#" ==> r == None
    ensures href != "#" ==>
              (r.Some? <==> exists k :: 0 <= k < |elements| && elements[k].id == Some(href[1..]))
    ensures r.Some? ==> exists k :: 0 <= k < |elements| && elements[k].id == Some(href[1..]) &&
                                    r.value == elements[k].offsetTop - NavbarHeight &&
                                    forall j :: 0 <= j < k ==> elements[j].id != Some(href[1..])
  {
    if href == "#" then None
    else match FindById(elements, href[1..])
      case None => None
      case Some(k) => Some(elements[k].offsetTop - NavbarHeight)
  }

  /** The navbar and the scroll-to-top button as the scroll listeners leave
      them. */
  class ScrollIndicators {
    var shadow: Shadow
    var topButtonShown: bool

    /** Before any scroll event: the navbar shadow the page is loaded with,
        and the button created with `display: none`. */
    constructor (shadow: Shadow)
      ensures this.shadow == shadow && !topButtonShown
    {
      this.shadow := shadow;
      topButtonShown := false;
    }

    /** The navbar listener. */
    method UpdateShadow(y: int)
      modifies this`shadow
      ensures shadow == NavbarShadow(y)
    {
      if y > ShadowThreshold {
        shadow := Strong;
      } else {
        shadow := Soft;
      }
    }

    /** The scroll-to-top listener. */
    method UpdateTopButton(y: int)
      modifies this`topButtonShown
      ensures topButtonShown == TopButtonShown(y)
    {
      if y > TopButtonThreshold {
        topButtonShown := true;
      } else {
        topButtonShown := false;
      }
    }
  }
}
