/** The page elements the portfolio script reads and writes, reduced to the
    attributes its handlers actually use. */
module Dom {

  datatype Option<T> = None | Some(value: T)

  /** The inline opacity/transform pair that the fade-in effect writes on a
      section: Unstyled before the script touches it, Hidden is opacity 0 with
      translateY(30px), Shown is opacity 1 with translateY(0). */
  datatype Style = Unstyled | Hidden | Shown

  /** A `section` element: its id attribute (None when it has none, which
      getAttribute reports as null), its offsetTop in pixels, whether it
      carries the `home-section` class, and its fade-in style. */
  datatype Section = Section(id: Option<string>, offsetTop: int, homeClass: bool, style: Style)

  /** A `.nav-link` anchor: its href attribute and whether its class list
      holds `active`. */
  datatype NavLink = NavLink(href: string, active: bool)

  /** Any element of the document that a `#id` selector can find. */
  datatype Element = Element(id: Option<string>, offsetTop: int)

  /** String.prototype.slice(1): the string without its first character; the
      empty string stays empty. */
  function Slice1(s: string): (r: string)
    ensures |s| > 0 ==> s == [s[0]] + r
    ensures |s| == 0 ==> r == ""
  {
    if |s| == 0 then "" else s[1..]
  }
}
