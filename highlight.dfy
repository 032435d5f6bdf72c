/** The active-navigation-link highlighter: on every scroll event the script
    picks the "current" section and marks the navigation links that point to
    it. */
module Highlight {
  import opened Dom

  /** A section counts as reached this many pixels before its top edge
      arrives at the top of the viewport. */
  const Lookahead := 200

  /** The scan's test: the page is scrolled at least to the section's top
      minus the lookahead. */
  predicate Qualifies(s: Section, y: int)
  {
    y >= s.offsetTop - Lookahead
  }

  /** The value the scan leaves in `current` when the page is scrolled to
      `y`: it starts as the empty string and every qualifying section, in
      document order, overwrites it with its id (None standing for null). */
  function Current(sections: seq<Section>, y: int): Option<string>
  {
    if |sections| == 0 then Some("")
    else
      var last := sections[|sections| - 1];
      if Qualifies(last, y) then last.id else Current(sections[..|sections| - 1], y)
  }

  /** `current` is the id of the LAST qualifying section, whatever earlier
      qualifying sections hold, and the empty string when none qualifies. */
  lemma {:induction false} CurrentIsLastQualifying(sections: seq<Section>, y: int)
    ensures (forall k :: 0 <= k < |sections| ==> !Qualifies(sections[k], y)) ==> Current(sections, y) == Some("")
    ensures forall k :: 0 <= k < |sections| && Qualifies(sections[k], y) &&
                        (forall j :: k < j < |sections| ==> !Qualifies(sections[j], y))
                        ==> Current(sections, y) == sections[k].id
  {
    if |sections| > 0 {
      var n := |sections| - 1;
      var init := sections[..n];
      assert forall k :: 0 <= k < n ==> init[k] == sections[k];
      CurrentIsLastQualifying(init, y);
      if !Qualifies(sections[n], y) {
        assert Current(sections, y) == Current(init, y);
      }
    }
  }

  /** A link is marked when its href without the first character equals
      `current`; a null `current` equals no string. */
  predicate Matches(href: string, current: Option<string>)
  {
    current == Some(Slice1(href))
  }

  /** The scan of the scroll handler: one pass over the sections in document
      order, overwriting `current` at each qualifying one. */
  method ScanCurrent(sections: array<Section>, y: int) returns (current: Option<string>)
    ensures current == Current(sections[..], y)
  {
    current := Some("");
    var i := 0;
    while i < sections.Length
      invariant 0 <= i <= sections.Length
      invariant current == Current(sections[..i], y)
    {
      var section := sections[i];
      if y >= section.offsetTop - Lookahead {
        current := section.id;
      }
      assert sections[..i + 1][..i] == sections[..i];
      i := i + 1;
    }
    assert sections[..sections.Length] == sections[..];
  }

  /** The link pass: every link loses `active`, then regains it when it
      matches `current`. Hrefs are untouched. */
  method SetActiveLinks(links: array<NavLink>, current: Option<string>)
    modifies links
    ensures forall i :: 0 <= i < links.Length ==> links[i].href == old(links[i].href)
    ensures forall i :: 0 <= i < links.Length ==> (links[i].active <==> Matches(links[i].href, current))
  {
    var i := 0;
    while i < links.Length
      invariant 0 <= i <= links.Length
      invariant forall k :: 0 <= k < links.Length ==> links[k].href == old(links[k].href)
      invariant forall k :: 0 <= k < i ==> (links[k].active <==> Matches(links[k].href, current))
    {
      links[i] := links[i].(active := false);
      if current == Some(Slice1(links[i].href)) {
        links[i] := links[i].(active := true);
      }
      i := i + 1;
    }
  }

  /** The whole scroll handler: scan, then update the links. */
  method OnScroll(sections: array<Section>, links: array<NavLink>, y: int)
    modifies links
    ensures forall i :: 0 <= i < links.Length ==> links[i].href == old(links[i].href)
    ensures forall i :: 0 <= i < links.Length ==>
              (links[i].active <==> Matches(links[i].href, Current(sections[..], y)))
  {
    var current := ScanCurrent(sections, y);
    SetActiveLinks(links, current);
  }

  /** When the last qualifying section has no id, `current` is null, even if
      earlier qualifying sections have ids, and a null `current` marks no
      link at all. */
  lemma NullCurrentMarksNothing(sections: seq<Section>, y: int, k: nat, href: string)
    requires k < |sections| && Qualifies(sections[k], y) && sections[k].id.None?
    requires forall j :: k < j < |sections| ==> !Qualifies(sections[j], y)
    ensures Current(sections, y) == None
    ensures !Matches(href, Current(sections, y))
  {
    CurrentIsLastQualifying(sections, y);
  }

  /** When no section qualifies, `current` is the empty string, and it marks
      exactly the links whose href has at most one character, such as `#`. */
  lemma {:induction false} NothingQualifiedMarksShortHrefs(sections: seq<Section>, y: int, href: string)
    requires forall k :: 0 <= k < |sections| ==> !Qualifies(sections[k], y)
    ensures Matches(href, Current(sections, y)) <==> |href| <= 1
  {
    CurrentIsLastQualifying(sections, y);
    if |href| > 1 {
      assert Slice1(href) == href[1..];
      assert |Slice1(href)| > 0;
    }
  }

  /** With hrefs of the form `#<id>` that are pairwise distinct, at most one
      link is marked after the link pass. */
  lemma {:induction false} AtMostOneActive(links: seq<NavLink>, current: Option<string>)
    requires forall i :: 0 <= i < |links| ==> |links[i].href| > 0 && links[i].href[0] == '#'
    requires forall i, j :: 0 <= i < j < |links| ==> links[i].href != links[j].href
    requires forall i :: 0 <= i < |links| ==> (links[i].active <==> Matches(links[i].href, current))
    ensures forall i, j :: 0 <= i < j < |links| && links[i].active ==> !links[j].active
  {
    forall i, j | 0 <= i < j < |links| && links[i].active
      ensures !links[j].active
    {
      SliceOfHashHrefInjective(links[i].href, links[j].href);
    }
  }

  /** Two different hrefs that both start with `#` keep differing once the
      `#` is sliced off. */
  lemma SliceOfHashHrefInjective(a: string, b: string)
    requires |a| > 0 && a[0] == '#' && |b| > 0 && b[0] == '#'
    requires a != b
    ensures Slice1(a) != Slice1(b)
  {
  }

  /** Distinct hrefs alone do not give a single marked link: "#a" and "/a"
      both lose their first character to "a". */
  lemma DistinctHrefsBothMarked()
    ensures Matches("#a", Some("a")) && Matches("/a", Some("a")) && "#a" != "/a"
  {
  }

  /** Three sections at 0, 800 and 1600 scrolled to 700: the second one is
      current (800 - 200 <= 700 < 1600 - 200). */
  lemma SecondOfThreeIsCurrent()
    ensures Current([Section(Some("home"), 0, true, Shown),
                     Section(Some("about"), 800, false, Hidden),
                     Section(Some("projects"), 1600, false, Hidden)], 700) == Some("about")
  {
  }

  /** At the very top of the page the current section is the last one whose
      top lies within the lookahead, whatever sections before it hold. */
  lemma TopOfPageSelectsLastNearSection(sections: seq<Section>, k: nat)
    requires k < |sections| && sections[k].offsetTop <= Lookahead
    requires forall j :: k < j < |sections| ==> sections[j].offsetTop > Lookahead
    ensures Current(sections, 0) == sections[k].id
  {
    CurrentIsLastQualifying(sections, 0);
  }

  /** When every section starts more than 200 pixels down, `current` is the
      empty string at the very top of the page; the `#` link is then marked
      and `#about` is not. */
  lemma HashMarkedAtTop(sections: seq<Section>)
    requires forall k :: 0 <= k < |sections| ==> sections[k].offsetTop > Lookahead
    ensures Current(sections, 0) == Some("")
    ensures Matches("#", Current(sections, 0)) && !Matches("#about", Current(sections, 0))
  {
    CurrentIsLastQualifying(sections, 0);
  }
}
