/** The fade-in effect: every section starts hidden (the home section
    excepted) and is shown for good once the viewport observer reports it as
    intersecting. */
module Reveal {
  import opened Dom

  /** One record of an observer batch: which section it is about and whether
      it is intersecting the (shrunk) viewport. */
  datatype Entry = Entry(target: nat, isIntersecting: bool)

  /** The section `querySelector('.home-section')` finds: the first one in
      document order carrying the class. */
  function HomeIndex(sections: seq<Section>): (r: Option<nat>)
    ensures r.Some? ==> r.value < |sections| && sections[r.value].homeClass
    ensures r.Some? ==> forall j :: 0 <= j < r.value ==> !sections[j].homeClass
    ensures r.None? ==> forall j :: 0 <= j < |sections| ==> !sections[j].homeClass
  {
    if |sections| == 0 then None
    else if sections[0].homeClass then Some(0)
    else match HomeIndex(sections[1..])
      case None => None
      case Some(k) => Some(k + 1)
  }

  /** Restyling does not move the home section: it depends on classes only. */
  lemma {:induction false} HomeIndexIgnoresStyle(a: seq<Section>, b: seq<Section>)
    requires |a| == |b|
    requires forall i :: 0 <= i < |a| ==> a[i].homeClass == b[i].homeClass
    ensures HomeIndex(a) == HomeIndex(b)
  {
    if |a| > 0 && !a[0].homeClass {
      HomeIndexIgnoresStyle(a[1..], b[1..]);
    }
  }

  /** Start-up: every section gets the hidden style, then the home section,
      if there is one, is shown at once. */
  method Init(sections: array<Section>)
    modifies sections
    ensures forall i :: 0 <= i < sections.Length ==>
              sections[i] == old(sections[i]).(style := if HomeIndex(old(sections[..])) == Some(i) then Shown else Hidden)
  {
    var i := 0;
    while i < sections.Length
      invariant 0 <= i <= sections.Length
      invariant forall k :: 0 <= k < i ==> sections[k] == old(sections[k]).(style := Hidden)
      invariant forall k :: i <= k < sections.Length ==> sections[k] == old(sections[k])
    {
      sections[i] := sections[i].(style := Hidden);
      i := i + 1;
    }
    var home := HomeIndex(sections[..]);
    HomeIndexIgnoresStyle(sections[..], old(sections[..]));
    if home.Some? {
      sections[home.value] := sections[home.value].(style := Shown);
    }
  }

  /** Some intersecting entry of the batch is about section `i`. */
  predicate Hit(entries: seq<Entry>, i: nat)
  {
    exists k :: 0 <= k < |entries| && entries[k].target == i && entries[k].isIntersecting
  }

  /** The sections after the observer callback has handled one batch. */
  function Revealed(sections: seq<Section>, entries: seq<Entry>): seq<Section>
  {
    seq(|sections|, i requires 0 <= i < |sections| =>
      if Hit(entries, i) then sections[i].(style := Shown) else sections[i])
  }

  /** The observer callback: each intersecting entry shows its section; a
      non-intersecting one changes nothing. */
  method OnIntersect(sections: array<Section>, entries: seq<Entry>)
    requires forall k :: 0 <= k < |entries| ==> entries[k].target < sections.Length
    modifies sections
    ensures sections[..] == Revealed(old(sections[..]), entries)
  {
    var k := 0;
    while k < |entries|
      invariant 0 <= k <= |entries|
      invariant forall i :: 0 <= i < sections.Length ==>
                  sections[i] == if Hit(entries[..k], i) then old(sections[i]).(style := Shown) else old(sections[i])
    {
      var entry := entries[k];
      if entry.isIntersecting {
        sections[entry.target] := sections[entry.target].(style := Shown);
      }
      assert forall i :: Hit(entries[..k + 1], i) <==> Hit(entries[..k], i) || (entry.target == i && entry.isIntersecting) by {
        forall i ensures Hit(entries[..k + 1], i) <==> Hit(entries[..k], i) || (entry.target == i && entry.isIntersecting) {
          assert entries[..k + 1][k] == entry;
          assert forall m :: 0 <= m < k ==> entries[..k + 1][m] == entries[..k][m];
        }
      }
      k := k + 1;
    }
    assert entries[..|entries|] == entries;
  }

  /** The observer batches delivered so far, applied in order. */
  function RevealedAll(sections: seq<Section>, batches: seq<seq<Entry>>): seq<Section>
  {
    if |batches| == 0 then sections
    else Revealed(RevealedAll(sections, batches[..|batches| - 1]), batches[|batches| - 1])
  }

  /** Over any run of batches, sections keep their attributes and a section is
      shown exactly when it was shown at the start or some batch hit it: a
      shown section never reverts. */
  lemma {:induction false} ShownIffHit(sections: seq<Section>, batches: seq<seq<Entry>>, i: nat)
    requires i < |sections|
    ensures |RevealedAll(sections, batches)| == |sections|
    ensures RevealedAll(sections, batches)[i].id == sections[i].id
    ensures RevealedAll(sections, batches)[i].offsetTop == sections[i].offsetTop
    ensures RevealedAll(sections, batches)[i].style == Shown <==>
              sections[i].style == Shown || exists b :: 0 <= b < |batches| && Hit(batches[b], i)
    ensures RevealedAll(sections, batches)[i].style != Shown ==>
              RevealedAll(sections, batches)[i].style == sections[i].style
  {
    if |batches| > 0 {
      var n := |batches| - 1;
      ShownIffHit(sections, batches[..n], i);
      assert forall b :: 0 <= b < n ==> batches[..n][b] == batches[b];
    }
  }

  /** Right after start-up exactly the home section is shown, and every other
      section is hidden. */
  lemma AfterInitOnlyHomeShown(before: seq<Section>, after: seq<Section>, i: nat)
    requires |after| == |before| && i < |before|
    requires forall k :: 0 <= k < |before| ==>
               after[k] == before[k].(style := if HomeIndex(before) == Some(k) then Shown else Hidden)
    ensures after[i].style == Shown <==> before[i].homeClass && forall j :: 0 <= j < i ==> !before[j].homeClass
    ensures after[i].style != Shown ==> after[i].style == Hidden
  {
  }
}
