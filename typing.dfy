/** The typing effect: the tagline is emptied at load and retyped one
    character per timer tick. */
module Typing {
  import opened Dom

  /** Delay before the first character, in milliseconds. */
  const StartDelay := 1000
  /** Delay between two characters, in milliseconds. */
  const CharDelay := 50

  class Tagline {
    /** The tagline's text when the page loaded. */
    const original: string
    /** The tagline's current text content. */
    var text: string
    var charIndex: nat
    /** The delay of the pending `typeText` timer, if one is scheduled. */
    var pending: Option<nat>

    /** What is shown is always the first `charIndex` characters, and a timer
        stays scheduled until the whole text is typed. */
    ghost predicate Valid()
      reads this
    {
      charIndex <= |original| &&
      text == original[..charIndex] &&
      (pending.None? ==> charIndex == |original|)
    }

    /** Load time: remember the text, empty the tagline and schedule the first
        step. */
    constructor (textContent: string)
      ensures Valid()
      ensures original == textContent && text == "" && charIndex == 0 && pending == Some(StartDelay)
    {
      original := textContent;
      text := "";
      charIndex := 0;
      pending := Some(StartDelay);
    }

    /** One firing of the `typeText` timer: append the next character and
        schedule another step, or stop once everything is typed. */
    method TypeText()
      requires Valid() && pending.Some?
      modifies this
      ensures Valid()
      ensures old(charIndex) < |original| ==>
                charIndex == old(charIndex) + 1 && text == old(text) + [original[old(charIndex)]] &&
                pending == Some(CharDelay)
      ensures old(charIndex) == |original| ==>
                charIndex == old(charIndex) && text == old(text) && pending == None
    {
      if charIndex < |original| {
        text := text + [original[charIndex]];
        charIndex := charIndex + 1;
        pending := Some(CharDelay);
      } else {
        pending := None;
      }
    }

    /** Let every pending timer fire in turn. The tagline ends up holding the
        whole original text, and the waiting adds up to the pending delay plus
        one character delay per character still to type. */
    method RunTimers() returns (elapsed: nat)
      requires Valid() && pending.Some?
      modifies this
      ensures Valid() && text == original && pending == None
      ensures elapsed == old(pending.value) + CharDelay * (|original| - old(charIndex))
    {
      elapsed := 0;
      while pending.Some?
        invariant Valid()
        invariant pending.Some? ==>
                    elapsed + pending.value + CharDelay * (|original| - charIndex)
                    == old(pending.value) + CharDelay * (|original| - old(charIndex))
        invariant pending.None? ==>
                    elapsed == old(pending.value) + CharDelay * (|original| - old(charIndex))
        decreases |original| - charIndex, pending.Some?
      {
        elapsed := elapsed + pending.value;
        TypeText();
      }
    }
  }

  /** A page whose tagline reads "Hi" shows "", "H", "Hi", and its third
      timer, 1100 milliseconds after load, schedules nothing further. */
  method TypeHi() returns (steps: seq<string>, elapsed: nat, stopped: bool)
    ensures steps == ["", "H", "Hi"] && elapsed == 1100 && stopped
  {
    var tagline := new Tagline("Hi");
    steps := [tagline.text];
    elapsed := tagline.pending.value;
    tagline.TypeText();
    assert tagline.text == "H";
    steps := steps + [tagline.text];
    elapsed := elapsed + tagline.pending.value;
    tagline.TypeText();
    assert tagline.text == "Hi";
    steps := steps + [tagline.text];
    elapsed := elapsed + tagline.pending.value;
    tagline.TypeText();
    stopped := tagline.pending.None?;
  }
}
