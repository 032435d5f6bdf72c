# Portfolio page script, modelled in Dafny

This project models the client-side script of a one-page personal portfolio
(`script.js`). The script reacts to browser events: scrolling, clicks,
viewport intersections, form submission and timers. Here the document is
replaced by plain state:

- the `section` elements, each with an optional id, an `offsetTop`, the
  `home-section` class flag and the fade-in style;
- the `.nav-link` anchors, each with an href and an `active` flag;
- the two `active` classes of the mobile menu;
- the navbar shadow and the scroll-to-top button's visibility;
- the `skillsAnimated` latch and the timers it schedules;
- the tagline being typed;
- the three contact-form fields.

Every handler is a method that updates this state. Scroll offsets, the
`isIntersecting` flags of observer entries, element offsets and timer
firings are inputs.

Modules, one per behaviour of the script:

- `Dom` holds the element records and `Slice1`, which is `String.prototype.slice(1)`.
- `Menu` is the mobile menu toggle.
- `ScrollEffects` covers the navbar shadow, the scroll-to-top button and the smooth-scroll target.
- `Reveal` is the fade-in effect.
- `Skills` is the staggered skill-bar animation.
- `Contact` is the contact form.
- `Highlight` is the active-navigation-link highlighter.
- `Typing` is the tagline typing effect.
- `Portfolio.Page` wires these together. Its constructor runs the fade-in start-up and creates the hidden scroll-to-top button; the skills, tagline and contact-form start-up live in the constructors of `Skills.SkillBars`, `Typing.Tagline` and `Contact.ContactForm`. `OnScroll` runs the three scroll listeners in the order they were registered.

Behaviour of the code that a reader might not expect:

- **Highlighted links.** Every link whose href minus its first character equals `current` is marked, not just one.
- **Nothing qualifies.** When no section qualifies, `current` is `''`. That marks any link whose href has at most one character, such as `#` (`Highlight.NothingQualifiedMarksShortHrefs`).
- **Top of the page.** At offset 0 the current section is the last one whose top is within 200 pixels (`Highlight.TopOfPageSelectsLastNearSection`). When every section starts more than 200 pixels down, `current` is `''` and the `#` link is marked (`Highlight.HashMarkedAtTop`).
- **At most one link.** At most one link is active when the hrefs are pairwise distinct *and* of the form `#id` (`Highlight.AtMostOneActive`). Distinct hrefs alone are not enough: `#a` and `/a` both become `a` (`Highlight.DistinctHrefsBothMarked`).
- **Null ids.** If the last qualifying section has no id, `current` is `null`, even when earlier qualifying sections have ids or later sections do, and then no link is marked (`Highlight.NullCurrentMarksNothing`).

## Model

| member | source | states |
|---|---|---|
| `Dom.Slice1` | script.js:178 | `href.slice(1)` drops the first character: the href is that character followed by the result; an empty href gives the empty string |
| `Menu.MobileMenu.constructor` | script.js:4-6 | the menu and hamburger start with the `active` classes the page is loaded with |
| `Menu.MobileMenu.OnHamburgerClick` | script.js:9-14 | a hamburger click flips both `active` classes and keeps them equal if they were equal |
| `Menu.MobileMenu.OnNavLinkClick` | script.js:17-22 | a link click clears both `active` classes, which leaves them equal |
| `Menu.RunKeepsSynced` | script.js:9-22 | after any series of clicks, menu and hamburger are still in step if they started in step |
| `Menu.MenuOpenIffOddToggles` | script.js:9-22 | after any series of clicks the menu is open exactly when an odd number of hamburger clicks follow the last link click (or flip the initial state if there is no link click) |
| `ScrollEffects.ShadowThresholdMonotone` | script.js:34-38 | the strong navbar shadow is used strictly above offset 50 and stays on further down |
| `ScrollEffects.TopButtonThresholdMonotone` | script.js:228-232 | the scroll-to-top button shows strictly above offset 300 and stays shown further down |
| `ScrollEffects.TopButtonImpliesShadow` | script.js:228-232 | whenever the button is shown, the navbar has the strong shadow |
| `ScrollEffects.FindById` | script.js:55 | `querySelector('#id')` yields the first element in document order with that id, or none |
| `ScrollEffects.ScrollTarget` | script.js:48-66 | a click on `#` does not scroll; otherwise it scrolls iff an element has the id, to that element's top minus 70, which may be negative |
| `ScrollEffects.ScrollIndicators.constructor` | script.js:206-224 | before any scroll, the button is hidden (`display: none`) and the navbar keeps the shadow it was loaded with |
| `ScrollEffects.ScrollIndicators.UpdateShadow` | script.js:30-41 | after a scroll the shadow is `NavbarShadow` of the offset: strong iff the offset exceeds 50 |
| `ScrollEffects.ScrollIndicators.UpdateTopButton` | script.js:227-233 | after a scroll the button visibility is `TopButtonShown` of the offset: shown iff the offset exceeds 300 |
| `Reveal.HomeIndex` | script.js:96 | the home section is the first section in document order carrying the class; none if no section carries it |
| `Reveal.HomeIndexIgnoresStyle` | script.js:88-97 | restyling the sections does not change which one is the home section |
| `Reveal.Init` | script.js:86-100 | start-up hides every section and then shows the home section; no other attribute changes |
| `Reveal.AfterInitOnlyHomeShown` | script.js:86-100 | right after start-up a section is shown iff it is the first with the home class; every other section is hidden |
| `Reveal.OnIntersect` | script.js:77-84 | a batch of entries shows exactly the sections hit by an intersecting entry and changes nothing else |
| `Reveal.ShownIffHit` | script.js:77-84 | over any run of batches, a section is shown iff it was shown at first or some intersecting entry hit it; shown never reverts; ids and offsets never change |
| `Skills.Schedule` | script.js:113-117 | bar `i` is scheduled with delay `i*100`, in document order, with strictly increasing delays |
| `Skills.SkillBars.constructor` | script.js:105-126 | the latch starts false with nothing scheduled; an observer exists only when the skills section does |
| `Skills.SkillBars.OnIntersect` | script.js:108-122 | the first intersecting entry while the latch is false schedules every bar once and sets the latch; any later entry, in the same batch or a later one, schedules nothing |
| `Skills.TwoBatches` | script.js:106-121 | two successive batches schedule the staggered bars exactly once if either holds an intersecting entry, and nothing otherwise |
| `Contact.ContactForm.constructor` | script.js:131-140 | the form's three fields start empty |
| `Contact.ContactForm.Submit` | script.js:134-155 | submission succeeds iff name, email and message are all non-empty; success reports those values, shows the thank-you dialog and empties the fields; failure shows "Please fill in all fields." and leaves all three fields unchanged |
| `Contact.AlertTextTellsOutcome` | script.js:145-153 | the two dialog texts differ, so the dialog tells an accepted submission from a refused one |
| `Contact.BlankFieldsAccepted` | script.js:143 | the handler's test checks only emptiness: blanks and an address without `@` pass it; an empty email fails it |
| `Contact.SubmitTwice` | script.js:143-148 | a filled form is accepted and reset, so an immediate second submission is refused |
| `Highlight.CurrentIsLastQualifying` | script.js:165-174 | `current` is the id of the last section with `pageYOffset >= offsetTop - 200`, or `''` when none qualifies |
| `Highlight.ScanCurrent` | script.js:165-174 | the forward scan with overwriting computes exactly that `current` |
| `Highlight.SetActiveLinks` | script.js:176-181 | after the link pass, a link is active iff its href minus its first character equals `current`; hrefs do not change |
| `Highlight.OnScroll` | script.js:164-182 | a scroll event leaves every link active iff it matches the current section computed from the offset |
| `Highlight.NullCurrentMarksNothing` | script.js:165-178 | if the last qualifying section has no id, `current` is null whatever the other sections hold, and no link is marked |
| `Highlight.NothingQualifiedMarksShortHrefs` | script.js:165-178 | if no section qualifies, exactly the links with hrefs of at most one character, such as `#`, are marked |
| `Highlight.AtMostOneActive` | script.js:176-181 | with pairwise-distinct hrefs of the form `#id`, at most one link is active |
| `Highlight.SliceOfHashHrefInjective` | script.js:178 | two different `#`-hrefs stay different after `slice(1)` |
| `Highlight.DistinctHrefsBothMarked` | script.js:178 | distinct hrefs `#a` and `/a` both match `current == 'a'` |
| `Highlight.SecondOfThreeIsCurrent` | script.js:165-174 | with sections at 0, 800 and 1600 and offset 700, the second is current |
| `Highlight.TopOfPageSelectsLastNearSection` | script.js:165-174 | at offset 0 the current section is the last one whose top is within 200 pixels |
| `Highlight.HashMarkedAtTop` | script.js:165-181 | at offset 0 with every section more than 200 pixels down, `current` is `''`, the `#` link is marked and `#about` is not |
| `Typing.Tagline.constructor` | script.js:254-270 | at load the tagline is emptied, the original text is kept, and the first step is scheduled after 1000 ms |
| `Typing.Tagline.TypeText` | script.js:261-267 | each step appends the next original character and reschedules after 50 ms; once the text is complete it schedules nothing; the tagline is always the first `charIndex` characters and `charIndex` never exceeds the length |
| `Typing.Tagline.RunTimers` | script.js:261-270 | letting all timers fire types the whole text and stops; the waiting totals the pending delay plus 50 ms per remaining character |
| `Typing.TypeHi` | script.js:254-271 | the tagline "Hi" shows "", "H", "Hi", and its third timer, 1100 ms after load, schedules nothing more |
| `Portfolio.Page.constructor` | script.js:86-100 | load time runs the fade-in start-up over the sections and creates the button hidden; the navbar shadow and menu classes are the ones the page is loaded with |
| `Portfolio.Page.OnScroll` | script.js:30-233 | one scroll event sets the shadow and the button from the offset and highlights the links; sections and hrefs are untouched |
| `Portfolio.Page.OnSectionsIntersect` | script.js:77-84 | one fade-in batch shows the hit sections, and a shown section stays shown |
| `Portfolio.Page.OnNavLinkClick` | script.js:17-66 | a click on any navigation link closes the menu; only an href starting with `#` can scroll, to the target it names if there is one |

## Left out

- Cursor trail (script.js:276-301), project-card hover (script.js:188-198), the scroll-to-top button's hover scaling, and the injected `<style>` block: these are decorative, with no state worth stating.
- The scroll-to-top click (script.js:236-241) always scrolls to offset 0 and keeps no state, so it is not modelled. The smooth-scroll animation itself is a browser effect.
- Viewport geometry of the observers (the 0.1 and 0.3 thresholds and the -100px bottom margin): `isIntersecting` is an input.
- Timers: a scheduled `setTimeout` is a `Skills.Timer` record or the `Typing.Tagline.pending` delay. Firing is an explicit method call. The skill bar's CSS animation, started when its timer fires, is not modelled.
- `alert` and `console.log` as side effects: `Contact.Outcome` carries the logged values, and `Contact.AlertText` gives the dialog text.
- The navbar shadow and the menu's `active` classes before the first event are set by the stylesheet and markup, not by the script, so the constructors take them as parameters.
- Dead variables `lastScroll` and `sectionHeight` are left out.
- Offsets are integers. A fractional `pageYOffset` is not modelled.
- `Highlight.SetActiveLinks`: every link is assumed to have an href attribute. In the script, a link without one would throw in mid-pass, after that link's class was cleared.
- `ScrollEffects.ScrollTarget`: the href after `#` is taken as a plain id. A string that is not a valid CSS selector would make `querySelector` throw, and a compound selector would match by other rules. Neither is modelled.
- `Reveal.HomeIndex`: the `.home-section` element is looked up among the sections. An element with that class that is not a `section` would be restyled outside the model.
- `Contact.ContactForm.Submit`: `reset()` is taken to restore empty fields. The page's markup, which sets the real defaults, is not part of this model.
- Strings are sequences of characters. The script's `charAt` and `slice` work on UTF-16 code units, which differs only for characters outside the Basic Multilingual Plane.
- The presence checks on the tagline, the contact form and the skills section become the question of whether the corresponding object is constructed (for the skills section, `SkillBars.observed`).
- The script does not check that `.hamburger`, `.nav-menu`, `.navbar` and the contact form's three fields exist; the model assumes they do. Without the hamburger, script.js:9 throws at load and no listener or observer after it is registered. Without the nav menu, a hamburger click throws at script.js:10 before the hamburger's class is toggled, and a link click throws at script.js:19. Without the navbar, the shadow listener throws on every scroll while the other two scroll listeners still run. A form missing one of its fields throws at script.js:138-140, before validation.
- `Contact.BlankFieldsAccepted`: states what the handler's test lets through. The browser's own validation of the `type="email"` field, which can block the submit event before the handler runs, is not modelled.
