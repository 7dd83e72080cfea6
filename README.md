# Interaction handlers of a marketing site's front end

This project models the small amount of discrete logic in the site's single
script, `src/main.js`. Most of the script drives libraries: smooth scrolling,
the WebGL background and tween timelines. The model covers four handlers that
hold their own state or arithmetic:

- **Header navigation** (`nav.dfy`, module `NavHeader`). On every scroll
  update, the header sets `nav--scrolled` past 100 px. It sets `nav--hidden`
  past 200 px while the offset grows. It remembers the offset for the next
  update. The class `NavHeader.Nav` holds the two class flags and
  `lastScroll`. Its `Update` method is proved against the pure step
  function `Step`. Lemmas about `Run`, a series of updates, show that the
  header is never hidden without being compact. They also show that the last
  two offsets alone decide the classes.
- **Word-by-word reveal** (`reveal.dfy`, module `PhilosophyReveal`). The
  statement's words are an `array<bool>` of `is-visible` flags. The method
  `Reveal` is the `forEach` loop. It is proved to compute `Revealed`, which
  turns on word `i` of `n` when the progress exceeds `i / n`. The lemmas show
  that flags are never cleared. They show that visible words always form a
  prefix. They also show that, starting with no word visible, after any
  series of updates a word is visible exactly when some update passed its
  threshold.
- **Mobile overlay** (`overlay.dfy`, module `MenuOverlay`). The toggle opens
  the overlay and locks page scrolling (`overflow = 'hidden'`). The close
  button and every overlay link run `closeNav`, which undoes both. No listener
  exists unless both the toggle and the overlay are present. The close button
  is optional. The class `MenuOverlay.MobileMenu` mutates the two flags.
  `Handle` and `Run` give the effect of clicks. The lemmas show that the
  overlay flag and the scroll lock always agree, and that both paths are
  idempotent.
- **Card tilt** (`tilt.dfy`, module `ProjectTilt`). The tilt is a linear map
  from the pointer's position in the card's rectangle to two angles of at
  most 8 degrees. The card returns to a fixed neutral transform when the
  pointer leaves.

Offsets, progress values and coordinates are JavaScript numbers. They are
modelled as `real`, because the handlers only compare, divide and scale them.

An update whose offset equals the previous one shows the header: it is hidden
only when the offset strictly grows. A pointer at the card's centre gives zero
rotation, but the hover transform keeps `scale3d(1.02, …)`, so it is not the
identity. Only the `mouseleave` transform has scale 1.

## Model

| member | source | states |
|---|---|---|
| NavHeader.Step | src/main.js:261-278 | after one update, `lastScroll` is the new offset; at or below 100 neither class is set, whatever the previous state; above 100 the header is compact; it is hidden iff the offset exceeds both the previous offset and 200; hidden implies compact |
| NavHeader.RunDecidedByLastTwo | src/main.js:255-278 | after any non-empty series of updates, the classes depend only on the last offset and the one before it (or the initial `lastScroll`), and the last offset is remembered |
| NavHeader.RunConsistent | src/main.js:265-275 | no series of updates ever leaves the header hidden but not compact |
| NavHeader.JumpDownAfterScrollingUpHides | src/main.js:265-271 | after scrolling up from 300 to 50, a jump to 250 hides the header and keeps it compact |
| NavHeader.Nav.constructor | src/main.js:251-255 | a new header has neither class and `lastScroll` 0 |
| NavHeader.Nav.Update | src/main.js:261-278 | the header's flags and `lastScroll` after the update are exactly `Step` of the old ones; hidden still implies compact |
| PhilosophyReveal.Threshold | src/main.js:214 | word `i` of `n` waits for a progress in [0, 1) |
| PhilosophyReveal.ThresholdMonotone | src/main.js:213-215 | a later word never waits for less progress than an earlier one |
| PhilosophyReveal.ThresholdByProduct | src/main.js:214-215 | `progress > i / n` holds exactly when `progress * n > i` |
| PhilosophyReveal.Revealed | src/main.js:211-219 | one update keeps the word count, never clears a flag, turns on exactly the words with `progress * n > i`, changes nothing when progress <= 0, and shows every word when progress >= 1 |
| PhilosophyReveal.RevealedKeepsPrefix | src/main.js:213-218 | if the visible words form a prefix, they still do after an update |
| PhilosophyReveal.RevealRunGrows | src/main.js:211-219 | a visible word stays visible through any series of updates |
| PhilosophyReveal.RevealRunExactly | src/main.js:207-219 | after a series of updates, a word is visible iff it already was or some update's progress passed its threshold |
| PhilosophyReveal.RevealRunFromHidden | src/main.js:205-219 | from no word visible, after any series of updates a word is visible iff some update's progress passed its threshold |
| PhilosophyReveal.RevealRunKeepsPrefix | src/main.js:207-219 | from a prefix-shaped state (such as no word visible), every series of updates leaves a prefix visible |
| PhilosophyReveal.Reveal | src/main.js:211-219 | the loop over the word spans leaves the flags equal to `Revealed` of the old flags and the progress |
| MenuOverlay.Open | src/main.js:287-290 | the toggle's handler leaves the overlay open and page scrolling locked |
| MenuOverlay.Close | src/main.js:292-295 | `closeNav` leaves the overlay closed and the overflow style cleared |
| MenuOverlay.Handle | src/main.js:286-301 | on an unwired page no click changes anything; on a wired page the toggle opens, every overlay link closes, and the close button closes when present (otherwise it does nothing); a click keeps the overlay flag and the scroll lock in agreement |
| MenuOverlay.OpenCloseIdempotent | src/main.js:287-295 | closing twice equals closing once, opening twice equals opening once, and each undoes the other |
| MenuOverlay.RunAgrees | src/main.js:286-301 | from the page as loaded, any series of clicks leaves the menu either closed with scrolling free or open with scrolling locked |
| MenuOverlay.UnwiredRunInert | src/main.js:286 | without both the toggle and the overlay, no series of clicks has any effect |
| MenuOverlay.RunEndsWithLastClick | src/main.js:287-301 | on a wired page, a series ending with the toggle leaves the menu open, and one ending with an overlay link, or with the close button when the page has one, leaves it closed, whatever came before |
| MenuOverlay.MobileMenu.constructor | src/main.js:282-286 | the menu starts closed with no overflow style, for the given set of controls |
| MenuOverlay.MobileMenu.ClickToggle | src/main.js:287-290 | the state after a toggle click is `Handle` of the old state |
| MenuOverlay.MobileMenu.CloseNav | src/main.js:292-295 | after `closeNav` the overlay is closed and scrolling is free |
| MenuOverlay.MobileMenu.ClickCloseButton | src/main.js:297 | the state after a close-button click is `Handle` of the old state |
| MenuOverlay.MobileMenu.ClickOverlayLink | src/main.js:299-301 | the state after an overlay-link click is `Handle` of the old state |
| ProjectTilt.FractionBounded | src/main.js:234-237 | an offset within the card's span, measured from the centre as a fraction of half the span, lies in [-1, 1] |
| ProjectTilt.ScaledBounded | src/main.js:236-237 | within the span, the angle lies in [-8, 8] for either sign of the factor, and it is 0 at the centre |
| ProjectTilt.ScaledAtEnds | src/main.js:236-237 | at the two ends of the span the angle is exactly -k and k |
| ProjectTilt.OnMouseMove | src/main.js:230-240 | the hover transform has perspective 800 and scale 1.02; for a pointer inside the card both angles lie in [-8, 8]; a pointer on the vertical (horizontal) centre line gives rotateY (rotateX) 0; the left and right edges give rotateY -8 and 8, the top and bottom edges give rotateX 8 and -8 |
| ProjectTilt.OnMouseLeave | src/main.js:242-244 | the `mouseleave` transform has perspective 800, both rotations 0 and scale 1 |
| ProjectTilt.LeaveMatchesCentre | src/main.js:242-244 | the `mouseleave` transform equals the hover transform for a pointer at the centre, with scale 1 |
| ProjectTilt.TiltMonotone | src/main.js:232-237 | rotateY strictly grows with the pointer's x and does not depend on y; rotateX strictly falls as y grows and does not depend on x |
| ProjectTilt.TiltProportional | src/main.js:232-237 | each angle is proportional to the pointer's offset from the centre: scaling the offset by `s` scales both angles by `s` |
| ProjectTilt.TiltAntisymmetric | src/main.js:232-237 | mirroring the pointer through the card's centre negates both angles |

## Left out

- Smooth scrolling (src/main.js:12-30) is left out. It is a library setup and frame scheduling, with no logic of its own. Scroll offsets and trigger progress are parameters of the model.
- The WebGL background scene (src/main.js:35-143) is left out. It is rendering driven by the clock and by floating-point smoothing.
- The hero timeline and the scroll-triggered reveal tweens (src/main.js:148-196) are left out. Their timing and easing semantics belong to the tween library, which is not part of this model.
- Anchor smooth scrolling (src/main.js:305-313) is left out. It does nothing when the target element is absent. Otherwise it hands the target and an offset of -80 to the scroll library, which is not part of this model.
- DOM queries, listener registration and `getBoundingClientRect` are left out. Their results are parameters: the `Rect` of the card, the `Wiring` of the menu, and the word array. The transform string formatting is left out too; only the numeric fields of `Transform` are kept.
- When `.nav` or `.philosophy__statement` is absent, the handler returns early and installs nothing. The model covers only the case where the element exists.
- The page's markup is not part of this model. The header and the overlay are assumed to start with none of the modelled classes and no inline overflow style.
- Numbers are modelled as `real`, so double-precision rounding is not modelled. This affects the thresholds `i / n`, the tilt angles and the progress values.
- ProjectTilt.OnMouseMove: requires a card of positive width and height. The source divides by half of each, so a zero-size card would give infinite or NaN angles, and that case is not modelled.
- vite.config.js is left out. It holds only build and dev-server settings.
