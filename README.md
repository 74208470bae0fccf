# Photography portfolio page: verified model of its interactive state

`app.js` wires up a single portfolio web page. Most of it toggles CSS classes. Under that wiring sit a few small state machines, and this Dafny project models those and proves properties about them. They are:

- **The two carousels.** The hero slideshow and the testimonial carousel are one class, `Carousel.Carousel`, with two configurations: settle delays of 500 ms and 100 ms, and auto-advance intervals of 5000 ms and 7000 ms. Its state is the current index, the `isTransitioning` guard, a settle timeout that is pending exactly while the guard is up, and the auto-advance timer handle. The model also keeps the set of intervals the widget has registered and not cleared, so "at most one interval is live" is part of the class invariant.
- **The swipe rule and the touch-move rule.** Both are pure functions of integer coordinates (module `Gesture`), shared by the two carousels and the lightbox.
- **Circular index arithmetic.** This is module `Cycle`. JavaScript's `%` truncates toward zero, while Dafny's `%` is Euclidean, so `JsRem` writes out JavaScript's operator. `Wrap` is `(n + len) % len`.
- **The lightbox.** It takes a snapshot of the displayed images and picks a start index with a fallback to 0. Next and previous wrap around without a transition guard. Opening on an empty snapshot gives index 0; a next or previous step on an empty snapshot then takes a remainder by 0, and the index becomes NaN, modelled as `Position.NaN`. The keyboard map works only while its listener is registered.
- **The portfolio filter grid.** After a click on a filter button, that button is the only active one. Every item the filter selects is displayed, and every other item gets a `display: none` timeout 300 ms later.
- **The mobile menu.** It is open or closed. Opening it locks page scrolling, using the `Page.Body` object that the lightbox also writes.
- **The `throttle` helper and the header.** Despite its name, `throttle` is a trailing debounce. The header rule is "scrolled iff `scrollY > 50`".

Timers are explicit events. Each scheduled callback firing is its own method, and its `requires` says the callback is scheduled: `Carousel.Settle`, `Carousel.Tick`, `Carousel.RestartFires`, `Grid.FireHide`, `Throttle.Fire`. The caller chooses the order in which events happen. The delays are kept as constants of the model.

The inputs that come from the browser are:

- `isTouchDevice()`, a constructor argument of the carousel;
- the computed visibility of the portfolio items, the `displayed` flag of `Lightbox.Item`;
- the window width, the scroll position and touch coordinates, all method arguments;
- whether a click landed inside the menu or on the lightbox overlay, boolean arguments.

Going through the code showed two places where it does not do what it evidently means to do. Both are under "## Findings".

## Model

| member | source | states |
|---|---|---|
| `Gesture.Classify` | app.js:209-222 | a "next" swipe means the finger moved left by more than 50 px; a "prev" swipe means it moved right by more than 50 px; any swipe moved further sideways than vertically |
| `Gesture.ClassifyNavigatesIff` | app.js:215-221 | a touch navigates iff \|dx\| > 50 and \|dx\| > \|dy\|; it goes to the next item iff it navigates and the finger moved left |
| `Gesture.ThresholdIsExclusive` | app.js:620 | exactly 50 px sideways never navigates, whatever the vertical travel |
| `Gesture.TieIsNoSwipe` | app.js:433 | equal horizontal and vertical travel never navigates |
| `Gesture.MirrorFlips` | app.js:216-220 | mirroring a gesture left to right swaps next and previous |
| `Gesture.ReverseFlips` | app.js:430-431 | performing the gesture backwards swaps next and previous |
| `Gesture.TranslationInvariant` | app.js:211-212 | only the displacement matters, not where the gesture happens |
| `Gesture.BoundaryExamples` | app.js:428-440 | 49 px does not navigate; 51 px with no vertical travel goes next or previous by direction; 60 px sideways against 70 px vertical is rejected |
| `Gesture.SuppressesScroll` | app.js:193-197 | the hero and lightbox touch-move rule: horizontal travel exceeds vertical travel; `Gesture.NavigatingTouchSuppressesScroll` and `Gesture.SlopRuleRefinesPlainRule` state its properties |
| `Gesture.SuppressesScrollWithSlop` | app.js:589-592 | the testimonial touch-move rule: the plain rule and more than 10 px sideways |
| `Gesture.NavigatingTouchSuppressesScroll` | app.js:189-199 | if a touch ending at a point would navigate, a move to that point suppresses scrolling under both touch-move rules |
| `Gesture.SlopRuleRefinesPlainRule` | app.js:586-593 | the testimonial touch-move rule is the plain rule restricted to more than 10 px sideways |
| `Cycle.JsRem` | app.js:133 | JavaScript's remainder: it keeps the dividend's sign, is smaller than the divisor in magnitude, and is congruent to the dividend |
| `Cycle.Wrap` | app.js:474 | for every target n ≥ -len, `(n + len) % len` is a valid index congruent to n; below that, the result would be ≤ 0 |
| `Cycle.WrapKeepsValidIndex` | app.js:173-175 | an indicator or dot index that is already valid is kept as it is |
| `Cycle.PrevOfFirstIsLast` | app.js:149-151 | previous from index 0 gives len-1 |
| `Cycle.NextOfLastIsFirst` | app.js:145-147 | next from index len-1 gives 0 |
| `Cycle.SingleItemIsFixed` | app.js:513-519 | with one item, next and previous both stay at index 0 |
| `Cycle.NextPrevInverse` | app.js:145-151 | next and previous undo each other on every valid index |
| `Cycle.Advance` | app.js:111-115 | any number of successive next steps stays a valid index |
| `Cycle.AdvanceIsRotation` | app.js:513-515 | k next steps from index i reach (i + k) mod len |
| `Cycle.FullCircle` | app.js:523-527 | len next steps return to the starting index |
| `Cycle.LightboxFormulasAgree` | app.js:351-359 | the lightbox's `(i + 1) % len` and `(i - 1 + len) % len` agree with the carousel normalisation on valid indices |
| `Carousel.Carousel.constructor` | app.js:224-226 | initialisation shows item 0, which raises the guard, then starts the one auto-advance interval |
| `Carousel.Carousel.Init` | app.js:458 | no carousel is set up iff there are no items |
| `Carousel.Carousel.AtMostOneInterval` | app.js:109-123 | at most one interval is live, it is the one the timer variable holds, and its period is the configured interval |
| `Carousel.Carousel.Show` | app.js:125-143 | while a transition is in flight nothing changes; otherwise the index becomes `Wrap(n)`, the guard goes up, and the settle timeout is pending; timers are untouched |
| `Carousel.Carousel.Settle` | app.js:486-499 | the settle callback, and only it, drops the guard; the current card becomes active |
| `Carousel.Carousel.Next` | app.js:513-515 | the index advances by one modulo len unless the guard drops the call |
| `Carousel.Carousel.Prev` | app.js:517-519 | the index goes back by one modulo len unless the guard drops the call |
| `Carousel.Carousel.StopAuto` | app.js:118-123 | no interval is live afterwards; stopping when already stopped changes nothing |
| `Carousel.Carousel.StartAuto` | app.js:109-116 | it stops first, so exactly one fresh interval with the configured period is live and the previous one is cleared |
| `Carousel.Carousel.Tick` | app.js:523-527 | a tick advances only when no transition is in flight, and otherwise changes nothing |
| `Carousel.Carousel.NextButton` | app.js:154-161 | guarded next, then the timer is restarted, even when the guard dropped the navigation; the touch origin is kept |
| `Carousel.Carousel.PrevButton` | app.js:553-566 | guarded previous, then the timer is restarted, even when the guard dropped the navigation; the touch origin is kept |
| `Carousel.Carousel.IndicatorClick` | app.js:569-576 | a click on a dot or indicator goes to that item unless the guard drops it, then restarts the timer; the touch origin is kept |
| `Carousel.Carousel.TouchStart` | app.js:580-584 | records the touch origin and pauses the auto-advance |
| `Carousel.Carousel.TouchMove` | app.js:586-600 | scrolling is suppressed under the hero rule or under the testimonial rule, by kind |
| `Carousel.Carousel.TouchEnd` | app.js:201-206 | the swipe, judged against the origin `TouchStart` recorded, navigates, guarded; the guard is up afterwards iff it was up or the touch was a swipe; the origin is kept; the hero restarts its timer at once, and the testimonials schedule a restart and leave the timer alone |
| `Carousel.Carousel.RestartFires` | app.js:611 | the delayed restart after a touch restarts the timer and leaves the index, the guard and the touch origin as they were |
| `Carousel.Carousel.MouseEnter` | app.js:229-230 | on devices without touch, hovering pauses the auto-advance; on touch devices nothing happens |
| `Carousel.Carousel.MouseLeave` | app.js:640-643 | on devices without touch, leaving restarts the auto-advance; on touch devices nothing happens |
| `Lightbox.ImageOf` | app.js:297-300 | a snapshot entry keeps the item's `src` and its non-empty `alt`; an empty `alt` becomes "Portfolio Image" |
| `Lightbox.VisibleImages` | app.js:294-301 | the snapshot has no more entries than there are items |
| `Lightbox.VisibleImagesComplete` | app.js:295-296 | every displayed item is in the snapshot |
| `Lightbox.VisibleImagesSound` | app.js:296-300 | every snapshot entry comes from a displayed item |
| `Lightbox.FindIndex` | app.js:305 | gives the first position with the given `src`, or -1 iff there is none |
| `Lightbox.StartIndex` | app.js:305-307 | a non-empty snapshot starts at the first match, and at 0 when nothing matches |
| `Lightbox.OpensOnClickedItem` | app.js:376-384 | clicking a displayed item gives a non-empty snapshot whose start entry has that item's `src` |
| `Lightbox.KeyActionOf` | app.js:361-373 | Escape closes, ArrowRight goes next, ArrowLeft goes previous, and every other key is ignored |
| `Lightbox.StepNext` | app.js:351-354 | wraps within a non-empty snapshot; an empty snapshot or a NaN index gives NaN |
| `Lightbox.StepPrev` | app.js:356-359 | wraps within a non-empty snapshot; an empty snapshot or a NaN index gives NaN |
| `Lightbox.StepsAreInverse` | app.js:351-359 | next and previous undo each other on every valid position |
| `Lightbox.EmptySnapshotGivesNaN` | app.js:352 | dividing by an empty snapshot's length gives NaN, and NaN stays NaN |
| `Lightbox.Lightbox.constructor` | app.js:287-288 | the lightbox starts closed, with an empty snapshot at index 0 |
| `Lightbox.Lightbox.ShowImage` | app.js:325-334 | the image at the position is shown when there is one; otherwise the display is unchanged |
| `Lightbox.Lightbox.Open` | app.js:303-315 | takes the displayed images as the snapshot, starts at `StartIndex`, shows the overlay, locks scrolling and registers the key listener; the touch origin is kept |
| `Lightbox.Lightbox.ItemClick` | app.js:376-384 | opens on the first snapshot entry with the clicked item's `src` (0 when there is none), so clicking a displayed item shows an image with its `src`; the touch origin is kept |
| `Lightbox.Lightbox.Close` | app.js:317-323 | hides the overlay, unlocks scrolling and unregisters the key listener; the snapshot, the position, the shown image and the touch origin are kept |
| `Lightbox.Lightbox.NextImage` | app.js:351-354 | the position becomes `StepNext`, with no guard, and the shown image follows it; on an empty snapshot the shown image is kept |
| `Lightbox.Lightbox.PrevImage` | app.js:356-359 | the position becomes `StepPrev`, with no guard, and the shown image follows it; on an empty snapshot the shown image is kept |
| `Lightbox.Lightbox.KeyDown` | app.js:361-373 | keys act only while the listener is registered (iff the overlay is open), following `KeyActionOf`; the snapshot never changes, and on an empty one the shown image is kept; Escape closes and keeps the position and the image; the arrows step and keep the overlay, the listener and the scroll lock; ignored keys change nothing |
| `Lightbox.Lightbox.OverlayClick` | app.js:398-403 | the lightbox closes only when the overlay itself is clicked; either way the snapshot, the position, the shown image and the touch origin are kept |
| `Lightbox.Lightbox.TouchStart` | app.js:406-409 | records the touch origin |
| `Lightbox.Lightbox.TouchMove` | app.js:411-420 | scrolling is suppressed iff the horizontal movement dominates |
| `Lightbox.Lightbox.TouchEnd` | app.js:422-440 | the swipe, judged against the origin `TouchStart` recorded, steps the position next or previous, otherwise the position is unchanged; the origin, the snapshot and the overlay are kept, and on an empty snapshot so is the shown image |
| `Portfolio.Matches` | app.js:255 | the filter test: `all` or the item's own category; `Portfolio.RejectedExactly` and `Portfolio.Grid.Click` state the grid against it |
| `Portfolio.Rejected` | app.js:252 | every listed position is an item of the grid |
| `Portfolio.RejectedExactly` | app.js:255-270 | a position is listed iff the filter rejects the item there |
| `Portfolio.RejectedIncreasing` | app.js:252 | the positions are listed in page order, each at most once |
| `Portfolio.AllRejectsNothing` | app.js:255-270 | the `all` filter rejects no item, so a click on it schedules no hide timeout |
| `Portfolio.UnmatchedFilterRejectsAll` | app.js:255-270 | a filter other than `all` that names no item's category rejects every item, in page order |
| `Portfolio.Grid.constructor` | app.js:236-240 | at load every item is displayed under `all` with nothing pending |
| `Portfolio.Grid.Click` | app.js:242-273 | afterwards exactly the clicked button is active, every selected item is displayed, every rejected item gets a hide timeout, and the grid is consistent; with no items nothing is wired |
| `Portfolio.Grid.ActivateOnly` | app.js:248-249 | exactly the clicked button is active |
| `Portfolio.Grid.ApplyFilter` | app.js:252-271 | displays the selected items and schedules hiding for exactly the rejected ones |
| `Portfolio.Grid.FireHide` | app.js:267-269 | as written: the oldest pending hide hides its item without any check, and touches neither the buttons nor the filter |
| `Portfolio.Grid.FireHideChecked` | app.js:263-269 | corrected: a hide applies only if the current filter still rejects the item, which keeps the grid consistent; the buttons and the filter are untouched |
| `Portfolio.Grid.SettledShowsExactlySelected` | app.js:255-270 | once no hide is pending, an item is displayed iff the filter selects it |
| `Menu.MobileMenu.constructor` | app.js:18-23 | the menu starts closed |
| `Menu.MobileMenu.OpenMenu` | app.js:38-45 | opens the menu, locks scrolling and registers the Escape listener |
| `Menu.MobileMenu.CloseMenu` | app.js:47-54 | closes the menu, unlocks scrolling and unregisters the listener, whatever the previous state |
| `Menu.MobileMenu.ToggleClick` | app.js:25-36 | the toggle flips the menu, and the scroll lock follows |
| `Menu.MobileMenu.KeyDown` | app.js:56-60 | only Escape, and only while the listener is registered, closes the menu; any other key changes nothing |
| `Menu.MobileMenu.NavLinkClick` | app.js:63-65 | a navigation link closes the menu |
| `Menu.MobileMenu.DocumentClick` | app.js:68-72 | as written: any click outside the toggle and the navigation closes the menu and unlocks scrolling |
| `Menu.MobileMenu.DocumentClickFixed` | app.js:67-72 | corrected: the handler acts only on an open menu, and otherwise changes nothing |
| `Menu.MobileMenu.Resize` | app.js:75-79 | a width of 768 px or more closes the menu; a smaller width changes nothing |
| `Throttle.Run` | app.js:748-758 | reference behaviour of the closure over a run of calls and quiet periods: a call replaces the pending arguments, a quiet period invokes `func` with them if there are any; its properties are the three lemmas below and `Throttle.Throttle.Drive` |
| `Throttle.BurstInvokesOnceWithLast` | app.js:748-758 | a burst of calls followed by a quiet period invokes `func` once, with the last call's arguments |
| `Throttle.AtMostOneInvocationPerQuiet` | app.js:755-756 | `func` runs at most once per quiet period |
| `Throttle.InvocationsComeFromCalls` | app.js:750-753 | every invocation uses arguments that were passed to some call |
| `Throttle.Throttle.constructor` | app.js:748-749 | nothing is scheduled and nothing has been invoked |
| `Throttle.Throttle.Call` | app.js:750-757 | clears the pending timeout, so exactly one timeout with the newest arguments is scheduled, and invokes nothing |
| `Throttle.Throttle.Fire` | app.js:751-754 | the timeout fires: `func` is invoked once with the captured arguments, and nothing remains scheduled |
| `Throttle.Throttle.Drive` | app.js:748-758 | driving the closure with calls and timeout firings invokes `func` with exactly the arguments `Run` lists for that run, from the pending arguments it started with |
| `Header.Scrolled` | app.js:737 | the header condition `scrollY > 50`; `HeaderBar.Update` and `HeaderBar.ScrollPaused` state the class against it |
| `Header.HeaderBar.constructor` | app.js:744 | the scroll listener is `throttle(updateHeader, 10)`: a fresh throttle with wait 10 and nothing pending, and the header starts without `scrolled` |
| `Header.HeaderBar.Update` | app.js:736-742 | `scrolled` iff `scrollY > 50` |
| `Header.HeaderBar.Scroll` | app.js:744 | a scroll event reschedules the throttled update without touching the header |
| `Header.HeaderBar.ScrollPaused` | app.js:744 | when scrolling pauses, the header reflects the scroll position at that moment |
| `Scenarios.HeroEndToEnd` | app.js:109-179 | 5 slides: a tick moves 0 to 1; a click on indicator 3 before the settle is dropped but restarts the timer; after the settle the same click reaches 3 |
| `Scenarios.StartTwiceKeepsOneInterval` | app.js:521-528 | starting twice leaves exactly one live interval |
| `Scenarios.SingleItemStaysPut` | app.js:513-519 | a single-card carousel stays on card 0 under next and previous |
| `Scenarios.FilterHideRace` | app.js:242-273 | as written, a stale hide leaves a selected item hidden after everything has settled |
| `Scenarios.FilterHideRaceFixed` | app.js:242-273 | with the corrected callback, the same trace keeps the item displayed |
| `Scenarios.LightboxScrollLockLost` | app.js:303-315 | as written, the click that opens the lightbox also unlocks scrolling under it |
| `Scenarios.LightboxScrollLockKept` | app.js:68-72 | with the corrected document handler, the lock survives |

## Findings

| source | as written | input that shows it | evidently intended | confidence | as-written member | corrected member |
|---|---|---|---|---|---|---|
| app.js:263-269 | every item a click rejects gets a `display: none` timeout 300 ms later, and nothing ever cancels it | buttons `all` and `weddings` and one `portraits` item: click `weddings`, then `all` within 300 ms; the stale timeout hides the item while `all` is active (`Scenarios.FilterHideRace`) | an item the active filter selects stays displayed | medium: not executed | `Portfolio.Grid.FireHide` | `Portfolio.Grid.FireHideChecked` |
| app.js:68-72 | the document click handler calls `closeMenu` on every click outside the menu, even when the menu is closed, and `closeMenu` sets `body.style.overflow` to `''` | a click on a portfolio item: `openLightbox` locks scrolling, then the same click bubbles to the document and unlocks it (`Scenarios.LightboxScrollLockLost`) | the page does not scroll behind an open lightbox | medium: not executed | `Menu.MobileMenu.DocumentClick` | `Menu.MobileMenu.DocumentClickFixed` |

## Left out

- Portfolio.Grid.constructor: the starting state, with every item displayed and the filter `all`, is taken from the page's markup, which app.js does not set up itself; the model does not check which buttons the markup marks active, and the first click replaces the filter and the active button anyway.
- DOM lookups and the early returns for missing elements are left out. The model assumes the menu toggle and navigation, the lightbox overlay and image, and the buttons all exist. Two early returns are modelled: an empty slide or card list, by `Carousel.Init`, and an empty list of filter buttons or portfolio items (app.js:240), by `Grid.Click`, which changes nothing when there are no items and is only called for an existing button.
- `initContactForm` is called at app.js:10 but not defined in app.js. It is not part of this model. If no other script defines it, that call throws, and the initialisers after it never run.
- Cosmetic effects are left out: the testimonials' `next`/`prev` direction classes, the `direction` argument and the dots' direction choice, the drag-follow transform (floating-point, app.js:595-598), the star animation reset, the ripple, press and hover scaling, the opacity and transform stagger of the filter, and the touch-device style injection.
- Real time is not modelled. Callbacks fire in whatever order the caller chooses. The model does not enforce that, say, a pending 100 ms settle fires before a 7000 ms tick. Delays appear as constants only.
- Interval and timeout handles are counted per widget. In a browser they are global numbers; only their distinctness matters here.
- Image preloading (`new Image()`), IntersectionObserver reveal animations, smooth scrolling, the image error log and the About-section choreography are left out. They have no state that the rest of the page reads.
- Menu and lightbox keys and clicks reach each widget separately. Pressing Escape while both are open closes each of them, and the model shows this as two independent calls.
- Coordinates and `scrollY` are integers. A fractional `scrollY` between 50 and 51 is not represented.
- Lightbox.VisibleImages: its own contract states only the size bound. That its entries are exactly the displayed items' images, in page order, follows from its definition; `VisibleImagesComplete` and `VisibleImagesSound` state the membership in both directions.
- Carousel.Carousel.Show: it requires the target to be at least -len. Every caller in app.js passes such a target. Below that, `Cycle.Wrap` states that JavaScript would produce a non-positive index, which `showSlide` never receives.
