/**
 * Client traces over the widgets, proved from their contracts alone: the
 * end-to-end carousel scenario, and the two traces behind the findings in
 * README.md together with the same traces under the corrected handlers.
 */
module Scenarios {
  import Carousel
  import Lightbox
  import Menu
  import Page
  import Portfolio

  /**
   * A 5-slide hero: the settle of the initial show fires, a tick moves 0 to 1,
   * a click on indicator 3 before that transition settles is dropped (but still
   * restarts the auto-advance), and the same click after the settle goes to 3.
   */
  method HeroEndToEnd() returns (afterTick: int, afterEarlyClick: int, restarted: bool, afterSettledClick: int)
    ensures afterTick == 1 && afterEarlyClick == 1 && restarted && afterSettledClick == 3
  {
    var hero := new Carousel.Carousel(Carousel.Hero, 5, false);
    hero.Settle();
    hero.Tick(hero.timer);
    afterTick := hero.current;
    var before := hero.timer;
    hero.IndicatorClick(3);
    afterEarlyClick := hero.current;
    restarted := hero.timer != before && |hero.intervals| == 1;
    hero.Settle();
    hero.IndicatorClick(3);
    afterSettledClick := hero.current;
  }

  /** Starting the auto-advance twice leaves exactly one live interval. */
  method StartTwiceKeepsOneInterval() returns (live: nat)
    ensures live == 1
  {
    var carousel := new Carousel.Carousel(Carousel.Testimonials, 3, true);
    carousel.StartAuto();
    carousel.StartAuto();
    live := |carousel.intervals|;
  }

  /** With a single testimonial, next and previous both stay on card 0. */
  method SingleItemStaysPut() returns (afterNext: int, afterPrev: int)
    ensures afterNext == 0 && afterPrev == 0
  {
    var carousel := new Carousel.Carousel(Carousel.Testimonials, 1, true);
    carousel.Settle();
    carousel.NextButton();
    afterNext := carousel.current;
    carousel.Settle();
    carousel.PrevButton();
    afterPrev := carousel.current;
  }

  /**
   * Filter "weddings" (the portraits item gets a pending hide), then "all" within
   * 300 ms; the stale hide fires: nothing is pending, the filter selects the
   * item, and yet the item is hidden.
   */
  method FilterHideRace() returns (settled: bool, selected: bool, displayed: bool)
    ensures settled && selected && !displayed
  {
    var grid := new Portfolio.Grid(["all", "weddings"], ["portraits"], [true, false]);
    grid.Click(1);
    grid.Click(0);
    grid.FireHide();
    settled := grid.pendingHides == [];
    selected := Portfolio.Matches(grid.filter, grid.categories[0]);
    displayed := grid.displayed[0];
  }

  /** The same trace with the corrected hide callback keeps the item displayed. */
  method FilterHideRaceFixed() returns (settled: bool, selected: bool, displayed: bool)
    ensures settled && selected && displayed
  {
    var grid := new Portfolio.Grid(["all", "weddings"], ["portraits"], [true, false]);
    grid.Click(1);
    grid.Click(0);
    grid.FireHideChecked();
    settled := grid.pendingHides == [];
    selected := Portfolio.Matches(grid.filter, grid.categories[0]);
    displayed := grid.displayed[0];
  }

  /**
   * A click on a portfolio item opens the lightbox and locks scrolling; the same
   * click then bubbles to the document, whose handler closes the (already closed)
   * menu and unlocks scrolling under the open lightbox.
   */
  method LightboxScrollLockLost() returns (lightboxOpen: bool, scrollLocked: bool)
    ensures lightboxOpen && !scrollLocked
  {
    var body := new Page.Body();
    var menu := new Menu.MobileMenu(body);
    var lightbox := new Lightbox.Lightbox(body);
    lightbox.ItemClick([Lightbox.Item(true, "a.jpg", "")], 0);
    menu.DocumentClick(false);
    lightboxOpen := lightbox.active;
    scrollLocked := body.scrollLocked;
  }

  /** With the corrected document handler the lock survives the bubbling click. */
  method LightboxScrollLockKept() returns (lightboxOpen: bool, scrollLocked: bool)
    ensures lightboxOpen && scrollLocked
  {
    var body := new Page.Body();
    var menu := new Menu.MobileMenu(body);
    var lightbox := new Lightbox.Lightbox(body);
    lightbox.ItemClick([Lightbox.Item(true, "a.jpg", "")], 0);
    menu.DocumentClickFixed(false);
    lightboxOpen := lightbox.active;
    scrollLocked := body.scrollLocked;
  }
}
