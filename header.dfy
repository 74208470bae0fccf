/**
 * The header's scroll behaviour (`initHeaderScroll`): the `scrolled` class is on
 * exactly when the page is scrolled more than 50 pixels, and the scroll listener
 * is `throttle(updateHeader, 10)`, so the header is updated once scrolling pauses.
 */
module Header {
  import Throttle
  import opened Wrappers

  const ScrollThreshold: int := 50
  const ScrollWait: nat := 10

  /** `window.scrollY > 50` */
  predicate Scrolled(scrollY: int)
  {
    scrollY > ScrollThreshold
  }

  class HeaderBar {
    /** The test is made on scroll events, which carry nothing the update reads. */
    const onScroll: Throttle.Throttle<()>
    /** The header's `scrolled` class. */
    var scrolled: bool

    ghost predicate Valid()
      reads this, onScroll
    {
      onScroll.Valid() && onScroll.wait == ScrollWait
    }

    constructor ()
      ensures Valid() && fresh(onScroll) && !scrolled && onScroll.Pending().None?
    {
      onScroll := new Throttle.Throttle(ScrollWait);
      scrolled := false;
    }

    /** `updateHeader`, reading the scroll position at the time it runs. */
    method Update(scrollY: int)
      modifies this
      ensures scrolled == Scrolled(scrollY)
    {
      if scrollY > ScrollThreshold {
        scrolled := true;
      } else {
        scrolled := false;
      }
    }

    /** A scroll event: the throttled listener reschedules the update. */
    method Scroll()
      requires Valid()
      modifies onScroll
      ensures Valid() && onScroll.Pending() == Some(()) && scrolled == old(scrolled)
    {
      onScroll.Call(());
    }

    /** Scrolling paused for 10 ms: the pending update runs with the scroll position of that moment. */
    method ScrollPaused(scrollY: int)
      requires Valid() && onScroll.Pending().Some?
      modifies this, onScroll
      ensures Valid() && onScroll.Pending().None? && scrolled == Scrolled(scrollY)
    {
      onScroll.Fire();
      Update(scrollY);
    }
  }
}
