/**
 * The hero slideshow (`initHeroSlideshow`) and the testimonial carousel
 * (`initTestimonials`) as one class with two configurations. Timers are events:
 * the settle timeout that clears `isTransitioning`, the auto-advance interval's
 * tick, and (testimonials only) the delayed restart after a touch.
 */
module Carousel {
  import opened Wrappers
  import Gesture
  import Cycle

  datatype Kind = Hero | Testimonials

  /** Delay of the timeout that clears `isTransitioning` after a change of item. */
  function SettleDelay(kind: Kind): nat
  {
    match kind
    case Hero => 500
    case Testimonials => 100
  }

  /** Period of the auto-advance interval. */
  function AutoInterval(kind: Kind): nat
  {
    match kind
    case Hero => 5000
    case Testimonials => 7000
  }

  /** Delay after a touch ends before the testimonial carousel restarts its auto-advance. */
  const TouchRestartDelay: nat := 500

  class Carousel {
    const kind: Kind
    /** Number of slides or testimonial cards. */
    const count: int
    /** `isTouchDevice()`: the hover listeners are installed only when it is false. */
    const touchDevice: bool
    const settleMs: nat
    const intervalMs: nat

    /** `currentSlide` / `currentTestimonial` */
    var current: int
    /** `isTransitioning` */
    var transitioning: bool
    /** A settle timeout (after `settleMs`) is scheduled and has not fired yet. */
    var settlePending: bool
    /** `autoSlideTimer` / `autoTestimonialTimer`; 0 stands for null and undefined. */
    var timer: nat
    /** The intervals this widget has registered and not cleared: handle to period in ms. */
    var intervals: map<nat, nat>
    /** The handle the next `setInterval` returns; handles are positive and never reused. */
    var nextHandle: nat
    /** The item shown as active (slide and indicator, or card and dot); none while a card is moving in. */
    var active: Option<int>
    var touchStartX: int
    var touchStartY: int
    /** Testimonials: restart timeouts scheduled by `touchend` that have not fired yet. */
    var pendingRestarts: nat

    ghost predicate Valid()
      reads this
    {
      && 1 <= count
      && 0 <= current < count
      && settleMs == SettleDelay(kind) && intervalMs == AutoInterval(kind)
      && settlePending == transitioning
      && 0 < nextHandle
      && (timer == 0 ==> intervals == map[])
      && (timer != 0 ==> timer < nextHandle && intervals == map[timer := intervalMs])
      && (active.Some? ==> active.value == current)
      && (kind == Hero ==> active == Some(current) && pendingRestarts == 0)
      && (kind == Testimonials ==> (active.None? <==> transitioning))
    }

    /** Only the navigation state changed: timers and the touch origin are as before. */
    twostate predicate TimersUnchanged()
      reads this
    {
      && timer == old(timer) && intervals == old(intervals) && nextHandle == old(nextHandle)
      && pendingRestarts == old(pendingRestarts)
      && touchStartX == old(touchStartX) && touchStartY == old(touchStartY)
    }

    /** Only the auto-advance timer changed: index, guard and display are as before. */
    twostate predicate NavigationUnchanged()
      reads this
    {
      && current == old(current) && transitioning == old(transitioning)
      && settlePending == old(settlePending) && active == old(active)
      && touchStartX == old(touchStartX) && touchStartY == old(touchStartY)
      && pendingRestarts == old(pendingRestarts)
    }

    /** The auto-advance timer was (re)started: one fresh interval is live and any earlier one is cleared. */
    twostate predicate Restarted()
      reads this
    {
      timer == old(nextHandle) && nextHandle == old(nextHandle) + 1
      && intervals == map[timer := intervalMs]
    }

    /** Initialisation: `showSlide(0)` / `showTestimonial(0)`, then the auto-advance starts. */
    constructor (kind: Kind, count: int, touchDevice: bool)
      requires count >= 1
      ensures Valid()
      ensures this.kind == kind && this.count == count && this.touchDevice == touchDevice
      ensures current == 0 && transitioning && settlePending
      ensures active == (if kind == Hero then Some(0) else None)
      ensures timer == 1 && intervals == map[1 := AutoInterval(kind)] && pendingRestarts == 0
    {
      this.kind := kind;
      this.count := count;
      this.touchDevice := touchDevice;
      settleMs := SettleDelay(kind);
      intervalMs := AutoInterval(kind);
      current := 0;
      transitioning := false;
      settlePending := false;
      timer := 0;
      intervals := map[];
      nextHandle := 1;
      active := Some(0);
      touchStartX := 0;
      touchStartY := 0;
      pendingRestarts := 0;
      new;
      Show(0);
      StartAuto();
    }

    /** The widget is set up only when the page has at least one item. */
    static method Init(kind: Kind, count: nat, touchDevice: bool) returns (c: Carousel?)
      ensures c == null <==> count == 0
      ensures c != null ==> fresh(c) && c.Valid() && c.kind == kind && c.count == count
      ensures c != null ==> c.current == 0 && c.transitioning && c.timer != 0
    {
      if count == 0 {
        return null;
      }
      c := new Carousel(kind, count, touchDevice);
    }

    /** At most one auto-advance interval is ever live, and it is the one `timer` holds. */
    lemma AtMostOneInterval()
      requires Valid()
      ensures |intervals| <= 1
      ensures timer != 0 <==> timer in intervals
      ensures forall h :: h in intervals ==> h == timer && intervals[h] == intervalMs
    {
    }

    /**
     * `showSlide(n)` / `showTestimonial(n)`: dropped while a transition is in flight;
     * otherwise it normalises the target, raises the guard and schedules the settle timeout.
     */
    method Show(n: int)
      requires Valid() && n >= -count
      modifies this
      ensures Valid() && TimersUnchanged()
      ensures old(transitioning) ==> unchanged(this)
      ensures !old(transitioning) ==> transitioning && settlePending && current == Cycle.Wrap(n, count)
      ensures !old(transitioning) ==> active == (if kind == Hero then Some(current) else None)
    {
      if transitioning {
        return;
      }
      transitioning := true;
      current := Cycle.Wrap(n, count);
      active := if kind == Hero then Some(current) else None;
      settlePending := true;
    }

    /** The settle timeout fires: the guard drops and the (testimonial) card becomes active. */
    method Settle()
      requires Valid() && settlePending
      modifies this
      ensures Valid() && TimersUnchanged()
      ensures !transitioning && !settlePending
      ensures current == old(current) && active == Some(current)
    {
      active := Some(current);
      transitioning := false;
      settlePending := false;
    }

    /** `nextSlide` / `nextTestimonial` */
    method Next()
      requires Valid()
      modifies this
      ensures Valid() && TimersUnchanged()
      ensures current == if old(transitioning) then old(current) else Cycle.Wrap(old(current) + 1, count)
      ensures transitioning
    {
      Show(current + 1);
    }

    /** `prevSlide` / `prevTestimonial` */
    method Prev()
      requires Valid()
      modifies this
      ensures Valid() && TimersUnchanged()
      ensures current == if old(transitioning) then old(current) else Cycle.Wrap(old(current) - 1, count)
      ensures transitioning
    {
      Show(current - 1);
    }

    /** `stopAutoSlide` / `stopAutoTestimonials`: clears the live interval; a no-op when there is none. */
    method StopAuto()
      requires Valid()
      modifies this
      ensures Valid() && NavigationUnchanged()
      ensures timer == 0 && intervals == map[] && nextHandle == old(nextHandle)
      ensures old(timer) == 0 ==> unchanged(this)
    {
      if timer != 0 {
        intervals := intervals - {timer};
        timer := 0;
      }
    }

    /** `startAutoSlide` / `startAutoTestimonials`: always stops first, so one interval stays live. */
    method StartAuto()
      requires Valid()
      modifies this
      ensures Valid() && NavigationUnchanged() && Restarted()
      ensures old(timer) != 0 ==> old(timer) !in intervals
    {
      StopAuto();
      timer := nextHandle;
      intervals := intervals[timer := intervalMs];
      nextHandle := nextHandle + 1;
    }

    /** The live interval fires: it advances only when no transition is in flight. */
    method Tick(handle: nat)
      requires Valid() && handle in intervals
      modifies this
      ensures Valid() && TimersUnchanged()
      ensures old(transitioning) ==> unchanged(this)
      ensures !old(transitioning) ==> transitioning && current == Cycle.Wrap(old(current) + 1, count)
    {
      if !transitioning {
        Next();
      }
    }

    /** The next button: navigate (possibly dropped by the guard), then stop and restart the auto-advance. */
    method NextButton()
      requires Valid()
      modifies this
      ensures Valid() && Restarted()
      ensures current == if old(transitioning) then old(current) else Cycle.Wrap(old(current) + 1, count)
      ensures transitioning && pendingRestarts == old(pendingRestarts)
      ensures touchStartX == old(touchStartX) && touchStartY == old(touchStartY)
    {
      Next();
      StopAuto();
      StartAuto();
    }

    /** The previous button. */
    method PrevButton()
      requires Valid()
      modifies this
      ensures Valid() && Restarted()
      ensures current == if old(transitioning) then old(current) else Cycle.Wrap(old(current) - 1, count)
      ensures transitioning && pendingRestarts == old(pendingRestarts)
      ensures touchStartX == old(touchStartX) && touchStartY == old(touchStartY)
    {
      Prev();
      StopAuto();
      StartAuto();
    }

    /** A click on indicator (hero) or progress dot (testimonials) number `index`. */
    method IndicatorClick(index: nat)
      requires Valid()
      modifies this
      ensures Valid() && Restarted()
      ensures current == if old(transitioning) then old(current) else Cycle.Wrap(index, count)
      ensures index < count && !old(transitioning) ==> current == index
      ensures transitioning && pendingRestarts == old(pendingRestarts)
      ensures touchStartX == old(touchStartX) && touchStartY == old(touchStartY)
    {
      if index < count {
        Cycle.WrapKeepsValidIndex(index, count);
      }
      Show(index);
      StopAuto();
      StartAuto();
    }

    /** `touchstart`: remember where the finger went down and pause the auto-advance. */
    method TouchStart(x: int, y: int)
      requires Valid()
      modifies this
      ensures Valid() && touchStartX == x && touchStartY == y
      ensures timer == 0 && intervals == map[] && nextHandle == old(nextHandle)
      ensures current == old(current) && transitioning == old(transitioning) && active == old(active)
      ensures pendingRestarts == old(pendingRestarts)
    {
      touchStartX := x;
      touchStartY := y;
      StopAuto();
    }

    /** `touchmove`: whether the page's default scrolling is suppressed. */
    method TouchMove(x: int, y: int) returns (preventDefault: bool)
      requires Valid()
      ensures kind == Hero ==> preventDefault == Gesture.SuppressesScroll(touchStartX, touchStartY, x, y)
      ensures kind == Testimonials ==>
        preventDefault == Gesture.SuppressesScrollWithSlop(touchStartX, touchStartY, x, y)
    {
      if kind == Hero {
        preventDefault := Gesture.SuppressesScroll(touchStartX, touchStartY, x, y);
      } else {
        preventDefault := Gesture.SuppressesScrollWithSlop(touchStartX, touchStartY, x, y);
      }
    }

    /**
     * `touchend`: classify the gesture and navigate; the hero restarts its
     * auto-advance at once, the testimonials schedule a restart 500 ms later.
     */
    method TouchEnd(x: int, y: int)
      requires Valid()
      modifies this
      ensures Valid()
      ensures var s := Gesture.Classify(old(touchStartX), old(touchStartY), x, y);
        current == (if old(transitioning) || s == Gesture.NoSwipe then old(current)
                    else if s == Gesture.Next then Cycle.Wrap(old(current) + 1, count)
                    else Cycle.Wrap(old(current) - 1, count))
      ensures var s := Gesture.Classify(old(touchStartX), old(touchStartY), x, y);
        transitioning == (old(transitioning) || s != Gesture.NoSwipe)
      ensures touchStartX == old(touchStartX) && touchStartY == old(touchStartY)
      ensures kind == Hero ==> Restarted()
      ensures kind == Testimonials ==>
        && pendingRestarts == old(pendingRestarts) + 1 && timer == old(timer) && intervals == old(intervals)
        && nextHandle == old(nextHandle)
    {
      var s := Gesture.Classify(touchStartX, touchStartY, x, y);
      if s == Gesture.Next {
        Next();
      } else if s == Gesture.Prev {
        Prev();
      }
      if kind == Hero {
        StartAuto();
      } else {
        pendingRestarts := pendingRestarts + 1;
      }
    }

    /** Testimonials: a restart timeout scheduled by `touchend` fires. */
    method RestartFires()
      requires Valid() && pendingRestarts > 0
      modifies this
      ensures Valid() && Restarted()
      ensures pendingRestarts == old(pendingRestarts) - 1
      ensures current == old(current) && transitioning == old(transitioning) && active == old(active)
      ensures touchStartX == old(touchStartX) && touchStartY == old(touchStartY)
    {
      pendingRestarts := pendingRestarts - 1;
      StartAuto();
    }

    /** `mouseenter`: pauses the auto-advance, on devices without touch only. */
    method MouseEnter()
      requires Valid()
      modifies this
      ensures Valid() && NavigationUnchanged()
      ensures touchDevice ==> unchanged(this)
      ensures !touchDevice ==> timer == 0 && intervals == map[]
    {
      if !touchDevice {
        StopAuto();
      }
    }

    /** `mouseleave`: restarts the auto-advance, on devices without touch only. */
    method MouseLeave()
      requires Valid()
      modifies this
      ensures Valid() && NavigationUnchanged()
      ensures touchDevice ==> unchanged(this)
      ensures !touchDevice ==> Restarted()
    {
      if !touchDevice {
        StartAuto();
      }
    }
  }
}
