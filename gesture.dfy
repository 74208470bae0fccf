/**
 * The touch-gesture rules shared by the hero slideshow, the lightbox and the
 * testimonial carousel: the decision taken when a touch ends, and the rule that
 * decides, while a finger moves, whether the page's own scrolling is suppressed.
 * Coordinates are integers: the rules only subtract, take absolute values and compare.
 */
module Gesture {
  /** Minimum horizontal travel, in pixels, for a touch to count as a swipe. */
  const SwipeThreshold: int := 50
  /** Minimum horizontal travel, in pixels, before the testimonial carousel takes over a touch-move. */
  const DragSlop: int := 10

  /** What a finished touch asks the widget to do. */
  datatype Swipe = Next | Prev | NoSwipe

  function Abs(x: int): (r: int)
    ensures r >= 0 && (r == x || r == -x)
  {
    if x < 0 then -x else x
  }

  /** The opposite direction; a non-swipe stays a non-swipe. */
  function Flip(s: Swipe): (r: Swipe)
    ensures (s == Next <==> r == Prev) && (s == Prev <==> r == Next)
  {
    match s
    case Next => Prev
    case Prev => Next
    case NoSwipe => NoSwipe
  }

  /**
   * The decision of `handleSwipe`, `handleLightboxSwipe` and `handleTestimonialSwipe`:
   * with `dx = startX - endX` and `dy = |startY - endY|`, a swipe needs `|dx| > 50`
   * and `|dx| > dy`; a positive `dx` (the finger moved left) asks for the next item.
   */
  function Classify(startX: int, startY: int, endX: int, endY: int): (r: Swipe)
    ensures r == Next ==> endX < startX - SwipeThreshold
    ensures r == Prev ==> endX > startX + SwipeThreshold
    ensures r != NoSwipe ==> Abs(startY - endY) < Abs(startX - endX)
  {
    var dx := startX - endX;
    var dy := Abs(startY - endY);
    if Abs(dx) > SwipeThreshold && Abs(dx) > dy then
      if dx > 0 then Next else Prev
    else
      NoSwipe
  }

  /** Touch-move rule of the hero slideshow and the lightbox: horizontal movement dominates. */
  predicate SuppressesScroll(startX: int, startY: int, x: int, y: int)
  {
    Abs(x - startX) > Abs(y - startY)
  }

  /** Touch-move rule of the testimonial carousel: it also needs more than 10 pixels sideways. */
  predicate SuppressesScrollWithSlop(startX: int, startY: int, x: int, y: int)
  {
    SuppressesScroll(startX, startY, x, y) && Abs(x - startX) > DragSlop
  }

  /** A touch navigates exactly when it travels more than the threshold sideways and more sideways than up or down. */
  lemma ClassifyNavigatesIff(startX: int, startY: int, endX: int, endY: int)
    ensures Classify(startX, startY, endX, endY) != NoSwipe
        <==> Abs(startX - endX) > SwipeThreshold && Abs(startX - endX) > Abs(startY - endY)
    ensures Classify(startX, startY, endX, endY) == Next
        <==> Classify(startX, startY, endX, endY) != NoSwipe && endX < startX
  {
  }

  /** Exactly on the threshold nothing happens, whatever the vertical travel. */
  lemma ThresholdIsExclusive(startX: int, startY: int, endY: int)
    ensures Classify(startX, startY, startX - SwipeThreshold, endY) == NoSwipe
    ensures Classify(startX, startY, startX + SwipeThreshold, endY) == NoSwipe
  {
  }

  /** A tie between horizontal and vertical travel is not a swipe. */
  lemma TieIsNoSwipe(startX: int, startY: int, endX: int, endY: int)
    requires Abs(startX - endX) == Abs(startY - endY)
    ensures Classify(startX, startY, endX, endY) == NoSwipe
  {
  }

  /** Mirroring the gesture left-to-right swaps next and previous. */
  lemma MirrorFlips(startX: int, startY: int, endX: int, endY: int)
    ensures Classify(-startX, startY, -endX, endY) == Flip(Classify(startX, startY, endX, endY))
  {
  }

  /** Running the same gesture backwards swaps next and previous. */
  lemma ReverseFlips(startX: int, startY: int, endX: int, endY: int)
    ensures Classify(endX, endY, startX, startY) == Flip(Classify(startX, startY, endX, endY))
  {
  }

  /** Only the displacement matters, not where on the screen the gesture happens. */
  lemma TranslationInvariant(startX: int, startY: int, endX: int, endY: int, ox: int, oy: int)
    ensures Classify(startX + ox, startY + oy, endX + ox, endY + oy) == Classify(startX, startY, endX, endY)
  {
  }

  /** Concrete boundary cases: 49 px is too short, 51 px with no vertical travel navigates, 60 px against 70 px is rejected. */
  lemma BoundaryExamples()
    ensures Classify(100, 0, 51, 0) == NoSwipe
    ensures Classify(100, 0, 49, 0) == Next
    ensures Classify(49, 0, 100, 0) == Prev
    ensures Classify(100, 0, 40, 70) == NoSwipe
  {
  }

  /**
   * A touch that navigates when it ends at (endX, endY) would have had the page's
   * scrolling suppressed by every widget's touch-move rule had it moved there.
   */
  lemma NavigatingTouchSuppressesScroll(startX: int, startY: int, endX: int, endY: int)
    requires Classify(startX, startY, endX, endY) != NoSwipe
    ensures SuppressesScroll(startX, startY, endX, endY)
    ensures SuppressesScrollWithSlop(startX, startY, endX, endY)
  {
  }

  /** The testimonial rule is the plain rule restricted to moves of more than 10 pixels sideways. */
  lemma SlopRuleRefinesPlainRule(startX: int, startY: int, x: int, y: int)
    ensures SuppressesScrollWithSlop(startX, startY, x, y) ==> SuppressesScroll(startX, startY, x, y)
    ensures Abs(x - startX) > DragSlop ==>
      (SuppressesScrollWithSlop(startX, startY, x, y) <==> SuppressesScroll(startX, startY, x, y))
    ensures Abs(x - startX) <= DragSlop ==> !SuppressesScrollWithSlop(startX, startY, x, y)
  {
  }
}
