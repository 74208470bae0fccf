/**
 * The portfolio lightbox (`initLightbox`): a snapshot of the images displayed
 * when it opens, a position in that snapshot that wraps around without any
 * transition guard, a keyboard map that is live only while the overlay is open,
 * and the same swipe rule as the carousels.
 */
module Lightbox {
  import opened Wrappers
  import Gesture
  import Cycle
  import Page

  /** One entry of `currentImages`. */
  datatype Image = Image(src: string, alt: string)

  /** A portfolio item: whether its computed display is not `none`, and its image's `src` and `alt`. */
  datatype Item = Item(displayed: bool, src: string, alt: string)

  /** `currentIndex`: a number, or NaN once a remainder by an empty snapshot's length was taken. */
  datatype Position = At(index: int) | NaN

  /** What `handleLightboxKeyboard` does with a key. */
  datatype KeyAction = Close | ShowNext | ShowPrev | Ignore

  /** The `alt` used when an image has none. */
  const DefaultAlt: string := "Portfolio Image"

  /** The snapshot entry of one item: its `src`, and its `alt` or the default when that is empty. */
  function ImageOf(item: Item): (r: Image)
    ensures r.src == item.src && r.alt != ""
    ensures item.alt != "" ==> r.alt == item.alt
    ensures item.alt == "" ==> r.alt == DefaultAlt
  {
    Image(item.src, if item.alt == "" then DefaultAlt else item.alt)
  }

  /** `getVisibleImages`: the displayed items' images, in page order. */
  function VisibleImages(items: seq<Item>): (r: seq<Image>)
    ensures |r| <= |items|
  {
    if items == [] then []
    else (if items[0].displayed then [ImageOf(items[0])] else []) + VisibleImages(items[1..])
  }

  /** Every displayed item has its image in the snapshot. */
  lemma {:induction false} VisibleImagesComplete(items: seq<Item>, k: int)
    requires 0 <= k < |items| && items[k].displayed
    ensures ImageOf(items[k]) in VisibleImages(items)
  {
    if k > 0 {
      VisibleImagesComplete(items[1..], k - 1);
      assert items[1..][k - 1] == items[k];
    }
  }

  /** Every image in the snapshot comes from a displayed item. */
  lemma {:induction false} VisibleImagesSound(items: seq<Item>, img: Image)
    requires img in VisibleImages(items)
    ensures exists k :: 0 <= k < |items| && items[k].displayed && ImageOf(items[k]) == img
  {
    if !(items[0].displayed && img == ImageOf(items[0])) {
      assert img in VisibleImages(items[1..]);
      VisibleImagesSound(items[1..], img);
      var k :| 0 <= k < |items[1..]| && items[1..][k].displayed && ImageOf(items[1..][k]) == img;
      assert items[k + 1] == items[1..][k];
    }
  }

  /** `findIndex(img => img.src === src)`: the first position with that `src`, or -1. */
  function FindIndex(images: seq<Image>, src: string): (r: int)
    ensures -1 <= r < |images|
    ensures r >= 0 ==> images[r].src == src && forall j :: 0 <= j < r ==> images[j].src != src
    ensures r == -1 <==> forall j :: 0 <= j < |images| ==> images[j].src != src
  {
    if images == [] then -1
    else if images[0].src == src then 0
    else
      var k := FindIndex(images[1..], src);
      if k == -1 then -1 else k + 1
  }

  /** The position `openLightbox` starts at: the first match, with a fallback to 0. */
  function StartIndex(images: seq<Image>, src: string): (r: nat)
    ensures images != [] ==> r < |images|
    ensures (exists j :: 0 <= j < |images| && images[j].src == src) ==>
      images[r].src == src && forall j :: 0 <= j < r ==> images[j].src != src
    ensures (forall j :: 0 <= j < |images| ==> images[j].src != src) ==> r == 0
  {
    var k := FindIndex(images, src);
    if k == -1 then 0 else k
  }

  /** Opening the lightbox on a displayed item starts on an image with that item's `src`. */
  lemma OpensOnClickedItem(items: seq<Item>, k: int)
    requires 0 <= k < |items| && items[k].displayed
    ensures VisibleImages(items) != []
    ensures var images := VisibleImages(items);
      images[StartIndex(images, items[k].src)].src == items[k].src
  {
    var images := VisibleImages(items);
    VisibleImagesComplete(items, k);
    var j :| 0 <= j < |images| && images[j] == ImageOf(items[k]);
    assert images[j].src == items[k].src;
  }

  /** The keyboard map; every key other than these three is ignored. */
  function KeyActionOf(key: string): (r: KeyAction)
    ensures r == Close <==> key == "Escape"
    ensures r == ShowNext <==> key == "ArrowRight"
    ensures r == ShowPrev <==> key == "ArrowLeft"
  {
    if key == "Escape" then Close
    else if key == "ArrowRight" then ShowNext
    else if key == "ArrowLeft" then ShowPrev
    else Ignore
  }

  /** `nextLightboxImage`'s `(currentIndex + 1) % currentImages.length`. */
  function StepNext(p: Position, len: nat): (r: Position)
    ensures (len == 0 || p.NaN?) ==> r.NaN?
    ensures p.At? && 0 <= p.index < len ==> r.At? && 0 <= r.index < len
    ensures p.At? && 0 <= p.index < len ==> r.index == Cycle.Wrap(p.index + 1, len)
  {
    match p
    case NaN => NaN
    case At(i) =>
      if len == 0 then NaN
      else
        var r := At(Cycle.JsRem(i + 1, len));
        assert 0 <= i < len ==> r.index == Cycle.Wrap(i + 1, len) by {
          if 0 <= i < len { Cycle.LightboxFormulasAgree(i, len); }
        }
        r
  }

  /** `prevLightboxImage`'s `(currentIndex - 1 + currentImages.length) % currentImages.length`. */
  function StepPrev(p: Position, len: nat): (r: Position)
    ensures (len == 0 || p.NaN?) ==> r.NaN?
    ensures p.At? && 0 <= p.index < len ==> r.At? && 0 <= r.index < len
    ensures p.At? && 0 <= p.index < len ==> r.index == Cycle.Wrap(p.index - 1, len)
  {
    match p
    case NaN => NaN
    case At(i) =>
      if len == 0 then NaN
      else
        var r := At(Cycle.JsRem(i - 1 + len, len));
        assert 0 <= i < len ==> r.index == Cycle.Wrap(i - 1, len) by {
          if 0 <= i < len { Cycle.LightboxFormulasAgree(i, len); }
        }
        r
  }

  /** Next and previous undo each other on every valid position. */
  lemma StepsAreInverse(p: Position, len: nat)
    requires p.At? && 0 <= p.index < len
    ensures StepPrev(StepNext(p, len), len) == p
    ensures StepNext(StepPrev(p, len), len) == p
  {
    Cycle.NextPrevInverse(p.index, len);
  }

  /** An empty snapshot turns the position into NaN, and NaN stays NaN. */
  lemma EmptySnapshotGivesNaN(p: Position)
    ensures StepNext(p, 0) == NaN && StepPrev(p, 0) == NaN
    ensures StepNext(NaN, 1) == NaN && StepPrev(NaN, 1) == NaN
  {
  }

  class Lightbox {
    const body: Page.Body
    /** `currentImages` */
    var images: seq<Image>
    /** `currentIndex` */
    var position: Position
    /** The overlay's `active` class. */
    var active: bool
    /** `handleLightboxKeyboard` is registered on the document. */
    var keyListener: bool
    /** What `lightboxImg` shows (its `src` and `alt`). */
    var shown: Option<Image>
    var touchStartX: int
    var touchStartY: int

    ghost predicate Valid()
      reads this
    {
      && keyListener == active
      && (images != [] ==>
            position.At? && 0 <= position.index < |images| && shown == Some(images[position.index]))
    }

    constructor (body: Page.Body)
      ensures Valid() && this.body == body
      ensures images == [] && position == At(0) && !active && !keyListener && shown == None
    {
      this.body := body;
      images := [];
      position := At(0);
      active := false;
      keyListener := false;
      shown := None;
      touchStartX := 0;
      touchStartY := 0;
    }

    /** `showLightboxImage`: shows the entry at the position, when there is one. */
    method ShowImage()
      modifies this`shown
      ensures position.At? && 0 <= position.index < |images| ==> shown == Some(images[position.index])
      ensures !(position.At? && 0 <= position.index < |images|) ==> shown == old(shown)
    {
      if position.At? && 0 <= position.index < |images| {
        shown := Some(images[position.index]);
      }
    }

    /** `openLightbox(src)`: snapshot the displayed images, pick the start, show, lock scrolling, listen to keys. */
    method Open(items: seq<Item>, src: string)
      requires Valid()
      modifies this, body
      ensures Valid() && active && keyListener && body.scrollLocked
      ensures images == VisibleImages(items) && position == At(StartIndex(images, src))
      ensures images == [] ==> shown == old(shown)
      ensures touchStartX == old(touchStartX) && touchStartY == old(touchStartY)
    {
      images := VisibleImages(items);
      position := At(StartIndex(images, src));
      ShowImage();
      active := true;
      body.scrollLocked := true;
      keyListener := true;
    }

    /** A click on portfolio item `k`: opens on that item's image. */
    method ItemClick(items: seq<Item>, k: nat)
      requires Valid() && k < |items|
      modifies this, body
      ensures Valid() && active && keyListener && body.scrollLocked
      ensures images == VisibleImages(items) && position == At(StartIndex(images, items[k].src))
      ensures items[k].displayed ==> shown.Some? && shown.value.src == items[k].src
      ensures touchStartX == old(touchStartX) && touchStartY == old(touchStartY)
    {
      if items[k].displayed {
        OpensOnClickedItem(items, k);
      }
      Open(items, items[k].src);
    }

    /** `closeLightbox`: hide the overlay, unlock scrolling, stop listening to keys. */
    method Close()
      requires Valid()
      modifies this, body
      ensures Valid() && !active && !keyListener && !body.scrollLocked
      ensures images == old(images) && position == old(position) && shown == old(shown)
      ensures touchStartX == old(touchStartX) && touchStartY == old(touchStartY)
    {
      active := false;
      body.scrollLocked := false;
      keyListener := false;
    }

    /** `nextLightboxImage`: wraps to the first image after the last; no transition guard. */
    method NextImage()
      requires Valid()
      modifies this`position, this`shown
      ensures Valid() && position == StepNext(old(position), |images|)
      ensures images == [] ==> shown == old(shown)
    {
      position := StepNext(position, |images|);
      ShowImage();
    }

    /** `prevLightboxImage`: wraps to the last image before the first. */
    method PrevImage()
      requires Valid()
      modifies this`position, this`shown
      ensures Valid() && position == StepPrev(old(position), |images|)
      ensures images == [] ==> shown == old(shown)
    {
      position := StepPrev(position, |images|);
      ShowImage();
    }

    /** A key pressed anywhere in the document: handled only while the listener is registered. */
    method KeyDown(key: string)
      requires Valid()
      modifies this, body
      ensures Valid() && images == old(images)
      ensures touchStartX == old(touchStartX) && touchStartY == old(touchStartY)
      ensures images == [] ==> shown == old(shown)
      ensures !old(keyListener) || KeyActionOf(key) == Ignore ==> unchanged(this) && unchanged(body)
      ensures old(keyListener) && key == "Escape" ==>
        !active && !keyListener && !body.scrollLocked && position == old(position) && shown == old(shown)
      ensures old(keyListener) && (key == "ArrowRight" || key == "ArrowLeft") ==>
        active == old(active) && keyListener == old(keyListener) && body.scrollLocked == old(body.scrollLocked)
      ensures old(keyListener) && key == "ArrowRight" ==> position == StepNext(old(position), |images|)
      ensures old(keyListener) && key == "ArrowLeft" ==> position == StepPrev(old(position), |images|)
    {
      if !keyListener {
        return;
      }
      match KeyActionOf(key)
      case Close => Close();
      case ShowNext => NextImage();
      case ShowPrev => PrevImage();
      case Ignore =>
    }

    /** A click on the overlay: it closes only when the overlay itself, not the image, was clicked. */
    method OverlayClick(onOverlay: bool)
      requires Valid()
      modifies this, body
      ensures Valid()
      ensures onOverlay ==> !active && !keyListener && !body.scrollLocked
      ensures images == old(images) && position == old(position) && shown == old(shown)
      ensures touchStartX == old(touchStartX) && touchStartY == old(touchStartY)
      ensures !onOverlay ==> unchanged(this) && unchanged(body)
    {
      if onOverlay {
        Close();
      }
    }

    method TouchStart(x: int, y: int)
      requires Valid()
      modifies this
      ensures Valid() && touchStartX == x && touchStartY == y
      ensures images == old(images) && position == old(position) && shown == old(shown) && active == old(active)
    {
      touchStartX := x;
      touchStartY := y;
    }

    /** `touchmove`: default scrolling is suppressed when the movement is mostly sideways. */
    method TouchMove(x: int, y: int) returns (preventDefault: bool)
      ensures preventDefault == Gesture.SuppressesScroll(touchStartX, touchStartY, x, y)
    {
      preventDefault := Gesture.SuppressesScroll(touchStartX, touchStartY, x, y);
    }

    /** `touchend`: `handleLightboxSwipe`. */
    method TouchEnd(x: int, y: int)
      requires Valid()
      modifies this
      ensures Valid() && images == old(images) && active == old(active)
      ensures touchStartX == old(touchStartX) && touchStartY == old(touchStartY)
      ensures images == [] ==> shown == old(shown)
      ensures var s := Gesture.Classify(old(touchStartX), old(touchStartY), x, y);
        position == (if s == Gesture.Next then StepNext(old(position), |images|)
                     else if s == Gesture.Prev then StepPrev(old(position), |images|)
                     else old(position))
    {
      var s := Gesture.Classify(touchStartX, touchStartY, x, y);
      if s == Gesture.Next {
        NextImage();
      } else if s == Gesture.Prev {
        PrevImage();
      }
    }
  }
}
