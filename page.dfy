/** State of the page that several widgets write: the scroll lock on `document.body`. */
module Page {
  /** `document.body.style.overflow`: `'hidden'` (locked) or `''` (unlocked). */
  class Body {
    var scrollLocked: bool

    constructor ()
      ensures !scrollLocked
    {
      scrollLocked := false;
    }
  }
}
