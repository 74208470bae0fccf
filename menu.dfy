/**
 * The mobile navigation menu (`initMobileMenu`): open or closed; while open the
 * page cannot scroll and an Escape-key listener is registered. The toggle's
 * click stops propagation, so the document-level click handler never sees it.
 */
module Menu {
  import Page

  /** From this viewport width on the desktop layout applies and the menu closes. */
  const DesktopWidth: int := 768

  class MobileMenu {
    const body: Page.Body
    /** The `active` class on the toggle and on the navigation. */
    var open: bool
    /** `handleEscapeKey` is registered on the document. */
    var escapeListener: bool

    ghost predicate Valid()
      reads this
    {
      escapeListener == open
    }

    constructor (body: Page.Body)
      ensures Valid() && this.body == body && !open
    {
      this.body := body;
      open := false;
      escapeListener := false;
    }

    /** `openMenu` */
    method OpenMenu()
      modifies this, body
      ensures Valid() && open && body.scrollLocked
    {
      open := true;
      body.scrollLocked := true;
      escapeListener := true;
    }

    /** `closeMenu`: it unlocks scrolling whether or not the menu was open. */
    method CloseMenu()
      modifies this, body
      ensures Valid() && !open && !body.scrollLocked
    {
      open := false;
      body.scrollLocked := false;
      escapeListener := false;
    }

    /** A click on the toggle flips the menu. */
    method ToggleClick()
      requires Valid()
      modifies this, body
      ensures Valid() && open == !old(open) && body.scrollLocked == open
    {
      if open {
        CloseMenu();
      } else {
        OpenMenu();
      }
    }

    /** A key pressed in the document: only Escape, and only while the listener is registered, closes the menu. */
    method KeyDown(key: string)
      requires Valid()
      modifies this, body
      ensures Valid()
      ensures old(escapeListener) && key == "Escape" ==> !open && !body.scrollLocked
      ensures !(old(escapeListener) && key == "Escape") ==> unchanged(this) && unchanged(body)
    {
      if escapeListener && key == "Escape" {
        CloseMenu();
      }
    }

    /** A click on a navigation link closes the menu. */
    method NavLinkClick()
      modifies this, body
      ensures Valid() && !open && !body.scrollLocked
    {
      CloseMenu();
    }

    /** A click anywhere in the document, as the source handles it: outside the toggle and the navigation it closes the menu. */
    method DocumentClick(insideMenu: bool)
      requires Valid()
      modifies this, body
      ensures Valid()
      ensures !insideMenu ==> !open && !body.scrollLocked
      ensures insideMenu ==> unchanged(this) && unchanged(body)
    {
      if !insideMenu {
        CloseMenu();
      }
    }

    /** The corrected document click: it closes the menu only when the menu is open, and otherwise touches nothing. */
    method DocumentClickFixed(insideMenu: bool)
      requires Valid()
      modifies this, body
      ensures Valid()
      ensures !insideMenu && old(open) ==> !open && !body.scrollLocked
      ensures insideMenu || !old(open) ==> unchanged(this) && unchanged(body)
    {
      if !insideMenu && open {
        CloseMenu();
      }
    }

    /** A window resize: from the desktop width on the menu closes. */
    method Resize(width: int)
      requires Valid()
      modifies this, body
      ensures Valid()
      ensures width >= DesktopWidth ==> !open && !body.scrollLocked
      ensures width < DesktopWidth ==> unchanged(this) && unchanged(body)
    {
      if width >= DesktopWidth {
        CloseMenu();
      }
    }
  }
}
