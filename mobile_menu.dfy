/**
 The mobile-menu button's click handler (script.js lines 223-233). The
 handler reads whether the menu carries the `hidden` class and, according
 to that alone, sets the `hidden` class of the menu, the menu icon and the
 close icon.
 */
module MobileMenu {

  /** Whether each of the three elements carries the `hidden` class. */
  datatype MenuFlags = MenuFlags(menuHidden: bool, menuIconHidden: bool, closeIconHidden: bool)

  /** The menu is closed and the button shows the menu icon. */
  predicate Collapsed(f: MenuFlags)
  {
    f == MenuFlags(true, false, true)
  }

  /** The menu is open and the button shows the close icon. */
  predicate Expanded(f: MenuFlags)
  {
    f == MenuFlags(false, true, false)
  }

  /** What one click does to the flags: the `if (isClosed)` branch opens, the `else` branch closes. */
  function Toggle(f: MenuFlags): (r: MenuFlags)
    ensures f.menuHidden ==> Expanded(r)
    ensures !f.menuHidden ==> Collapsed(r)
  {
    if f.menuHidden then MenuFlags(false, true, false) else MenuFlags(true, false, true)
  }

  /** After a click exactly one of the two icons is hidden, and the close icon shows exactly when the menu does. */
  lemma ToggleShowsOneIcon(f: MenuFlags)
    ensures Toggle(f).menuIconHidden != Toggle(f).closeIconHidden
    ensures Toggle(f).closeIconHidden == Toggle(f).menuHidden
    ensures Toggle(f).menuHidden == !f.menuHidden
  {
  }

  /** From a consistent state, a click switches between collapsed and expanded, and a second click restores the state. */
  lemma ToggleTwiceRestores(f: MenuFlags)
    requires Collapsed(f) || Expanded(f)
    ensures Collapsed(f) ==> Expanded(Toggle(f))
    ensures Expanded(f) ==> Collapsed(Toggle(f))
    ensures Toggle(Toggle(f)) == f
  {
  }

  /** The flags after `n` clicks. */
  function Clicks(f: MenuFlags, n: nat): MenuFlags
  {
    if n == 0 then f else Toggle(Clicks(f, n - 1))
  }

  /**
   From the collapsed state, the menu is open after an odd number of
   clicks and closed after an even number, with the matching icon shown.
   */
  lemma {:induction false} ClicksAlternate(f: MenuFlags, n: nat)
    requires Collapsed(f)
    ensures n % 2 == 1 ==> Expanded(Clicks(f, n))
    ensures n % 2 == 0 ==> Collapsed(Clicks(f, n))
  {
    if n > 0 {
      ClicksAlternate(f, n - 1);
    }
  }

  /** Once clicked, the flags never again reach an inconsistent state. */
  lemma ClicksStayConsistent(f: MenuFlags, n: nat)
    requires n > 0
    ensures Collapsed(Clicks(f, n)) || Expanded(Clicks(f, n))
    ensures Clicks(f, n).menuHidden == !Clicks(f, n - 1).menuHidden
  {
  }

  /** The three elements the handler touches. */
  class Menu {
    var menuHidden: bool
    var menuIconHidden: bool
    var closeIconHidden: bool

    function Flags(): MenuFlags
      reads this
    {
      MenuFlags(menuHidden, menuIconHidden, closeIconHidden)
    }

    /** The flags come from the page's markup. */
    constructor (initial: MenuFlags)
      ensures Flags() == initial
    {
      menuHidden := initial.menuHidden;
      menuIconHidden := initial.menuIconHidden;
      closeIconHidden := initial.closeIconHidden;
    }

    /** The click handler. */
    method Click()
      modifies this
      ensures Flags() == Toggle(old(Flags()))
      ensures menuIconHidden != closeIconHidden
      ensures menuHidden == !old(menuHidden)
    {
      var isClosed := menuHidden;
      if isClosed {
        menuHidden := false;
        menuIconHidden := true;
        closeIconHidden := false;
      } else {
        menuHidden := true;
        menuIconHidden := false;
        closeIconHidden := true;
      }
    }
  }
}
