/** The mobile menu's click handlers (the DOMContentLoaded callback of
    js/main.js): four class flags on three elements, toggled together by the
    menu button and forced closed by a click on any link in the menu. */
module MobileMenu {

  /** The class flags the handlers touch: `hidden` and `flex` on the menu,
      `hidden` on the hamburger icon and on the close icon. */
  datatype Flags = Flags(menuHidden: bool, menuFlex: bool, hamburgerHidden: bool, closeHidden: bool)

  /** Menu hidden, hamburger shown, close icon hidden. */
  const Closed := Flags(true, false, false, true)

  /** Menu shown as flex, hamburger hidden, close icon shown. */
  const Open := Flags(false, true, true, false)

  /** One of the two configurations the page is designed to show. */
  predicate Coherent(f: Flags)
  {
    f == Closed || f == Open
  }

  /** The button handler: `classList.toggle` on each of the four flags. It
      keeps the menu coherent or incoherent, and opens exactly a closed menu. */
  function Toggled(f: Flags): (r: Flags)
    ensures Coherent(r) <==> Coherent(f)
    ensures r == Open <==> f == Closed
  {
    Flags(!f.menuHidden, !f.menuFlex, !f.hamburgerHidden, !f.closeHidden)
  }

  /** A link handler: add or remove each class so as to reach Closed. */
  function LinkClicked(f: Flags): Flags
  {
    f.(menuHidden := true, menuFlex := false, hamburgerHidden := false, closeHidden := true)
  }

  /** Two button clicks restore every flag; one click swaps Open and Closed. */
  lemma ToggleFacts(f: Flags)
    ensures Toggled(Toggled(f)) == f
    ensures Toggled(f) != f
    ensures Toggled(Closed) == Open && Toggled(Open) == Closed
  {
  }

  /** A link click closes the menu from any state, and again changes nothing. */
  lemma LinkClickCloses(f: Flags)
    ensures LinkClicked(f) == Closed
    ensures LinkClicked(LinkClicked(f)) == LinkClicked(f)
  {
  }

  datatype Click = Button | Link

  /** The flags after a sequence of clicks. */
  function AfterClicks(f: Flags, clicks: seq<Click>): Flags
    decreases |clicks|
  {
    if clicks == [] then f
    else AfterClicks(if clicks[0] == Button then Toggled(f) else LinkClicked(f), clicks[1..])
  }

  /** The number of button clicks after the last link click (all of them
      when there is no link click). */
  function ButtonsSinceLink(clicks: seq<Click>): nat
  {
    if clicks == [] then 0
    else if clicks[|clicks| - 1] == Link then 0
    else ButtonsSinceLink(clicks[..|clicks| - 1]) + 1
  }

  function ToggledTimes(f: Flags, n: nat): Flags
  {
    if n == 0 then f else Toggled(ToggledTimes(f, n - 1))
  }

  lemma {:induction false} ToggledTimesParity(f: Flags, n: nat)
    ensures ToggledTimes(f, n) == if n % 2 == 0 then f else Toggled(f)
  {
    if n > 0 {
      ToggledTimesParity(f, n - 1);
      ToggleFacts(f);
    }
  }

  lemma {:induction false} AfterClicksSnoc(f: Flags, clicks: seq<Click>, last: Click)
    ensures AfterClicks(f, clicks + [last]) ==
            (if last == Button then Toggled(AfterClicks(f, clicks)) else LinkClicked(AfterClicks(f, clicks)))
    decreases |clicks|
  {
    if clicks != [] {
      assert (clicks + [last])[1..] == clicks[1..] + [last];
      AfterClicksSnoc(if clicks[0] == Button then Toggled(f) else LinkClicked(f), clicks[1..], last);
    } else {
      assert [last][1..] == [];
    }
  }

  /** Any sequence of clicks ends in Closed when its last link click is
      followed by an even number of button clicks, in Open when by an odd
      number; without a link click the flags are the start flags toggled once
      per button click, so an incoherent start stays incoherent. */
  lemma {:induction false} ClicksOutcome(f: Flags, clicks: seq<Click>)
    ensures Link in clicks ==>
              AfterClicks(f, clicks) == if ButtonsSinceLink(clicks) % 2 == 0 then Closed else Open
    ensures Link !in clicks ==> AfterClicks(f, clicks) == ToggledTimes(f, |clicks|)
    decreases |clicks|
  {
    if clicks != [] {
      var init := clicks[..|clicks| - 1];
      var last := clicks[|clicks| - 1];
      assert clicks == init + [last];
      AfterClicksSnoc(f, init, last);
      ClicksOutcome(f, init);
      if last == Button {
        assert Link in clicks <==> Link in init;
        ToggledTimesParity(Closed, 1);
        ToggleFacts(f);
      }
    }
  }

  /** Clicks keep the menu coherent when it starts coherent, and make it
      coherent if and only if there is a link click when it does not. */
  lemma CoherentAfterClicks(f: Flags, clicks: seq<Click>)
    ensures Coherent(AfterClicks(f, clicks)) <==> Coherent(f) || Link in clicks
  {
    ClicksOutcome(f, clicks);
    if Link !in clicks {
      ToggledTimesParity(f, |clicks|);
      ToggleFacts(f);
    }
  }

  /** The three elements' class lists, as far as the handlers touch them. */
  class Menu {
    var menuHidden: bool
    var menuFlex: bool
    var hamburgerHidden: bool
    var closeHidden: bool

    function View(): Flags
      reads this
    {
      Flags(menuHidden, menuFlex, hamburgerHidden, closeHidden)
    }

    constructor (initial: Flags)
      ensures View() == initial
    {
      menuHidden, menuFlex := initial.menuHidden, initial.menuFlex;
      hamburgerHidden, closeHidden := initial.hamburgerHidden, initial.closeHidden;
    }

    /** The menu button's click handler. */
    method ClickButton()
      modifies this
      ensures View() == Toggled(old(View()))
    {
      menuHidden := !menuHidden;
      menuFlex := !menuFlex;
      hamburgerHidden := !hamburgerHidden;
      closeHidden := !closeHidden;
    }

    /** A menu link's click handler. */
    method ClickLink()
      modifies this
      ensures View() == LinkClicked(old(View()))
    {
      menuHidden := true;
      menuFlex := false;
      hamburgerHidden := false;
      closeHidden := true;
    }
  }
}
