/**
 * The hamburger menu (src/components/HamburgerNav.tsx): one `open` flag,
 * flipped by the trigger button and forced closed by Escape, by a mouse-down
 * outside both the trigger and the panel, and by choosing an item, which then
 * runs that item's callback if one was supplied.
 *
 * DOM containment is abstracted as the region a mouse-down lands in; focus
 * moves and callbacks are recorded in an effects trace.
 */
module HamburgerNav {

  /** The five menu items, in panel order. */
  datatype Item = Home | About | Login | Logout | Settings

  /** Where a document mouse-down lands. */
  datatype Target = InMenu | InButton | Outside

  /** An observable side effect of a handler. */
  datatype Effect = FocusTrigger | Invoked(item: Item)

  /** The events the component reacts to. */
  datatype Event = Toggle | KeyDown(key: string) | MouseDown(target: Target) | Select(item: Item)

  /** Events after which the menu is closed whatever its state was. */
  predicate Closes(e: Event) {
    || e.Select?
    || (e.KeyDown? && e.key == "Escape")
    || (e.MouseDown? && e.target == Outside)
  }

  /** The `open` flag after one event. */
  function NextOpen(open: bool, e: Event): (next: bool)
    ensures e.Toggle? ==> next == !open
    ensures Closes(e) ==> !next
    ensures !e.Toggle? && !Closes(e) ==> next == open
    ensures !open && e.MouseDown? ==> !next
  {
    match e
    case Toggle => !open
    case KeyDown(key) => if key == "Escape" then false else open
    case MouseDown(target) =>
      if !open then open
      else if target == Outside then false
      else open
    case Select(_) => false
  }

  /** The `open` flag after a run of events, first event first. */
  function OpenAfter(open: bool, es: seq<Event>): bool
    decreases es
  {
    if es == [] then open else OpenAfter(NextOpen(open, es[0]), es[1..])
  }

  /** Toggles since the last closing event, counted from the end of the run. */
  function TogglesSinceClose(es: seq<Event>): nat
  {
    if es == [] then 0
    else if Closes(es[|es| - 1]) then 0
    else TogglesSinceClose(es[..|es| - 1]) + (if es[|es| - 1].Toggle? then 1 else 0)
  }

  /** Whether some event of the run closes the menu. */
  predicate SomeClose(es: seq<Event>) {
    exists i :: 0 <= i < |es| && Closes(es[i])
  }

  lemma {:induction false} OpenAfterSnoc(open: bool, es: seq<Event>, e: Event)
    ensures OpenAfter(open, es + [e]) == NextOpen(OpenAfter(open, es), e)
    decreases es
  {
    if es != [] {
      assert (es + [e])[1..] == es[1..] + [e];
      OpenAfterSnoc(NextOpen(open, es[0]), es[1..], e);
    }
  }

  /**
   * Whatever happens, the menu is open exactly when the number of toggles
   * since the last closing event (or since the start, from the initial
   * state) is odd.
   */
  lemma {:induction false} OpenIffOddToggles(open: bool, es: seq<Event>)
    ensures OpenAfter(open, es) ==
              if SomeClose(es) then TogglesSinceClose(es) % 2 == 1
              else (TogglesSinceClose(es) % 2 == 1) != open
  {
    if es == [] {
      return;
    }
    var init, e := es[..|es| - 1], es[|es| - 1];
    assert es == init + [e];
    OpenAfterSnoc(open, init, e);
    OpenIffOddToggles(open, init);
    if Closes(e) {
      assert SomeClose(es) by { assert Closes(es[|es| - 1]); }
    } else {
      assert SomeClose(es) == SomeClose(init) by {
        if SomeClose(es) {
          var i :| 0 <= i < |es| && Closes(es[i]);
          assert i < |init| && init[i] == es[i];
        }
        if SomeClose(init) {
          var i :| 0 <= i < |init| && Closes(init[i]);
          assert es[i] == init[i];
        }
      }
    }
  }

  /** From the closed initial state: open exactly after an odd number of toggles since the last close. */
  lemma MenuOpenFromStart(es: seq<Event>)
    ensures OpenAfter(false, es) <==> TogglesSinceClose(es) % 2 == 1
  {
    OpenIffOddToggles(false, es);
  }

  /** The trigger's accessible name. */
  function ToggleLabel(open: bool): (name: string)
    ensures open ==> name == "Close menu"
    ensures !open ==> name == "Open menu"
  {
    if open then "Close menu" else "Open menu"
  }

  /**
   * What the trigger shows after any run of events from the closed start:
   * "Close menu" (with the panel rendered and `aria-expanded` true) exactly
   * when the toggles since the last closing event are odd, "Open menu" otherwise.
   */
  lemma LabelAfterRun(es: seq<Event>)
    ensures ToggleLabel(OpenAfter(false, es)) == "Close menu" <==> TogglesSinceClose(es) % 2 == 1
    ensures ToggleLabel(OpenAfter(false, es)) == "Open menu" <==> TogglesSinceClose(es) % 2 == 0
  {
    MenuOpenFromStart(es);
  }

  class NavMenu {
    /** The items whose callback prop was supplied. */
    const handlers: set<Item>
    var open: bool
    /** Every focus move and callback run, oldest first. */
    var effects: seq<Effect>

    constructor (handlers: set<Item>)
      ensures this.handlers == handlers
      ensures !open && effects == []
    {
      this.handlers := handlers;
      open := false;
      effects := [];
    }

    /** The trigger's click. */
    method HandleToggle()
      modifies this`open
      ensures open == NextOpen(old(open), Toggle) && open == !old(open)
    {
      open := !open;
    }

    /** The document keydown listener: Escape closes and returns focus to the trigger, in any state. */
    method OnDocumentKeyDown(key: string)
      modifies this`open, this`effects
      ensures open == NextOpen(old(open), KeyDown(key))
      ensures key == "Escape" ==> !open && effects == old(effects) + [FocusTrigger]
      ensures key != "Escape" ==> open == old(open) && effects == old(effects)
    {
      if key == "Escape" {
        open := false;
        effects := effects + [FocusTrigger];
      }
    }

    /** The document mousedown listener. */
    method OnClickAway(target: Target)
      modifies this`open
      ensures open == NextOpen(old(open), MouseDown(target))
      ensures open <==> old(open) && target != Outside
    {
      if !open {
        return;
      }
      if target == Outside {
        open := false;
      }
    }

    /** Choosing an item: close first, then run its callback if supplied. */
    method HandleItem(item: Item)
      modifies this`open, this`effects
      ensures open == NextOpen(old(open), Select(item)) && !open
      ensures effects == old(effects) + (if item in handlers then [Invoked(item)] else [])
    {
      open := false;
      if item in handlers {
        effects := effects + [Invoked(item)];
      }
    }
  }
}
