/**
 * `pinnedObjects`, the set of object names whose labels stay fully visible.
 * The pin button in the info panel toggles the focused object's name; the
 * × button next to an entry of the pinned list removes that name.
 */
module Pins {
  import opened Wrappers

  /** The set after flipping the membership of `name`. */
  function Toggle(pinned: set<string>, name: string): (r: set<string>)
    ensures name in r <==> name !in pinned
    ensures forall other :: other != name ==> (other in r <==> other in pinned)
  {
    if name in pinned then pinned - {name} else pinned + {name}
  }

  /** Pressing the pin button twice on the same object restores the set. */
  lemma ToggleTwice(pinned: set<string>, name: string)
    ensures Toggle(Toggle(pinned, name), name) == pinned
  {
  }

  /** Toggling different names commutes: the set depends only on how often each name was pressed. */
  lemma ToggleCommutes(pinned: set<string>, a: string, b: string)
    ensures Toggle(Toggle(pinned, a), b) == Toggle(Toggle(pinned, b), a)
  {
  }

  class PinBoard {
    var pinned: set<string>

    constructor ()
      ensures pinned == {}
    {
      pinned := {};
    }

    /**
     * The pin button. With no focused object, or one without a name (the
     * empty string is falsy), nothing happens; otherwise the name is deleted
     * if present and added if not.
     */
    method PinButton(focusName: Option<string>)
      modifies this
      ensures focusName.None? || focusName.value == [] ==> pinned == old(pinned)
      ensures focusName.Some? && focusName.value != [] ==> pinned == Toggle(old(pinned), focusName.value)
    {
      if focusName.None? || focusName.value == [] {
        return;
      }
      var name := focusName.value;
      if name in pinned {
        pinned := pinned - {name};
      } else {
        pinned := pinned + {name};
      }
    }

    /** The × button of one pinned entry: only that name leaves the set. */
    method Unpin(name: string)
      modifies this
      ensures name !in pinned
      ensures forall other :: other != name ==> (other in pinned <==> other in old(pinned))
      ensures pinned == old(pinned) - {name}
    {
      pinned := pinned - {name};
    }

    /** Whether a label with this name is pinned (`pinnedObjects.has(name)`). */
    predicate IsPinned(name: string)
      reads this
    {
      name in pinned
    }
  }

  /** Pin Earth, pin Mars, unpin Earth from the list: only Mars stays pinned. */
  method PinTwoUnpinOne() returns (earth: bool, mars: bool)
    ensures !earth && mars
  {
    var board := new PinBoard();
    board.PinButton(Some("Earth"));
    board.PinButton(Some("Mars"));
    board.Unpin("Earth");
    earth, mars := board.IsPinned("Earth"), board.IsPinned("Mars");
  }
}
