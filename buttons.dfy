/** A keyboard or mouse button: a four-state press/release lifecycle. */
module Buttons {
  datatype ButtonState = Pressed | Released | Down | Up

  /** The state `press` moves to: a fresh press from Up or Released, held
      from Pressed on. */
  function AfterPress(s: ButtonState): (r: ButtonState)
    ensures r == Pressed || r == Down
    ensures r == Down <==> s == Pressed || s == Down
  {
    match s
    case Released | Up => Pressed
    case Pressed => Down
    case Down => Down
  }

  /** The state `release` moves to: a fresh release from Pressed or Down,
      at rest from Released on. */
  function AfterRelease(s: ButtonState): (r: ButtonState)
    ensures r == Released || r == Up
    ensures r == Up <==> s == Released || s == Up
  {
    match s
    case Up => Up
    case Pressed | Down => Released
    case Released => Up
  }

  /** Two presses from any state hold the button down. */
  lemma TwoPressesReachDown(s: ButtonState)
    ensures AfterPress(AfterPress(s)) == Down
  {
  }

  /** Two releases from any state bring the button to rest. */
  lemma TwoReleasesReachUp(s: ButtonState)
    ensures AfterRelease(AfterRelease(s)) == Up
  {
  }

  class Button {
    var state: ButtonState

    /** A new button is at rest. */
    constructor ()
      ensures state == Up
    {
      state := Up;
    }

    method Press()
      modifies this
      ensures state == AfterPress(old(state))
    {
      match state
      case Released | Up => state := Pressed;
      case Pressed => state := Down;
      case Down =>
    }

    method Release()
      modifies this
      ensures state == AfterRelease(old(state))
    {
      match state
      case Up =>
      case Pressed | Down => state := Released;
      case Released => state := Up;
    }

    predicate IsPressed()
      reads this
    {
      state == Pressed
    }

    predicate IsReleased()
      reads this
    {
      state == Released
    }

    predicate IsDown()
      reads this
    {
      state == Down
    }

    predicate IsUp()
      reads this
    {
      state == Up
    }
  }

  /** In every state exactly one of the four predicates holds. */
  lemma ExactlyOnePredicate(b: Button)
    ensures (if b.IsPressed() then 1 else 0) + (if b.IsReleased() then 1 else 0)
          + (if b.IsDown() then 1 else 0) + (if b.IsUp() then 1 else 0) == 1
  {
  }
}
