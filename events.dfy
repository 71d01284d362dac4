/** An event delivered to listeners, which any listener may consume. */
module Events {
  class Event<T> {
    const kind: T
    var consumed: bool

    /** A new event is not consumed. */
    constructor (kind: T)
      ensures this.kind == kind && !consumed
    {
      this.kind := kind;
      consumed := false;
    }

    function IsConsumed(): (r: bool)
      reads this
      ensures r <==> consumed
    {
      consumed
    }

    /** Marks the event consumed. Only the first call reports true; later
        calls change nothing. The kind is a constant and never changes. */
    method Consume() returns (first: bool)
      modifies this
      ensures first == !old(consumed)
      ensures consumed
    {
      if consumed {
        return false;
      }
      consumed := true;
      return true;
    }
  }

  /** Consuming twice: the second call reports false and leaves the event
      consumed, whatever its state before. */
  method ConsumeTwice<T>(e: Event<T>) returns (first: bool, second: bool)
    modifies e
    ensures first == !old(e.consumed) && !second && e.consumed
  {
    first := e.Consume();
    second := e.Consume();
  }
}
