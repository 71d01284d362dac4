/** The older game controller: input, logger, an owned window and the
    running flag; it listens to its own window's events. */
module GameControllers {
  import opened Wrappers
  import opened Events
  import opened Windows
  import Inputs
  import Logging

  /** What the second listener saw of one window event: its kind, and
      whether it was already consumed when it reached that listener. */
  datatype Seen = Seen(kind: WindowEvent, consumed: bool)

  /** Whether any of the events asks for the window to close. */
  ghost predicate AnyCloseRequest(events: seq<WindowEvent>)
  {
    exists i :: 0 <= i < |events| && events[i] == CloseRequested
  }

  /** A close request among the first `i + 1` events is one among the
      first `i` or the event at `i`. */
  lemma CloseRequestSnoc(events: seq<Event<WindowEvent>>, i: nat)
    requires i < |events|
    ensures AnyCloseRequest(KindsOf(events[..i + 1])) <==>
      AnyCloseRequest(KindsOf(events[..i])) || events[i].kind == CloseRequested
  {
    assert KindsOf(events[..i + 1]) == KindsOf(events[..i]) + [events[i].kind];
  }

  class GameController {
    const input: Inputs.Input
    const logger: Logging.Logger
    var window: Option<Window>
    var isRunning: bool

    /** A new controller owns a window and is not running. */
    constructor ()
      ensures fresh(input) && fresh(logger) && !isRunning
      ensures window.Some? && fresh(window.value) && window.value.pending == []
    {
      input := new Inputs.Input();
      logger := new Logging.Logger();
      var w := new Window();
      window := Some(w);
      isRunning := false;
    }

    function IsRunning(): (r: bool)
      reads this
      ensures r <==> isRunning
    {
      isRunning
    }

    method CloseGame()
      modifies this
      ensures !isRunning && window == old(window)
    {
      isRunning := false;
    }

    method Start()
      modifies this
      ensures isRunning && window == old(window)
    {
      isRunning := true;
    }

    /** A close request closes the game and consumes the event; any other
        event is left alone. */
    method Handle(event: Event<WindowEvent>)
      modifies this, event
      ensures window == old(window)
      ensures event.kind == CloseRequested ==> !isRunning && event.consumed
      ensures event.kind != CloseRequested ==> isRunning == old(isRunning) && event.consumed == old(event.consumed)
    {
      if event.kind == CloseRequested {
        CloseGame();
        var _ := event.Consume();
      }
    }

    /** Takes the window out, hands each queued event first to this
        controller and then to `listener`, empties the queue and puts the
        window back. The listener is foreign code; its view is returned. */
    method HandleWindowEvents() returns (seen: seq<Seen>)
      modifies this, (if window.Some? then {window.value} else {}), (if window.Some? then window.value.pending else [])
      ensures window == old(window)
      ensures old(window).None? ==> isRunning == old(isRunning) && seen == []
      ensures old(window).Some? ==>
        var events := old(window.value.pending);
        && window.value.pending == []
        && (isRunning <==> old(isRunning) && !AnyCloseRequest(KindsOf(events)))
        && |seen| == |events|
        && forall i :: 0 <= i < |events| ==>
             seen[i] == Seen(events[i].kind, old(events[i].consumed) || events[i].kind == CloseRequested)
    {
      var taken := window;
      window := None;
      seen := [];
      if taken.Some? {
        var w := taken.value;
        seen := Deliver(w.pending);
        w.pending := [];
      }
      window := taken;
    }

    /** Hands each of `events`, in order, to this controller and then to
        the listener, whose view is returned. */
    method Deliver(events: seq<Event<WindowEvent>>) returns (seen: seq<Seen>)
      modifies this, events
      ensures window == old(window)
      ensures isRunning <==> old(isRunning) && !AnyCloseRequest(KindsOf(events))
      ensures |seen| == |events|
      ensures forall i :: 0 <= i < |events| ==>
        seen[i] == Seen(events[i].kind, old(events[i].consumed) || events[i].kind == CloseRequested)
    {
      seen := [];
      for i := 0 to |events|
        invariant window == old(window)
        invariant isRunning <==> old(isRunning) && !AnyCloseRequest(KindsOf(events[..i]))
        invariant |seen| == i
        invariant forall k :: 0 <= k < i ==>
          seen[k] == Seen(events[k].kind, old(events[k].consumed) || events[k].kind == CloseRequested)
        invariant forall k :: i <= k < |events| && events[k].kind != CloseRequested ==>
          events[k].consumed == old(events[k].consumed)
      {
        CloseRequestSnoc(events, i);
        Handle(events[i]);
        seen := seen + [Seen(events[i].kind, events[i].consumed)];
      }
      assert events[..|events|] == events;
    }
  }

  /** The kinds of a sequence of events. */
  function KindsOf(events: seq<Event<WindowEvent>>): (kinds: seq<WindowEvent>)
    ensures |kinds| == |events|
    ensures forall i :: 0 <= i < |events| ==> kinds[i] == events[i].kind
  {
    if events == [] then [] else KindsOf(events[..|events| - 1]) + [events[|events| - 1].kind]
  }
}
