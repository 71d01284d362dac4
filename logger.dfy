/** The engine's logger: it fans every write out to its listeners, in
    registration order, and keeps a block level and a stack of subjects.
    Listeners are foreign code; the model records what each is sent. The
    wall-clock timestamp of `writeln` is a parameter. */
module Logging {
  import opened Wrappers

  type ListenerId = nat

  /** One `write(context, msg)` call received by one listener. */
  datatype Delivery = Delivery(listener: ListenerId, context: Option<string>, msg: string)

  const U32Max: nat := 0xFFFF_FFFF
  const Separation := "  "
  const BlockOverflow := "attempt to add with overflow"

  /** The context a listener is given: None for the empty string. */
  function ContextOf(context: string): (c: Option<string>)
    ensures c.None? <==> context == []
    ensures c.Some? ==> c.value == context
  {
    if |context| > 0 then Some(context) else None
  }

  /** One delivery of (context, msg) to each listener, in order. */
  function Fanout(listeners: seq<ListenerId>, context: Option<string>, msg: string): seq<Delivery>
  {
    if listeners == [] then []
    else Fanout(listeners[..|listeners| - 1], context, msg) + [Delivery(listeners[|listeners| - 1], context, msg)]
  }

  lemma {:induction false} FanoutExact(listeners: seq<ListenerId>, context: Option<string>, msg: string)
    ensures |Fanout(listeners, context, msg)| == |listeners|
    ensures forall i :: 0 <= i < |listeners| ==> Fanout(listeners, context, msg)[i] == Delivery(listeners[i], context, msg)
  {
    if listeners != [] {
      FanoutExact(listeners[..|listeners| - 1], context, msg);
    }
  }

  /** What `writeln` sends one listener: the timestamp, a separation, the
      context (when there is one) and another separation, the message and
      a line break. */
  function LineFor(listener: ListenerId, timestamp: string, context: string, msg: string): seq<Delivery>
  {
    if |context| > 0 then
      [Delivery(listener, Some("timestamp"), timestamp), Delivery(listener, None, Separation),
       Delivery(listener, Some(context), context), Delivery(listener, None, Separation),
       Delivery(listener, None, msg), Delivery(listener, None, "\n")]
    else
      [Delivery(listener, Some("timestamp"), timestamp), Delivery(listener, None, Separation),
       Delivery(listener, None, msg), Delivery(listener, None, "\n")]
  }

  /** `writeln` for every listener in order. */
  function Lines(listeners: seq<ListenerId>, timestamp: string, context: string, msg: string): seq<Delivery>
  {
    if listeners == [] then []
    else Lines(listeners[..|listeners| - 1], timestamp, context, msg) + LineFor(listeners[|listeners| - 1], timestamp, context, msg)
  }

  /** `Lines` over one more listener adds that listener's lines at the end. */
  lemma LinesSnoc(pre: seq<Delivery>, listeners: seq<ListenerId>, i: nat, timestamp: string, context: string, msg: string)
    requires i < |listeners|
    ensures pre + Lines(listeners[..i + 1], timestamp, context, msg) ==
      pre + Lines(listeners[..i], timestamp, context, msg) + LineFor(listeners[i], timestamp, context, msg)
  {
    assert listeners[..i + 1][..i] == listeners[..i];
  }

  /** How many writes `writeln` makes per listener. */
  function WritesPerListener(context: string): nat
  {
    if |context| > 0 then 6 else 4
  }

  /** `writeln` makes six writes per listener with a context and four
      without. */
  lemma {:induction false} LinesCount(listeners: seq<ListenerId>, timestamp: string, context: string, msg: string)
    ensures |Lines(listeners, timestamp, context, msg)| == WritesPerListener(context) * |listeners|
  {
    if listeners != [] {
      var p := listeners[..|listeners| - 1];
      LinesCount(p, timestamp, context, msg);
      var n := WritesPerListener(context);
      assert n * |listeners| == n * |p| + n;
    }
  }

  /** Writing lines to two groups of listeners is writing to the first
      group, then to the second. */
  lemma {:induction false} LinesConcat(a: seq<ListenerId>, b: seq<ListenerId>, timestamp: string, context: string, msg: string)
    ensures Lines(a + b, timestamp, context, msg) == Lines(a, timestamp, context, msg) + Lines(b, timestamp, context, msg)
  {
    if b != [] {
      var q := b[..|b| - 1];
      LinesConcat(a, q, timestamp, context, msg);
      assert (a + b)[..|a + b| - 1] == a + q;
    } else {
      assert a + b == a;
    }
  }

  /** Each listener's writes come together, after the writes to every
      listener registered before it and before those registered after it. */
  lemma ListenerBlock(listeners: seq<ListenerId>, i: nat, timestamp: string, context: string, msg: string)
    requires i < |listeners|
    ensures Lines(listeners, timestamp, context, msg)
      == Lines(listeners[..i], timestamp, context, msg) + LineFor(listeners[i], timestamp, context, msg)
         + Lines(listeners[i + 1..], timestamp, context, msg)
  {
    assert listeners == listeners[..i] + [listeners[i]] + listeners[i + 1..];
    LinesConcat(listeners[..i] + [listeners[i]], listeners[i + 1..], timestamp, context, msg);
    LinesConcat(listeners[..i], [listeners[i]], timestamp, context, msg);
    assert [listeners[i]][..0] == [];
  }

  class Logger {
    var contextEnabled: bool
    var listeners: seq<ListenerId>
    /** A `u32`. */
    var blockLevel: nat
    var subjects: seq<string>
    /** Every write the listeners have received, in order. */
    var delivered: seq<Delivery>

    constructor ()
      ensures contextEnabled && listeners == [] && blockLevel == 0 && subjects == [] && delivered == []
    {
      contextEnabled := true;
      listeners := [];
      blockLevel := 0;
      subjects := [];
      delivered := [];
    }

    method Register(listener: ListenerId)
      modifies this
      ensures listeners == old(listeners) + [listener]
      ensures blockLevel == old(blockLevel) && subjects == old(subjects) && delivered == old(delivered) && contextEnabled == old(contextEnabled)
    {
      listeners := listeners + [listener];
    }

    method ClearListeners()
      modifies this
      ensures listeners == []
      ensures blockLevel == old(blockLevel) && subjects == old(subjects) && delivered == old(delivered) && contextEnabled == old(contextEnabled)
    {
      listeners := [];
    }

    /** Sends (context, msg) to every listener, the context as None when it
        is empty. */
    method Write(context: string, msg: string)
      modifies this
      ensures delivered == old(delivered) + Fanout(listeners, ContextOf(context), msg)
      ensures listeners == old(listeners) && blockLevel == old(blockLevel) && subjects == old(subjects) && contextEnabled == old(contextEnabled)
    {
      var c := if |context| > 0 then Some(context) else None;
      for i := 0 to |listeners|
        invariant listeners == old(listeners) && blockLevel == old(blockLevel) && subjects == old(subjects) && contextEnabled == old(contextEnabled)
        invariant delivered == old(delivered) + Fanout(listeners[..i], c, msg)
      {
        assert listeners[..i + 1][..i] == listeners[..i];
        delivered := delivered + [Delivery(listeners[i], c, msg)];
      }
      assert listeners[..|listeners|] == listeners;
    }

    /** Sends a timestamped line to every listener; always succeeds. */
    method WriteLine(context: string, msg: string, timestamp: string) returns (r: Result<(), string>)
      modifies this
      ensures r.Success?
      ensures delivered == old(delivered) + Lines(listeners, timestamp, context, msg)
      ensures listeners == old(listeners) && blockLevel == old(blockLevel) && subjects == old(subjects) && contextEnabled == old(contextEnabled)
    {
      for i := 0 to |listeners|
        invariant listeners == old(listeners) && blockLevel == old(blockLevel) && subjects == old(subjects) && contextEnabled == old(contextEnabled)
        invariant delivered == old(delivered) + Lines(listeners[..i], timestamp, context, msg)
      {
        LinesSnoc(old(delivered), listeners, i, timestamp, context, msg);
        WriteTo(listeners[i], context, msg, timestamp);
      }
      assert listeners[..|listeners|] == listeners;
      r := Success(());
    }

    /** The writes `writeln` makes to one listener: timestamp, the context
        when there is one, the message and the line break. */
    method WriteTo(l: ListenerId, context: string, msg: string, timestamp: string)
      modifies this
      ensures delivered == old(delivered) + LineFor(l, timestamp, context, msg)
      ensures listeners == old(listeners) && blockLevel == old(blockLevel) && subjects == old(subjects) && contextEnabled == old(contextEnabled)
    {
      if |context| > 0 {
        delivered := delivered + [Delivery(l, Some("timestamp"), timestamp), Delivery(l, None, Separation),
          Delivery(l, Some(context), context), Delivery(l, None, Separation),
          Delivery(l, None, msg), Delivery(l, None, "\n")];
      } else {
        delivered := delivered + [Delivery(l, Some("timestamp"), timestamp), Delivery(l, None, Separation),
          Delivery(l, None, msg), Delivery(l, None, "\n")];
      }
    }

    method PushSubject(subject: string)
      modifies this
      ensures subjects == old(subjects) + [subject]
      ensures listeners == old(listeners) && blockLevel == old(blockLevel) && delivered == old(delivered) && contextEnabled == old(contextEnabled)
    {
      subjects := subjects + [subject];
    }

    /** Drops the most recent subject; nothing happens on an empty stack. */
    method PopSubject()
      modifies this
      ensures subjects == if old(subjects) == [] then [] else old(subjects)[..|old(subjects)| - 1]
      ensures listeners == old(listeners) && blockLevel == old(blockLevel) && delivered == old(delivered) && contextEnabled == old(contextEnabled)
    {
      if subjects != [] {
        subjects := subjects[..|subjects| - 1];
      }
    }

    method ClearSubjects()
      modifies this
      ensures subjects == []
      ensures listeners == old(listeners) && blockLevel == old(blockLevel) && delivered == old(delivered) && contextEnabled == old(contextEnabled)
    {
      subjects := [];
    }

    /** Opens a block. The `u32` increment overflows, and a debug build
        aborts, at the largest level. */
    method BeginBlock() returns (status: Status)
      modifies this
      ensures old(blockLevel) < U32Max ==> status == Ok && blockLevel == old(blockLevel) + 1
      ensures old(blockLevel) >= U32Max ==> status == Panic(BlockOverflow) && blockLevel == old(blockLevel)
      ensures listeners == old(listeners) && subjects == old(subjects) && delivered == old(delivered) && contextEnabled == old(contextEnabled)
    {
      if blockLevel >= U32Max {
        return Panic(BlockOverflow);
      }
      blockLevel := blockLevel + 1;
      status := Ok;
    }

    /** Closes one block; the level never drops below 0. */
    method EndBlock()
      modifies this
      ensures blockLevel == if old(blockLevel) == 0 then 0 else old(blockLevel) - 1
      ensures listeners == old(listeners) && subjects == old(subjects) && delivered == old(delivered) && contextEnabled == old(contextEnabled)
    {
      if blockLevel == 0 {
        return;
      }
      blockLevel := blockLevel - 1;
    }

    /** Closes `blocks` blocks at once, stopping at level 0. */
    method EndMultBlocks(blocks: nat)
      modifies this
      ensures blockLevel == if old(blockLevel) <= blocks then 0 else old(blockLevel) - blocks
      ensures listeners == old(listeners) && subjects == old(subjects) && delivered == old(delivered) && contextEnabled == old(contextEnabled)
    {
      if blockLevel <= blocks {
        blockLevel := 0;
        return;
      }
      blockLevel := blockLevel - blocks;
    }

    method EndAllBlocks()
      modifies this
      ensures blockLevel == 0
      ensures listeners == old(listeners) && subjects == old(subjects) && delivered == old(delivered) && contextEnabled == old(contextEnabled)
    {
      blockLevel := 0;
    }

    function BlockLevel(): (r: nat)
      reads this
      ensures r == blockLevel
    {
      blockLevel
    }
  }

  /** Pushing then popping a subject restores the stack. */
  method PushThenPop(logger: Logger, subject: string)
    modifies logger
    ensures logger.subjects == old(logger.subjects)
  {
    logger.PushSubject(subject);
    logger.PopSubject();
  }

  /** Ending one block is ending one of many. */
  method EndBlockIsEndOne(a: Logger, b: Logger)
    requires a != b && a.blockLevel == b.blockLevel
    modifies a, b
    ensures a.blockLevel == b.blockLevel
  {
    a.EndBlock();
    b.EndMultBlocks(1);
  }
}
