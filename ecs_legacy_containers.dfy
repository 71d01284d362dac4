/** The older data containers of the entity-component-system: a one-slot
    container that holds a single boxed component of type T, and the pair
    container `(T, U)` built from two containers, which converts a
    two-component list and puts the components back into the caller's
    list when a conversion fails.

    Containers are values here: `take` returns the emptied container next
    to what it took. */
module EcsLegacyContainers {
  import opened Wrappers
  import opened Components

  const WrongLength: string := ""
  const CannotConvert: string := "Can't perform conversion from component to concrete type."
  const BoxedComponentIsEmpty: string := "Boxed component is empty."
  const ConversionImpossible: string := "Conversion from boxed component into concrete type is impossible."
  /** The panic of `Vec::remove` with an index not below the length,
      shortened: Rust's message also spells out the index and the length,
      `removal index (is i) should be < len (is n)`. */
  const RemovalOutOfBounds: string := "removal index should be < len"
  /** The panic of `Option::unwrap` on `None`. */
  const UnwrapNone: string := "called `Option::unwrap()` on a `None` value"

  /** The static type of a container: a one-slot container of a component
      type, or a pair of container types. */
  datatype Shape = SimpleOf(componentType: TypeTag) | PairOf(first: Shape, second: Shape)

  datatype Container =
    | Simple(componentType: TypeTag, component: Option<Component>)
    | Pair(first: Container, second: Container)

  /** The component values a container is built from by `new`. */
  datatype Value = One(component: Component) | Two(first: Value, second: Value)

  function ShapeOf(c: Container): Shape
  {
    match c
    case Simple(t, _) => SimpleOf(t)
    case Pair(a, b) => PairOf(ShapeOf(a), ShapeOf(b))
  }

  /** `v` has the component types `shape` asks for. */
  predicate Fits(shape: Shape, v: Value)
  {
    match (shape, v)
    case (SimpleOf(t), One(c)) => c.tag == t
    case (PairOf(s1, s2), Two(v1, v2)) => Fits(s1, v1) && Fits(s2, v2)
    case _ => false
  }

  /** The components held, left to right, or None when a slot is empty. */
  function Held(c: Container): seq<Option<Component>>
  {
    match c
    case Simple(_, x) => [x]
    case Pair(a, b) => Held(a) + Held(b)
  }

  /** The components of `v`, left to right. */
  function Values(v: Value): seq<Component>
  {
    match v
    case One(c) => [c]
    case Two(a, b) => Values(a) + Values(b)
  }

  /** `new`: every slot holds its component; a pair is built componentwise. */
  function New(shape: Shape, v: Value): (c: Container)
    requires Fits(shape, v)
    ensures ShapeOf(c) == shape
    ensures |Held(c)| == |Values(v)|
    ensures forall i :: 0 <= i < |Held(c)| ==> Held(c)[i] == Some(Values(v)[i])
  {
    match (shape, v)
    case (SimpleOf(t), One(x)) => Simple(t, Some(x))
    case (PairOf(s1, s2), Two(v1, v2)) => Pair(New(s1, v1), New(s2, v2))
  }

  /** `Vec::insert`; callers keep `i <= |s|`. */
  function Insert(s: seq<Component>, i: nat, x: Component): seq<Component>
    requires i <= |s|
  {
    s[..i] + [x] + s[i..]
  }

  /** `take`: the one-slot container hands out its slot and is left empty;
      a pair hands out the first entry of each side's take. */
  function Take(c: Container): (r: (seq<Option<Component>>, Container))
    ensures |r.0| == (if c.Simple? then 1 else 2)
    ensures ShapeOf(r.1) == ShapeOf(c)
  {
    match c
    case Simple(t, x) => ([x], Simple(t, None))
    case Pair(a, b) =>
      var (ta, a') := Take(a);
      var (tb, b') := Take(b);
      ([ta[0], tb[0]], Pair(a', b'))
  }

  /** `try_from`: converts the whole of `list` into a container of `shape`.
      Returns the outcome (an abort, a conversion error, or the container)
      and the caller's list afterwards. */
  function TryFrom(shape: Shape, list: seq<Component>): (r: (Abortable<Result<Container, string>>, seq<Component>))
    ensures shape.SimpleOf? && |list| != 1 ==> r == (Done(Failure(WrongLength)), list)
    ensures shape.PairOf? && |list| != 2 ==> r == (Done(Failure(WrongLength)), list)
    ensures r.0.Done? && r.0.value.Success? ==> ShapeOf(r.0.value.value) == shape
  {
    match shape
    case SimpleOf(t) =>
      if |list| != 1 then (Done(Failure(WrongLength)), list)
      else
        var component := list[0];
        if component.tag != t then (Abort(CannotConvert), list[1..])
        else (Done(Success(Simple(t, Some(component)))), list[1..])
    case PairOf(s1, s2) =>
      if |list| != 2 then (Done(Failure(WrongLength)), list)
      else
        var remaining := list[..1];
        var (ru, componentB) := TryFrom(s2, [list[1]]);
        match ru
        case Abort(m) => (Abort(m), remaining)
        case Done(Failure(e)) =>
          if |componentB| == 0 then (Abort(RemovalOutOfBounds), remaining)
          else (Done(Failure(e)), Insert(remaining, 1, componentB[0]))
        case Done(Success(u)) =>
          var (rt, componentA) := TryFrom(s1, [remaining[0]]);
          match rt
          case Abort(m) => (Abort(m), [])
          case Done(Failure(e)) =>
            if |componentA| == 0 then (Abort(RemovalOutOfBounds), [])
            else
              var restored := Insert([], 0, componentA[0]);
              var (taken, _) := Take(u);
              if taken[0].None? then (Abort(UnwrapNone), restored)
              else (Done(Failure(e)), Insert(restored, 1, taken[0].value))
          case Done(Success(t)) => (Done(Success(Pair(t, u))), [])
  }

  /** `get` on the one-slot container: an error once it is empty, a
      conversion error if it holds a component of another type, and the
      held component otherwise. */
  function Get(c: Container): (r: Result<Component, string>)
    requires c.Simple?
    ensures c.component.None? <==> r == Failure(BoxedComponentIsEmpty)
    ensures r.Success? <==> c.component.Some? && c.component.value.tag == c.componentType
    ensures r.Success? ==> r.value == c.component.value
  {
    match c.component
    case None => Failure(BoxedComponentIsEmpty)
    case Some(x) => if x.tag == c.componentType then Success(x) else Failure(ConversionImpossible)
  }

  /** The one-slot conversion of a single component never reports an error:
      it either succeeds with the component in the slot, leaving the list
      empty, or aborts because the component has another type. */
  lemma SimpleOnOne(t: TypeTag, c: Component)
    ensures TryFrom(SimpleOf(t), [c]).0 == (if c.tag == t then Done(Success(Simple(t, Some(c)))) else Abort(CannotConvert))
    ensures TryFrom(SimpleOf(t), [c]).1 == []
  {
  }

  /** A pair never converts a one-component list, at any depth, and a
      successful conversion of one component is a filled one-slot container. */
  lemma OneComponentSuccess(shape: Shape, c: Component)
    ensures TryFrom(shape, [c]).0.Done? && TryFrom(shape, [c]).0.value.Success? ==>
      shape.SimpleOf? && TryFrom(shape, [c]).0.value.value == Simple(shape.componentType, Some(c))
  {
  }

  /** A conversion that reports an error leaves the caller's list exactly as
      it was: the pair puts back what it removed, in the original order. */
  lemma {:induction false} FailureRestoresList(shape: Shape, list: seq<Component>)
    ensures TryFrom(shape, list).0.Done? && TryFrom(shape, list).0.value.Failure? ==> TryFrom(shape, list).1 == list
  {
    if shape.PairOf? && |list| == 2 {
      var (s1, s2) := (shape.first, shape.second);
      FailureRestoresList(s2, [list[1]]);
      var (ru, componentB) := TryFrom(s2, [list[1]]);
      if ru.Done? && ru.value.Failure? {
        assert Insert(list[..1], 1, componentB[0]) == list;
      }
      if ru.Done? && ru.value.Success? {
        OneComponentSuccess(s2, list[1]);
        FailureRestoresList(s1, [list[0]]);
        var (rt, componentA) := TryFrom(s1, [list[..1][0]]);
        if rt.Done? && rt.value.Failure? {
          assert Insert(Insert([], 0, componentA[0]), 1, list[1]) == list;
        }
      }
    }
  }

  /** A successful conversion consumes the whole list and holds its
      components in list order. */
  lemma {:induction false} SuccessTakesAll(shape: Shape, list: seq<Component>)
    ensures TryFrom(shape, list).0.Done? && TryFrom(shape, list).0.value.Success? ==>
      TryFrom(shape, list).1 == [] && Held(TryFrom(shape, list).0.value.value) == [Some(list[0])] + (if |list| == 2 then [Some(list[1])] else [])
  {
    if shape.PairOf? && |list| == 2 {
      OneComponentSuccess(shape.second, list[1]);
      OneComponentSuccess(shape.first, list[..1][0]);
    }
  }

  /** Taking from a one-slot container twice: the first take returns the
      component, the second returns an empty slot. */
  lemma TakeTwice(t: TypeTag, c: Component)
    ensures Take(Simple(t, Some(c))).0 == [Some(c)]
    ensures Take(Take(Simple(t, Some(c))).1).0 == [None]
  {
  }

  /** A pair of one-slot containers hands out T's component first, then U's,
      and is left with both slots empty. */
  lemma PairTakeOrder(t: TypeTag, u: TypeTag, a: Component, b: Component)
    ensures Take(Pair(Simple(t, Some(a)), Simple(u, Some(b)))) == ([Some(a), Some(b)], Pair(Simple(t, None), Simple(u, None)))
  {
  }

  /** A pair of one-slot containers converts [a, b] into (a, b); it checks
      the second component first, and a component of the wrong type aborts. */
  lemma PairOfSimples(t: TypeTag, u: TypeTag, a: Component, b: Component)
    ensures TryFrom(PairOf(SimpleOf(t), SimpleOf(u)), [a, b]).0 ==
      if b.tag != u || a.tag != t then Abort(CannotConvert)
      else Done(Success(Pair(Simple(t, Some(a)), Simple(u, Some(b)))))
  {
    assert [a, b][..1] == [a];
  }
}
