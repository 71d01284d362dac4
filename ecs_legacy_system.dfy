/** The older system wrapper of the entity-component-system and its
    one-slot data container, which hands a system at most one component of
    its data type U per call. */
module EcsLegacySystem {
  import opened Wrappers
  import opened Components
  import opened EcsSystem

  const IndexOutOfRange: string := "Index out of range, acceptable range is [0, 0]"
  const ExpectingConcreteType: string := "Expecting a concrete type."

  /** The slot indices the container accepts: 0 and 1, although its panic
      message names the range [0, 0]. */
  predicate AcceptedIndex(index: int)
  {
    0 <= index <= 1
  }

  /** The one-slot container passed to a legacy system's `run`. */
  class SlotContainer {
    const componentType: TypeTag
    var componentA: Option<Component>

    constructor (t: TypeTag)
      ensures componentType == t && componentA == None
    {
      componentType := t;
      componentA := None;
    }

    /** Whether `component` has the container's type; aborts on an index
        outside [0, 1]. */
    function Check(index: int, component: Component): (r: Abortable<bool>)
      ensures r.Abort? <==> !AcceptedIndex(index)
      ensures r.Abort? ==> r.message == IndexOutOfRange
      ensures r.Done? ==> (r.value <==> component.tag == componentType)
    {
      if index < 0 || index > 1 then Abort(IndexOutOfRange)
      else Done(component.tag == componentType)
    }

    /** The slot, whatever the (accepted) index; aborts on an index outside [0, 1]. */
    function Get(index: int): (r: Abortable<Option<Component>>)
      reads this
      ensures r.Abort? <==> !AcceptedIndex(index)
      ensures r.Abort? ==> r.message == IndexOutOfRange
      ensures r.Done? ==> r.value == componentA
    {
      if index < 0 || index > 1 then Abort(IndexOutOfRange)
      else Done(componentA)
    }

    /** Stores `component` in the single slot, whatever the (accepted)
        index, so every accepted index reads it back afterwards. */
    method Set(index: int, component: Component) returns (status: Status)
      requires component.tag == componentType
      modifies this
      ensures !AcceptedIndex(index) ==> status == Panic(IndexOutOfRange) && componentA == old(componentA)
      ensures AcceptedIndex(index) ==> status == Ok && componentA == Some(component)
      ensures status.Ok? ==> forall j :: AcceptedIndex(j) ==> Get(j) == Done(Some(component))
    {
      if index < 0 || index > 1 {
        return Panic(IndexOutOfRange);
      }
      componentA := Some(component);
      status := Ok;
    }
  }

  /** The legacy runner's fill loop: a fresh one-slot container receives
      each requirement in turn at index 0, 1, 2, ..., after downcasting it to
      U. It completes only for at most two components, all of type U, and
      then holds the last one. */
  method Fill(requirements: seq<Component>, u: TypeTag) returns (r: Abortable<Option<Component>>)
    ensures r.Done? <==> AllOfType(requirements, u) && |requirements| <= 2
    ensures r.Done? ==> r.value == if |requirements| == 0 then None else Some(requirements[|requirements| - 1])
    ensures r.Abort? ==>
      r.message == if AllOfType(requirements[..if |requirements| < 3 then |requirements| else 3], u)
                   then IndexOutOfRange else ExpectingConcreteType
  {
    var container := new SlotContainer(u);
    var i := 0;
    while i < |requirements|
      invariant 0 <= i <= |requirements| && i <= 2
      invariant AllOfType(requirements[..i], u)
      invariant container.componentType == u
      invariant container.componentA == if i == 0 then None else Some(requirements[i - 1])
    {
      if requirements[i].tag != u {
        assert requirements[..if |requirements| < 3 then |requirements| else 3][i] == requirements[i];
        return Abort(ExpectingConcreteType);
      }
      var status := container.Set(i, requirements[i]);
      if status.Panic? {
        assert requirements[..3] == requirements[..i] + [requirements[i]];
        return Abort(status.message);
      }
      assert requirements[..i + 1] == requirements[..i] + [requirements[i]];
      i := i + 1;
    }
    assert requirements[..i] == requirements;
    r := Done(container.componentA);
  }

  /** The boxed legacy system: its runtime type and the slot contents its
      `run` received, one entry per call. */
  datatype LegacyBox = LegacyBox(tag: TypeTag, runs: seq<Option<Component>>)

  class LegacySystem {
    var sys: Option<LegacyBox>
    /** T, the type the system was registered with. */
    const systemType: TypeTag
    /** U, the system's component type. */
    const componentType: TypeTag

    constructor (system: TypeTag, componentType: TypeTag)
      ensures sys == Some(LegacyBox(system, []))
      ensures systemType == system && this.componentType == componentType
    {
      sys := Some(LegacyBox(system, []));
      systemType := system;
      this.componentType := componentType;
    }

    /** Removes the entries at the filter's indices (ascending, never
        adjusted for earlier removals), fills the one-slot container with
        them and runs the system on it. The removed components are never put
        back: `rest` is the entity's list afterwards. */
    method TryRun(components: seq<Component>) returns (status: Status, rest: seq<Component>)
      modifies this
      ensures !HasType(components, componentType) ==> status == Ok && rest == components && sys == old(sys)
      ensures HasType(components, componentType) && RemoveAtEach(components, PositionsOfType(components, componentType)).Abort? ==>
        status == Panic(RemovalOutOfBounds)
      ensures HasType(components, componentType) && RemoveAtEach(components, PositionsOfType(components, componentType)).Done? ==>
        var (removed, left) := RemoveAtEach(components, PositionsOfType(components, componentType)).value;
        if old(sys).None? then status == Panic(SystemIsNoneOnRun)
        else if !(AllOfType(removed, componentType) && |removed| <= 2) then
          status == Panic(if AllOfType(removed[..if |removed| < 3 then |removed| else 3], componentType)
                          then IndexOutOfRange else ExpectingConcreteType)
        else if old(sys).value.tag != systemType then status == Panic(CannotReconstruct)
        else status == Ok && rest == left
             && sys == Some(old(sys).value.(runs := old(sys).value.runs + [if |removed| == 0 then None else Some(removed[|removed| - 1])]))
    {
      var indices := FilterIndices(components, componentType);
      PositionsOfTypeExact(components, componentType);
      if |indices| == 0 {
        assert !HasType(components, componentType);
        return Ok, components;
      }
      assert HasType(components, componentType) by {
        assert components[indices[0]].tag == componentType;
      }
      var removal := RemoveAt(components, indices);
      if removal.Abort? {
        return Panic(removal.message), components;
      }
      var (requirements, comps) := removal.value;
      var s := sys;
      sys := None;
      match s {
        case None =>
          return Panic(SystemIsNoneOnRun), comps;
        case Some(b) =>
          var slot := Fill(requirements, componentType);
          if slot.Abort? {
            return Panic(slot.message), comps;
          }
          if b.tag != systemType {
            return Panic(CannotReconstruct), comps;
          }
          s := Some(b.(runs := b.runs + [slot.value]));
      }
      sys := s;
      status, rest := Ok, comps;
    }
  }
}
