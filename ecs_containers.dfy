/** The data containers of the entity-component-system: they take
    components out of an entity's ordered component list and keep them,
    keyed by entity id, until they are drained. */
module EcsContainers {
  import opened Wrappers
  import opened Components

  const BoxedComponentIsEmpty: string := "Boxed component is empty."

  /** Takes, from each entity's list, only the components whose runtime type
      is `componentType`. */
  class SimpleDataContainer {
    const componentType: TypeTag
    var components: map<EntityId, seq<Component>>

    /** Everything the container holds has its component type. */
    ghost predicate Valid()
      reads this
    {
      forall id :: id in components ==> AllOfType(components[id], componentType)
    }

    constructor (t: TypeTag)
      ensures componentType == t
      ensures components == map[]
      ensures Valid()
    {
      componentType := t;
      components := map[];
    }

    /** Removes the components of type `componentType` from `list`, keeping
        both the removed and the remaining ones in their original relative
        order, and records the removed ones under `entityId`, replacing any
        earlier record for that id. Returns the new contents of `list`. */
    method TryAdd(entityId: EntityId, list: seq<Component>) returns (remaining: seq<Component>)
      requires Valid()
      modifies this
      ensures Valid()
      ensures remaining == NotOfType(list, componentType)
      ensures components == old(components)[entityId := OfType(list, componentType)]
      ensures !HasType(remaining, componentType)
      ensures multiset(remaining) + multiset(components[entityId]) == multiset(list)
    {
      var captured;
      captured, remaining := ExtractOfType(list, componentType);
      TypeSplitIsPartition(list, componentType);
      components := components[entityId := captured];
    }

    /** Hands out every recorded (id, components) entry and leaves the container empty. */
    method Drain() returns (drained: map<EntityId, seq<Component>>)
      modifies this
      ensures drained == old(components)
      ensures components == map[]
    {
      drained := components;
      components := map[];
    }

    /** The components recorded for `entityId`, in captured order, each
        downcast to the component type; an error for an unrecorded id. */
    method Get(entityId: EntityId) returns (r: Result<seq<Component>, string>)
      requires Valid()
      ensures entityId !in components ==> r == Failure(BoxedComponentIsEmpty)
      ensures entityId in components ==> r == Success(components[entityId])
      ensures r.Success? ==> AllOfType(r.value, componentType)
    {
      if entityId !in components {
        return Failure(BoxedComponentIsEmpty);
      }
      var boxed := components[entityId];
      var typed: seq<Component> := [];
      for i := 0 to |boxed|
        invariant typed == boxed[..i]
      {
        // the downcast cannot fail: Valid() says every entry has the type
        assert boxed[i].tag == componentType;
        typed := typed + [boxed[i]];
      }
      assert boxed[..|boxed|] == boxed;
      return Success(typed);
    }
  }

  /** The scan of `SimpleDataContainer.TryAdd`: walks `list` with a cursor,
      removing each component of type `t` in place and appending it to the
      captured list, and stepping over every other component. */
  method ExtractOfType(list: seq<Component>, t: TypeTag) returns (captured: seq<Component>, remaining: seq<Component>)
    ensures captured == OfType(list, t)
    ensures remaining == NotOfType(list, t)
  {
    captured := [];
    var comps := list;
    var index := 0;
    ghost var k := 0;
    while index != |comps|
      invariant 0 <= k <= |list|
      invariant comps == NotOfType(list[..k], t) + list[k..]
      invariant index == |NotOfType(list[..k], t)|
      invariant captured == OfType(list[..k], t)
      decreases |comps| - index
    {
      RemovalStep(list, k, t, comps, index);
      if comps[index].tag == t {
        captured := captured + [comps[index]];
        comps := comps[..index] + comps[index + 1..];
      } else {
        index := index + 1;
      }
      k := k + 1;
    }
    assert |list[k..]| == 0;
    assert list[..k] == list;
    remaining := comps;
  }

  /** One step of `SimpleDataContainer.TryAdd`'s scan: the component under
      the cursor is the next unscanned one of the original list, and removing
      it (matching type) or stepping over it (other type) keeps the list equal
      to "non-matching prefix, then unscanned suffix". */
  lemma RemovalStep(list: seq<Component>, k: nat, t: TypeTag, comps: seq<Component>, index: nat)
    requires k < |list|
    requires comps == NotOfType(list[..k], t) + list[k..]
    requires index == |NotOfType(list[..k], t)|
    ensures index < |comps| && comps[index] == list[k]
    ensures OfType(list[..k + 1], t) == OfType(list[..k], t) + (if list[k].tag == t then [list[k]] else [])
    ensures list[k].tag == t ==>
      comps[..index] + comps[index + 1..] == NotOfType(list[..k + 1], t) + list[k + 1..]
      && index == |NotOfType(list[..k + 1], t)|
    ensures list[k].tag != t ==>
      comps == NotOfType(list[..k + 1], t) + list[k + 1..]
      && index + 1 == |NotOfType(list[..k + 1], t)|
  {
    var kept := NotOfType(list[..k], t);
    SplitStep(list, k, t);
    assert comps[..index] == kept;
    assert comps[index + 1..] == list[k + 1..];
    if list[k].tag != t {
      assert comps == (kept + [list[k]]) + list[k + 1..];
    }
  }

  /** Takes every component of each entity's list. */
  class AnyDataContainer {
    var components: map<EntityId, seq<Component>>

    constructor ()
      ensures components == map[]
    {
      components := map[];
    }

    /** Moves the whole of `list`, in order, into the record for `entityId`
        (replacing any earlier record) and leaves `list` empty. */
    method TryAdd(entityId: EntityId, list: seq<Component>) returns (remaining: seq<Component>)
      modifies this
      ensures remaining == []
      ensures components == old(components)[entityId := list]
    {
      var captured := list;
      remaining := [];
      components := components[entityId := captured];
    }

    /** Hands out every recorded entry and leaves the container empty. */
    method Drain() returns (drained: map<EntityId, seq<Component>>)
      modifies this
      ensures drained == old(components)
      ensures components == map[]
    {
      drained := components;
      components := map[];
    }

    /** The list recorded for `entityId`, or an error for an unrecorded id. */
    function Get(entityId: EntityId): (r: Result<seq<Component>, string>)
      reads this
      ensures r.Failure? <==> entityId !in components
      ensures r.Failure? ==> r.error == BoxedComponentIsEmpty
      ensures r.Success? ==> r.value == components[entityId]
    {
      if entityId in components then Success(components[entityId])
      else Failure(BoxedComponentIsEmpty)
    }
  }

  /** Adding to an `AnyDataContainer` and then reading back yields the
      original list, element for element: nothing lost, nothing reordered. */
  method AnyContainerRoundTrip(c: AnyDataContainer, entityId: EntityId, list: seq<Component>)
      returns (remaining: seq<Component>, got: Result<seq<Component>, string>)
    modifies c
    ensures remaining == [] && got == Success(list)
  {
    remaining := c.TryAdd(entityId, list);
    got := c.Get(entityId);
  }

  /** Adding the same entity twice to a `SimpleDataContainer` keeps only the
      second capture: the first one is overwritten. */
  method SimpleContainerOverwrite(c: SimpleDataContainer, entityId: EntityId, first: seq<Component>, second: seq<Component>)
      returns (got: Result<seq<Component>, string>)
    requires c.Valid()
    modifies c
    ensures got == Success(OfType(second, c.componentType))
  {
    var _ := c.TryAdd(entityId, first);
    var _ := c.TryAdd(entityId, second);
    got := c.Get(entityId);
  }
}
