/** The entity of the entity-component-system: an id and an ordered list of
    components. */
module EcsEntity {
  import opened Components

  datatype Entity = Entity(id: EntityId, components: seq<Component>)
  {
    /** The component list, read without changing the entity. */
    function GetComponents(): (r: seq<Component>)
      ensures |r| == |components|
      ensures forall i :: 0 <= i < |r| ==> r[i] == components[i]
    {
      components
    }

    /** The entity after its component list was replaced through the
        mutable accessor; the id is untouched. */
    function WithComponents(cs: seq<Component>): (e: Entity)
      ensures e.id == id
      ensures e.GetComponents() == cs
    {
      this.(components := cs)
    }
  }

  /** An entity with the given id and no components. */
  function NewEntity(id: EntityId): (e: Entity)
    ensures e.id == id && e.GetComponents() == []
  {
    Entity(id, [])
  }

  /** The entity with `c` appended to the end of its component list. */
  function AddComponent(e: Entity, c: Component): (r: Entity)
    ensures r.id == e.id
    ensures |r.components| == |e.components| + 1
    ensures r.components[..|e.components|] == e.components
    ensures r.components[|e.components|] == c
  {
    e.(components := e.components + [c])
  }

  /** What is written through the mutable accessor is exactly what the
      read accessor reports afterwards, and a write of the current list
      changes nothing. */
  lemma MutableAccessRoundTrip(e: Entity, cs: seq<Component>)
    ensures e.WithComponents(cs).GetComponents() == cs
    ensures e.WithComponents(cs).id == e.id
    ensures e.WithComponents(e.GetComponents()) == e
  {
  }
}
