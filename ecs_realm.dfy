/** The realm of the entity-component-system: the registered systems keyed
    by label, the entity list (taken out for the length of a pass) and the
    entity id counter; and the builder that assembles an entity for it. */
module EcsRealm {
  import opened Wrappers
  import opened Components
  import opened EcsEntity
  import opened EcsSystem
  import Legacy = EcsLegacyContainers

  const EntitiesNotFound: string := "Entities not found."

  /** A system that can be set up or run: present and of its registration type. */
  predicate Ready(sys: Option<SystemBox>, systemType: TypeTag)
  {
    sys.Some? && sys.value.tag == systemType
  }

  class Realm {
    var systems: map<string, AnySystem>
    var entities: Option<seq<Entity>>
    var nextEntityId: nat
    /** Every id handed out by `CreateEntity`, in order. */
    ghost var issued: seq<EntityId>
    /** The system objects the realm owns. */
    ghost var Repr: set<AnySystem>

    /** One system object per key, and ids issued in strictly increasing
        order, none beyond the counter. */
    ghost predicate Valid()
      reads this
    {
      systems.Values <= Repr
      && Distinct(systems)
      && (forall i, j :: 0 <= i < j < |issued| ==> issued[i] < issued[j])
      && (forall i :: 0 <= i < |issued| ==> 0 < issued[i] <= nextEntityId)
    }

    constructor ()
      ensures Valid()
      ensures systems == map[] && entities == Some([]) && nextEntityId == 0 && issued == []
    {
      systems := map[];
      entities := Some([]);
      nextEntityId := 0;
      issued := [];
      Repr := {};
    }

    /** Sets up every registered system once, in the map's (unspecified)
        order. It completes iff every system is present and of its type. */
    method SetupSystems() returns (status: Status)
      requires Valid()
      modifies Repr
      ensures Valid()
      ensures status.Ok? <==> forall l :: l in systems ==> Ready(old(systems[l].sys), systems[l].systemType)
      ensures status.Ok? ==> forall l :: l in systems ==> systems[l].sys == SetUpOnce(old(systems[l].sys))
    {
      status := SetupEach(systems);
    }

    /** One pass: takes the entity list out, then for every system (in the
        map's unspecified order, reported as `order`) runs it once and lets
        it handle each entity's component list in list order, and puts the
        entity list back. `logs[i]` is what the handler of the i-th system
        received. */
    method RunSystems() returns (status: Status, ghost order: seq<string>, ghost logs: seq<seq<seq<Component>>>)
      requires Valid()
      modifies this, Repr
      ensures systems == old(systems) && nextEntityId == old(nextEntityId) && issued == old(issued) && Repr == old(Repr)
      ensures Valid()
      ensures old(entities).None? ==> status == Panic(EntitiesNotFound)
      ensures status.Ok? ==> old(entities).Some? && entities.Some? && Enumerates(order, systems)
      ensures status.Ok? ==> Passes(old(entities).value, systems, order) == Done((entities.value, logs))
      ensures status.Ok? ==> EachRan(systems, old(Boxes(systems)), order, logs)
      ensures status.Ok? && NoneHandled(old(entities).value, systems) ==> entities == old(entities)
      ensures status.Panic? && old(entities).Some? ==>
        entities.None? && StopsAt(old(entities).value, systems, old(Boxes(systems)), order, status.message)
    {
      order, logs := [], [];
      var taken := entities;
      if taken.None? {
        return Panic(EntitiesNotFound), order, logs;
      }
      // The list stays taken while the systems run; they never look at it.
      var e;
      status, e, order, logs := RunEach(systems, taken.value);
      if status.Panic? {
        entities := None;
        return;
      }
      PutBack(e, old(Boxes(systems)), order, logs);
    }

    /** Puts the entity list back after a pass, leaving the systems and
        what the pass did to them as they are. */
    method PutBack(e: seq<Entity>, ghost before: map<string, Option<SystemBox>>, ghost order: seq<string>, ghost logs: seq<seq<seq<Component>>>)
      requires Valid() && EachRan(systems, before, order, logs)
      modifies this
      ensures entities == Some(e)
      ensures systems == old(systems) && nextEntityId == old(nextEntityId) && issued == old(issued) && Repr == old(Repr)
      ensures Valid() && EachRan(systems, before, order, logs)
    {
      entities := Some(e);
    }

    /** The system registered under `key`, if it has type `s`; None for an
        unknown key or another type. Aborts when the system is taken. */
    function GetSystem(key: string, s: TypeTag): (r: Abortable<Option<SystemBox>>)
      reads this, Repr
      requires Valid()
      ensures key !in systems ==> r == Done(None)
      ensures key in systems ==> (r.Abort? <==> systems[key].sys.None?)
      ensures r.Done? && r.value.Some? ==> key in systems && systems[key].sys == r.value && r.value.value.tag == s
      ensures key in systems && systems[key].sys.Some? && systems[key].sys.value.tag == s ==> r == Done(systems[key].sys)
    {
      if key !in systems then Done(None)
      else
        match systems[key].GetSystem()
        case Abort(m) => Abort(m)
        case Done(b) => Done(if b.tag == s then Some(b) else None)
    }

    /** Wraps a new system under `key`, replacing any system registered
        under it before: one system per label, other labels untouched. */
    method RegisterSystem(key: string, system: TypeTag, dataType: TypeTag, shape: Legacy.Shape)
      requires Valid()
      modifies this
      ensures Valid()
      ensures systems.Keys == old(systems.Keys) + {key}
      ensures fresh(systems[key])
      ensures systems[key].sys == Some(SystemBox(system, 0, 0, [])) && systems[key].systemType == system
      ensures forall l :: l in old(systems) && l != key ==> systems[l] == old(systems)[l]
      ensures entities == old(entities) && nextEntityId == old(nextEntityId) && issued == old(issued)
      ensures Repr == old(Repr) + {systems[key]}
    {
      var wrapped := new AnySystem(system, dataType, shape);
      systems := systems[key := wrapped];
      Repr := Repr + {wrapped};
    }

    /** Appends `entity` at the end of the entity list; aborts while the list
        is taken. */
    method AddEntity(entity: Entity) returns (status: Status)
      modifies this
      ensures old(entities).None? ==> status == Panic(EntitiesNotFound) && entities == old(entities)
      ensures old(entities).Some? ==> status == Ok && entities == Some(old(entities).value + [entity])
      ensures systems == old(systems) && nextEntityId == old(nextEntityId) && issued == old(issued) && Repr == old(Repr)
    {
      match entities {
        case None =>
          return Panic(EntitiesNotFound);
        case Some(list) =>
          entities := Some(list + [entity]);
          return Ok;
      }
    }

    /** Bumps the id counter, then starts a builder for an entity with the new
        id: the first id is 1 and every id exceeds all earlier ones. The id is
        spent whether or not the builder is ever built. */
    method CreateEntity() returns (builder: EntityBuilder)
      requires Valid()
      modifies this
      ensures Valid()
      ensures nextEntityId == old(nextEntityId) + 1 && issued == old(issued) + [nextEntityId]
      ensures builder.entity == Entity(nextEntityId, []) && builder.realm == this
      ensures forall i :: 0 <= i < |old(issued)| ==> old(issued)[i] < builder.entity.id
      ensures systems == old(systems) && entities == old(entities) && Repr == old(Repr)
    {
      nextEntityId := nextEntityId + 1;
      issued := issued + [nextEntityId];
      builder := NewBuilder(nextEntityId, this);
    }
  }

  /** The boxed system after one more call of its setup hook. */
  function SetUpOnce(sys: Option<SystemBox>): Option<SystemBox>
  {
    if sys.None? then sys else Some(sys.value.(setups := sys.value.setups + 1))
  }

  /** The boxed system after one more call of its run hook. */
  function RunOnce(sys: Option<SystemBox>): Option<SystemBox>
  {
    if sys.None? then sys else Some(sys.value.(runs := sys.value.runs + 1))
  }

  /** Entities keep their ids and count, and their components only leave. */
  ghost predicate Progress(before: seq<Entity>, after: seq<Entity>)
  {
    |after| == |before|
    && forall j :: 0 <= j < |after| ==>
      after[j].id == before[j].id && multiset(after[j].components) <= multiset(before[j].components)
  }

  /** Handling one more entity, which only loses components, extends progress. */
  lemma ProgressSnoc(es: seq<Entity>, after: seq<Entity>, left: seq<Component>)
    requires es != [] && Progress(es[..|es| - 1], after)
    requires multiset(left) <= multiset(es[|es| - 1].components)
    ensures Progress(es, after + [es[|es| - 1].(components := left)])
  {
  }

  lemma ProgressTransitive(a: seq<Entity>, b: seq<Entity>, c: seq<Entity>)
    requires Progress(a, b) && Progress(b, c)
    ensures Progress(a, c)
  {
  }

  /** No entity holds a component that any system's filter looks for. */
  ghost predicate NoneHandled(es: seq<Entity>, systems: map<string, AnySystem>)
  {
    forall j, l :: 0 <= j < |es| && l in systems ==> !HasType(es[j].components, systems[l].dataType)
  }

  /** No two keys share a system object. */
  ghost predicate Distinct(table: map<string, AnySystem>)
  {
    forall l1, l2 :: l1 in table && l2 in table && l1 != l2 ==> table[l1] != table[l2]
  }

  /** The loop of `Realm.SetupSystems`: sets up the systems of `table` one
      key at a time, stopping at the first panic. */
  method SetupEach(table: map<string, AnySystem>) returns (status: Status)
    requires Distinct(table)
    modifies table.Values
    ensures status.Ok? <==> forall l :: l in table ==> Ready(old(table[l].sys), table[l].systemType)
    ensures status.Ok? ==> forall l :: l in table ==> table[l].sys == SetUpOnce(old(table[l].sys))
  {
    var todo := table.Keys;
    while todo != {}
      invariant todo <= table.Keys
      invariant forall l :: l in table && l !in todo ==>
        Ready(old(table[l].sys), table[l].systemType) && table[l].sys == SetUpOnce(old(table[l].sys))
      invariant forall l :: l in todo ==> table[l].sys == old(table[l].sys)
      decreases |todo|
    {
      var key :| key in todo;
      var system := table[key];
      status := system.Setup();
      if status.Panic? {
        return;
      }
      todo := todo - {key};
    }
    status := Ok;
  }

  /** Every key of `table` exactly once. */
  ghost predicate Enumerates(order: seq<string>, table: map<string, AnySystem>)
  {
    (forall k :: k in order ==> k in table)
    && (forall l :: l in table ==> l in order)
    && (forall i, j :: 0 <= i < j < |order| ==> order[i] != order[j])
  }

  /** One system, with filter type `t` and container shape `shape`, handling
      every entity in list order: the entity list afterwards and, one per
      matching entity, the component lists its handler received; or the
      abort of the first entity whose handling panics. */
  function Pass(es: seq<Entity>, t: TypeTag, shape: Legacy.Shape): (r: Abortable<(seq<Entity>, seq<seq<Component>>)>)
    ensures r.Done? ==> Progress(es, r.value.0)
    decreases |es|
  {
    if es == [] then Done(([], []))
    else
      var e := es[|es| - 1];
      match Pass(es[..|es| - 1], t, shape)
      case Abort(m) => Abort(m)
      case Done(p) =>
        match HandleStep(e.components, t, shape)
        case Abort(m) => Abort(m)
        case Done(q) =>
          ProgressSnoc(es, p.0, q.1);
          Done((p.0 + [e.(components := q.1)], if q.0 == [] then p.1 else p.1 + [q.0]))
  }

  /** Once a prefix of the entities aborts, the whole pass aborts the same way. */
  lemma {:induction false} PassAbortExtends(es: seq<Entity>, k: nat, t: TypeTag, shape: Legacy.Shape)
    requires k <= |es| && Pass(es[..k], t, shape).Abort?
    ensures Pass(es, t, shape) == Pass(es[..k], t, shape)
    decreases |es| - k
  {
    if k < |es| {
      var prefix := es[..k + 1];
      assert prefix[..|prefix| - 1] == es[..k];
      assert Pass(prefix, t, shape) == Pass(es[..k], t, shape);
      PassAbortExtends(es, k + 1, t, shape);
    } else {
      assert es[..k] == es;
    }
  }

  /** A system none of whose components any entity holds leaves the list as
      it is and its handler receives nothing. */
  lemma {:induction false} PassUntouched(es: seq<Entity>, t: TypeTag, shape: Legacy.Shape)
    requires forall j :: 0 <= j < |es| ==> !HasType(es[j].components, t)
    ensures Pass(es, t, shape) == Done((es, []))
    decreases |es|
  {
    if es != [] {
      PassUntouched(es[..|es| - 1], t, shape);
      assert es[..|es| - 1] + [es[|es| - 1]] == es;
    }
  }

  /** The systems of `table` under the keys of `order`, in turn, each handling
      every entity: the final entity list and, per system, the component
      lists its handler received; or the first abort. */
  function Passes(es: seq<Entity>, table: map<string, AnySystem>, order: seq<string>): (r: Abortable<(seq<Entity>, seq<seq<seq<Component>>>)>)
    requires forall k :: k in order ==> k in table
    ensures r.Done? ==> Progress(es, r.value.0) && |r.value.1| == |order|
    decreases |order|
  {
    if order == [] then Done((es, []))
    else
      var system := table[order[|order| - 1]];
      match Passes(es, table, order[..|order| - 1])
      case Abort(m) => Abort(m)
      case Done(p) =>
        match Pass(p.0, system.dataType, system.shape)
        case Abort(m) => Abort(m)
        case Done(q) =>
          ProgressTransitive(es, p.0, q.0);
          Done((q.0, p.1 + [q.1]))
  }

  /** Systems none of whose data types any entity holds leave the list as it is. */
  lemma {:induction false} PassesUntouched(es: seq<Entity>, table: map<string, AnySystem>, order: seq<string>)
    requires forall k :: k in order ==> k in table
    requires NoneHandled(es, table)
    ensures Passes(es, table, order).Done? && Passes(es, table, order).value.0 == es
    decreases |order|
  {
    if order != [] {
      PassesUntouched(es, table, order[..|order| - 1]);
      var system := table[order[|order| - 1]];
      PassUntouched(es, system.dataType, system.shape);
    }
  }

  /** The boxed system under every key of `table`. */
  ghost function Boxes(table: map<string, AnySystem>): map<string, Option<SystemBox>>
    reads table.Values
  {
    map l | l in table :: table[l].sys
  }

  /** The systems under the keys of `order` each ran exactly once from their
      boxes in `before`, and the handler of the i-th received `logs[i]`. */
  ghost predicate EachRan(table: map<string, AnySystem>, before: map<string, Option<SystemBox>>, order: seq<string>, logs: seq<seq<seq<Component>>>)
    reads table.Values
  {
    |logs| == |order|
    && (forall k :: k in order ==> k in table && k in before)
    && forall i :: 0 <= i < |order| ==>
      Ready(before[order[i]], table[order[i]].systemType)
      && table[order[i]].sys == Some(before[order[i]].value.(runs := before[order[i]].value.runs + 1,
                                                              handled := before[order[i]].value.handled + logs[i]))
  }

  /** After a whole pass every system was ready and its run count rose by one. */
  lemma EachRanRunsOnce(table: map<string, AnySystem>, before: map<string, Option<SystemBox>>, order: seq<string>, logs: seq<seq<seq<Component>>>)
    requires Enumerates(order, table) && EachRan(table, before, order, logs)
    ensures forall l :: l in table ==>
      l in before && Ready(before[l], table[l].systemType)
      && table[l].sys.Some? && table[l].sys.value.runs == before[l].value.runs + 1
  {
    forall l | l in table
      ensures l in before && Ready(before[l], table[l].systemType)
      ensures table[l].sys.Some? && table[l].sys.value.runs == before[l].value.runs + 1
    {
      var i :| 0 <= i < |order| && order[i] == l;
    }
  }

  /** One system's turn from the box `box`: its run refuses a missing box or
      one of another type, otherwise it handles every entity. */
  function Turn(box: Option<SystemBox>, system: AnySystem, es: seq<Entity>): Abortable<(seq<Entity>, seq<seq<Component>>)>
  {
    if box.None? then Abort(SystemIsNoneOnRun)
    else if box.value.tag != system.systemType then Abort(CannotReconstruct)
    else Pass(es, system.dataType, system.shape)
  }

  /** The turns of the systems under the keys of `order`, each from its box
      in `before`: the final entity list and, per system, the component
      lists its handler received; or the first refusal or abort. */
  function Round(es: seq<Entity>, table: map<string, AnySystem>, before: map<string, Option<SystemBox>>, order: seq<string>)
    : Abortable<(seq<Entity>, seq<seq<seq<Component>>>)>
    requires forall k :: k in order ==> k in table && k in before
    decreases |order|
  {
    if order == [] then Done((es, []))
    else
      var key := order[|order| - 1];
      match Round(es, table, before, order[..|order| - 1])
      case Abort(m) => Abort(m)
      case Done(p) =>
        match Turn(before[key], table[key], p.0)
        case Abort(m) => Abort(m)
        case Done(q) => Done((q.0, p.1 + [q.1]))
  }

  /** When every system of `order` is ready, its turns are the passes. */
  lemma {:induction false} RoundOfReady(es: seq<Entity>, table: map<string, AnySystem>, before: map<string, Option<SystemBox>>, order: seq<string>)
    requires forall k :: k in order ==> k in table && k in before
    requires forall i :: 0 <= i < |order| ==> Ready(before[order[i]], table[order[i]].systemType)
    ensures Round(es, table, before, order) == Passes(es, table, order)
    decreases |order|
  {
    if order != [] {
      RoundOfReady(es, table, before, order[..|order| - 1]);
    }
  }

  /** A pass that panics with `message` at the last key of `order`: distinct
      keys of `table`, whose turns complete up to the last, which aborts. */
  ghost predicate StopsAt(es: seq<Entity>, table: map<string, AnySystem>, before: map<string, Option<SystemBox>>,
                          order: seq<string>, message: string)
  {
    order != []
    && (forall k :: k in order ==> k in table && k in before)
    && (forall i, j :: 0 <= i < j < |order| ==> order[i] != order[j])
    && Round(es, table, before, order[..|order| - 1]).Done?
    && Round(es, table, before, order) == Abort(message)
  }

  /** A pass in which every system is ready panics only where a pass over
      the keys it reached aborts: the run itself refuses nothing. */
  lemma ReadyStopsInPasses(es: seq<Entity>, table: map<string, AnySystem>, before: map<string, Option<SystemBox>>,
                           order: seq<string>, message: string)
    requires StopsAt(es, table, before, order, message)
    requires forall l :: l in table ==> l in before && Ready(before[l], table[l].systemType)
    ensures Passes(es, table, order) == Abort(message)
  {
    RoundOfReady(es, table, before, order);
  }

  /** The loop of `Realm.RunSystems`: runs each system of `table` once and
      lets it handle every entity, one key at a time in `order` (the map's
      unspecified order), stopping at the first panic. `logs[i]` is what the
      handler of the i-th system received. */
  method RunEach(table: map<string, AnySystem>, es: seq<Entity>)
    returns (status: Status, after: seq<Entity>, ghost order: seq<string>, ghost logs: seq<seq<seq<Component>>>)
    requires Distinct(table)
    modifies table.Values
    ensures status.Ok? ==> Enumerates(order, table) && Passes(es, table, order) == Done((after, logs))
    ensures status.Ok? ==> EachRan(table, old(Boxes(table)), order, logs)
    ensures status.Ok? && NoneHandled(es, table) ==> after == es
    ensures status.Panic? ==> StopsAt(es, table, old(Boxes(table)), order, status.message)
  {
    after, order, logs := es, [], [];
    ghost var before := Boxes(table);
    var todo := table.Keys;
    while todo != {}
      invariant Midway(table, before, es, todo, order, logs, after)
      decreases |todo|
    {
      var key :| key in todo;
      status, after, order, logs := RunStep(table, es, key, after, todo, order, logs, before);
      if status.Panic? {
        return;
      }
      todo := todo - {key};
    }
    status := Ok;
    if NoneHandled(es, table) {
      PassesUntouched(es, table, order);
    }
  }

  /** The state of `RunEach` with the keys of `todo` still to run: the keys
      run so far are `order`, each once, and their systems ran from their
      boxes in `before`; the others are still in those boxes. */
  ghost predicate Midway(table: map<string, AnySystem>, before: map<string, Option<SystemBox>>, es: seq<Entity>,
                         todo: set<string>, order: seq<string>, logs: seq<seq<seq<Component>>>, after: seq<Entity>)
    reads table.Values
  {
    todo <= table.Keys
    && (forall k :: k in order ==> k !in todo)
    && (forall l :: l in table ==> l in order || l in todo)
    && (forall i, j :: 0 <= i < j < |order| ==> order[i] != order[j])
    && EachRan(table, before, order, logs)
    && Passes(es, table, order) == Done((after, logs))
    && (forall l :: l in todo ==> l in before && table[l].sys == before[l])
  }

  /** One iteration of `RunEach`: the system under `key` takes its turn. */
  method RunStep(table: map<string, AnySystem>, es: seq<Entity>, key: string, after: seq<Entity>, ghost todo: set<string>,
                 ghost order: seq<string>, ghost logs: seq<seq<seq<Component>>>, ghost before: map<string, Option<SystemBox>>)
    returns (status: Status, after': seq<Entity>, ghost order': seq<string>, ghost logs': seq<seq<seq<Component>>>)
    requires Distinct(table) && key in todo && Midway(table, before, es, todo, order, logs, after)
    modifies table[key]
    ensures order' == order + [key]
    ensures status.Ok? ==> Midway(table, before, es, todo - {key}, order', logs', after')
    ensures status.Panic? ==> StopsAt(es, table, before, order', status.message)
  {
    ghost var log;
    assert forall i :: 0 <= i < |order| ==> Ready(before[order[i]], table[order[i]].systemType);
    status, after', log := RunKey(table, key, after, order, logs, before);
    order', logs' := order + [key], logs + [log];
    if status.Panic? {
      TurnStops(es, table, before, order, logs, key, after, status.message);
    } else {
      PassesSnoc(es, table, order, key, after, logs);
      forall l | l in todo - {key}
        ensures table[l] != table[key]
      {
      }
    }
  }

  /** After turns that all ran, one more key whose turn aborts stops the pass there. */
  lemma TurnStops(es: seq<Entity>, table: map<string, AnySystem>, before: map<string, Option<SystemBox>>, order: seq<string>,
                  logs: seq<seq<seq<Component>>>, key: string, mid: seq<Entity>, message: string)
    requires forall k :: k in order ==> k in table && k in before
    requires forall i, j :: 0 <= i < j < |order| ==> order[i] != order[j]
    requires key in table && key in before && key !in order
    requires forall i :: 0 <= i < |order| ==> Ready(before[order[i]], table[order[i]].systemType)
    requires Passes(es, table, order) == Done((mid, logs))
    requires Turn(before[key], table[key], mid) == Abort(message)
    ensures StopsAt(es, table, before, order + [key], message)
  {
    var order' := order + [key];
    RoundOfReady(es, table, before, order);
    assert order'[..|order'| - 1] == order;
    assert Round(es, table, before, order') == Abort(message);
    assert forall i, j :: 0 <= i < j < |order'| ==> order'[i] != order'[j] by {
      assert forall i :: 0 <= i < |order| ==> order'[i] == order[i];
    }
  }

  /** Passes over one more key extend the passes over the keys before it. */
  lemma PassesSnoc(es: seq<Entity>, table: map<string, AnySystem>, order: seq<string>, key: string, mid: seq<Entity>, logs: seq<seq<seq<Component>>>)
    requires (forall k :: k in order ==> k in table) && key in table
    requires Passes(es, table, order) == Done((mid, logs))
    ensures Passes(es, table, order + [key]) ==
      match Pass(mid, table[key].dataType, table[key].shape)
      case Abort(m) => Abort(m)
      case Done(q) => Done((q.0, logs + [q.1]))
  {
    assert (order + [key])[..|order|] == order;
  }

  /** One key's turn in `RunEach`: the system under `key`, not yet run in this
      pass and still in its box from `before`, runs and handles every entity. */
  method RunKey(table: map<string, AnySystem>, key: string, es: seq<Entity>, ghost order: seq<string>, ghost logs: seq<seq<seq<Component>>>, ghost before: map<string, Option<SystemBox>>)
    returns (status: Status, after: seq<Entity>, ghost log: seq<seq<Component>>)
    requires Distinct(table) && key in table && key in before && key !in order
    requires EachRan(table, before, order, logs) && table[key].sys == before[key]
    modifies table[key]
    ensures status.Ok? ==> Turn(before[key], table[key], es) == Done((after, log))
    ensures status.Ok? ==> Pass(es, table[key].dataType, table[key].shape) == Done((after, log))
    ensures status.Panic? ==> Turn(before[key], table[key], es) == Abort(status.message)
    ensures status.Ok? ==> EachRan(table, before, order + [key], logs + [log])
  {
    var system := table[key];
    assert forall i :: 0 <= i < |order| ==> table[order[i]] != system;
    status, after, log := RunOne(system, es);
    if status.Ok? {
      assert EachRan(table, before, order, logs);
      EachRanSnoc(table, before, order, logs, key, log);
    }
  }

  /** One more system that ran from its box in `before` extends `EachRan`. */
  lemma EachRanSnoc(table: map<string, AnySystem>, before: map<string, Option<SystemBox>>, order: seq<string>,
                    logs: seq<seq<seq<Component>>>, key: string, log: seq<seq<Component>>)
    requires EachRan(table, before, order, logs) && key in table && key in before
    requires Ready(before[key], table[key].systemType)
    requires table[key].sys == Some(before[key].value.(runs := before[key].value.runs + 1, handled := before[key].value.handled + log))
    ensures EachRan(table, before, order + [key], logs + [log])
  {
    var order', logs' := order + [key], logs + [log];
    assert forall i :: 0 <= i < |order| ==> order'[i] == order[i] && logs'[i] == logs[i];
  }

  /** One system's turn in a pass: it runs once, then handles every entity. */
  method RunOne(system: AnySystem, es: seq<Entity>) returns (status: Status, after: seq<Entity>, ghost log: seq<seq<Component>>)
    modifies system
    ensures status.Ok? <==> Ready(old(system.sys), system.systemType) && Pass(es, system.dataType, system.shape).Done?
    ensures status.Ok? ==> Turn(old(system.sys), system, es) == Done((after, log))
    ensures status.Panic? ==> Turn(old(system.sys), system, es) == Abort(status.message)
    ensures status.Ok? ==> Pass(es, system.dataType, system.shape) == Done((after, log))
    ensures status.Ok? ==> system.sys == Some(old(system.sys).value.(runs := old(system.sys).value.runs + 1,
                                                                     handled := old(system.sys).value.handled + log))
  {
    after, log := es, [];
    status := system.Run();
    if status.Panic? {
      return;
    }
    status, after, log := HandleAll(system, es);
  }

  /** The inner loop of a pass: `system` handles every entity's component
      list, in list order; `log` is what its handler received. */
  method HandleAll(system: AnySystem, es: seq<Entity>) returns (status: Status, after: seq<Entity>, ghost log: seq<seq<Component>>)
    modifies system
    ensures old(system.sys).Some? ==> (status.Ok? <==> Pass(es, system.dataType, system.shape).Done?)
    ensures old(system.sys).Some? && status.Panic? ==> status == Panic(Pass(es, system.dataType, system.shape).message)
    ensures old(system.sys).Some? && status.Ok? ==>
      Pass(es, system.dataType, system.shape) == Done((after, log))
      && system.sys == Some(old(system.sys).value.(handled := old(system.sys).value.handled + log))
    ensures status.Ok? && (forall j :: 0 <= j < |es| ==> !HasType(es[j].components, system.dataType)) ==> after == es
  {
    after, log := es, [];
    ghost var h0 := system.sys;
    if h0.Some? {
      assert h0.value.handled + log == h0.value.handled;
    }
    for j := 0 to |es|
      invariant |after| == |es|
      invariant forall k :: j <= k < |es| ==> after[k] == es[k]
      invariant h0.Some? ==>
        Pass(es[..j], system.dataType, system.shape) == Done((after[..j], log))
        && system.sys == Some(h0.value.(handled := h0.value.handled + log))
      invariant (forall k :: 0 <= k < |es| ==> !HasType(es[k].components, system.dataType)) ==> after == es
    {
      status, after, log := HandleNext(system, es, j, after, log, h0);
      if status.Panic? {
        if h0.Some? {
          PassAbortExtends(es, j + 1, system.dataType, system.shape);
        }
        return;
      }
    }
    assert es[..|es|] == es && after[..|es|] == after;
    status := Ok;
  }

  /** One step of `HandleAll`: `system` handles entity `j`, whose list is
      still untouched; `h0` is the system's box before the loop. */
  method HandleNext(system: AnySystem, es: seq<Entity>, j: nat, after: seq<Entity>, ghost log: seq<seq<Component>>, ghost h0: Option<SystemBox>)
    returns (status: Status, after': seq<Entity>, ghost log': seq<seq<Component>>)
    requires j < |es| == |after| && after[j] == es[j]
    requires h0.Some? ==>
      Pass(es[..j], system.dataType, system.shape) == Done((after[..j], log))
      && system.sys == Some(h0.value.(handled := h0.value.handled + log))
    modifies system
    ensures status.Ok? ==> |after'| == |after| && forall k :: 0 <= k < |after| && k != j ==> after'[k] == after[k]
    ensures status.Ok? && !HasType(es[j].components, system.dataType) ==> after' == after
    ensures h0.Some? && status.Panic? ==> Pass(es[..j + 1], system.dataType, system.shape) == Abort(status.message)
    ensures h0.Some? && status.Ok? ==>
      Pass(es[..j + 1], system.dataType, system.shape) == Done((after'[..j + 1], log'))
      && system.sys == Some(h0.value.(handled := h0.value.handled + log'))
  {
    ghost var step := HandleStep(es[j].components, system.dataType, system.shape);
    var rest;
    status, rest := system.Handle(after[j].components);
    assert es[..j + 1][..j] == es[..j];
    after', log' := after, log;
    if status.Ok? {
      after' := after[j := after[j].(components := rest)];
      assert after'[..j + 1] == after[..j] + [es[j].(components := rest)];
      if h0.Some? && step.value.0 != [] {
        log' := log + [step.value.0];
        assert h0.value.handled + log' == (h0.value.handled + log) + [step.value.0];
      }
    }
  }

  /** An entity under construction, tied to the realm it will be added to. */
  datatype EntityBuilder = EntityBuilder(entity: Entity, realm: Realm)
  {
    /** The builder with `component` appended to its entity, for chaining. */
    function WithComponent(component: Component): (b: EntityBuilder)
      ensures b.realm == realm && b.entity.id == entity.id
      ensures b.entity.components == entity.components + [component]
    {
      this.(entity := AddComponent(entity, component))
    }

    /** Hands the entity to the realm, which appends it to its list. */
    method Build() returns (status: Status)
      modifies realm
      ensures old(realm.entities).None? ==> status == Panic(EntitiesNotFound)
      ensures old(realm.entities).Some? ==> status == Ok && realm.entities == Some(old(realm.entities).value + [entity])
      ensures realm.nextEntityId == old(realm.nextEntityId) && realm.issued == old(realm.issued)
      ensures realm.systems == old(realm.systems) && realm.Repr == old(realm.Repr)
    {
      status := realm.AddEntity(entity);
    }
  }

  /** A builder for a new entity with exactly the id `id` and no components. */
  function NewBuilder(id: EntityId, realm: Realm): (b: EntityBuilder)
    ensures b.entity.id == id && b.entity.components == [] && b.realm == realm
  {
    EntityBuilder(NewEntity(id), realm)
  }

  /** Two entities built one after the other, each with a transform and a
      graphic renderer, end up in the realm with ids 1 and 2, in that order. */
  method TwoEntityScene(transform: Component, renderer: Component) returns (realm: Realm)
    ensures realm.entities == Some([Entity(1, [transform, renderer]), Entity(2, [transform, renderer])])
    ensures realm.nextEntityId == 2
  {
    realm := new Realm();
    var builder := realm.CreateEntity();
    builder := builder.WithComponent(transform).WithComponent(renderer);
    assert builder.entity == Entity(1, [transform, renderer]);
    var status := builder.Build();
    assert [] + [builder.entity] == [builder.entity];
    builder := realm.CreateEntity();
    builder := builder.WithComponent(transform).WithComponent(renderer);
    assert builder.entity == Entity(2, [transform, renderer]);
    status := builder.Build();
    assert [Entity(1, [transform, renderer])] + [builder.entity] == [Entity(1, [transform, renderer]), builder.entity];
  }
}
